/**
 * spotcon.go: the command table of the spotcon revision, its sorting, and
 * the quit and clear handlers. The REPL and its tokenizer are in Tokenizer.
 */
module Spotcon {
  import opened Wrappers
  import opened Gateway
  import opened Registry
  import Playback

  /** app.Name, which playAction passes to cli.ShowCommandHelp as its help topic. */
  const AppName: string := "Spotcon"

  /** The handler each table entry runs. */
  datatype Handler =
    | ClearScreen
    | ShowCurrent
    | ListDevices
    | Skip(forward: bool)
    | Options
    | PausePlayback
    | PlayOnDevice
    | QuitProgram
    | SearchCatalogue
    | SeekTrack(forward: bool)
    | AdjustVolume(up: bool)
    | SetVolume
    | Subcommands       // seek and vol only dispatch to their subcommands

  /** app.Commands as written, in source order. */
  const Commands: seq<Command<Handler>> := [
    Command("clear", ["clc"], [], ClearScreen),
    Command("current", ["c"], [], ShowCurrent),
    Command("devices", ["d"], [], ListDevices),
    Command("next", ["n"], [], Skip(true)),
    Command("opt", ["o"], [], Options),
    Command("pause", ["pp"], [], PausePlayback),
    Command("play", ["p"], [], PlayOnDevice),
    Command("prev", ["pr"], [], Skip(false)),
    Command("quit", ["q"], [], QuitProgram),
    Command("search", ["s"], [], SearchCatalogue),
    Command("seek", [], [Subcommand("ff", SeekTrack(true)), Subcommand("rw", SeekTrack(false))], Subcommands),
    Command("vol", ["v"], [Subcommand("up", AdjustVolume(true)), Subcommand("down", AdjustVolume(false)),
                           Subcommand("set", SetVolume)], Subcommands)
  ]

  /** No name or alias selects two commands, and no command repeats a name, an alias or a subcommand name. */
  lemma CommandsUnique()
    ensures UniqueNames(Commands)
  {
    OwnNamesDistinct();
    SubcommandNamesDistinct();
    EarlyCommandsDisjoint();
    MiddleCommandsDisjoint();
    LateCommandsDisjoint();
  }

  lemma OwnNamesDistinct()
    ensures forall i :: 0 <= i < |Commands| ==> NoDuplicates(Names(Commands[i]))
  {
  }

  lemma SubcommandNamesDistinct()
    ensures forall i :: 0 <= i < |Commands| ==> NoDuplicates(SubcommandNames(Commands[i]))
  {
  }

  lemma EarlyCommandsDisjoint()
    ensures forall i, j :: 0 <= i < 4 && i < j < |Commands| ==> Disjoint(Names(Commands[i]), Names(Commands[j]))
  {
  }

  lemma MiddleCommandsDisjoint()
    ensures forall i, j :: 4 <= i < 8 && i < j < |Commands| ==> Disjoint(Names(Commands[i]), Names(Commands[j]))
  {
  }

  lemma LateCommandsDisjoint()
    ensures forall i, j :: 8 <= i < j < |Commands| ==> Disjoint(Names(Commands[i]), Names(Commands[j]))
  {
  }

  /** The table is already in CommandsByName order, so sort.Sort leaves it as written. */
  lemma SortedTable()
    ensures SortByName(Commands) == Commands
  {
    TableInOrder();
    CommandsUnique();
    SortKeepsSorted(Commands);
  }

  lemma TableInOrder()
    ensures forall i :: 0 < i < |Commands| ==> Less(Commands[i - 1].name, Commands[i].name)
  {
  }

  /** The help topic playAction uses for a bad device number is the program's name, which selects no command. */
  lemma AppNameIsNoCommand()
    ensures Lookup(Commands, AppName) == None
  {
    assert forall i :: 0 <= i < |Commands| ==> Commands[i].name[0] != 'S' && forall a :: a in Commands[i].aliases ==> a[0] != 'S';
    LookupMissing(Commands, AppName);
  }

  /** quitAction: help when arguments are given, otherwise the program exits. */
  function QuitAction(c: Context): (r: Reply)
    ensures r.calls == []
    ensures r.outcome == if Present(c) then Help(c.command) else Exited
  {
    Guarded(c, Reply([], Exited))
  }

  /** clearAction: help when arguments are given, otherwise the clear-screen escape is written. */
  function ClearAction(c: Context): (r: Reply)
    ensures r.calls == []
    ensures r.outcome == if Present(c) then Help(c.command) else Cleared
  {
    Guarded(c, Reply([], Cleared))
  }

  /**
   * What the handler of h does, for the context c, the value of --device and
   * the device list d; None for the handlers whose code is not part of this model.
   */
  function Run(h: Handler, c: Context, device: int, d: seq<Device>): Option<Reply>
  {
    match h
    case ClearScreen => Some(ClearAction(c))
    case ShowCurrent => Some(Playback.CurrentAction(c))
    case ListDevices => Some(Playback.DevicesAction(c, d))
    case PausePlayback => Some(Playback.PauseAction(c))
    case PlayOnDevice => Some(Playback.PlayAction(device, d, AppName))
    case QuitProgram => Some(QuitAction(c))
    case _ => None
  }

  /**
   * Every modelled handler but play shows the running command's help and calls
   * nothing when it is given positional arguments; play has no such guard.
   */
  lemma ArgumentsShowHelp(h: Handler, c: Context, device: int, d: seq<Device>)
    requires Present(c) && Run(h, c, device, d).Some?
    ensures h != PlayOnDevice ==> Run(h, c, device, d) == Some(Reply([], Help(c.command)))
    ensures h == PlayOnDevice ==> Run(h, c, device, d) == Some(Playback.PlayAction(device, d, AppName))
  {
  }
}
