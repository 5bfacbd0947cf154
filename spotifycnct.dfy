/**
 * spotifycnct.go, one revision of the shell. Five commands without argument
 * guards; play reads an optional device number with strconv.ParseUint, and
 * the REPL splits each line with strings.Fields after "spotifycnct ".
 */
module Spotifycnct {
  import opened Wrappers
  import opened Decimal
  import opened Gateway
  import opened Registry
  import opened Fields
  import Playback

  /** app.Name, which is also the word the REPL puts in front of every line. */
  const ProgramWord: string := "spotifycnct"

  /** What the play handler prints for a first argument ParseUint refuses. */
  const NotANumber: string := "Play command only accepts numbers [1, 2, 3...]"

  datatype Handler = DevicesCmd | PlayCmd | PauseCmd | VolumeCmd | QuitCmd

  /** app.Commands as written, in source order. */
  const Commands: seq<Command<Handler>> := [
    Command("devices", ["d"], [], DevicesCmd),
    Command("play", ["p"], [], PlayCmd),
    Command("pause", ["pp"], [], PauseCmd),
    Command("volume", ["v"], [], VolumeCmd),
    Command("quit", ["q"], [], QuitCmd)
  ]

  /** The same commands in name order. */
  const SortedCommands: seq<Command<Handler>> := [
    Commands[0], Commands[2], Commands[1], Commands[4], Commands[3]
  ]

  /** No name or alias selects two commands. */
  lemma CommandsUnique()
    ensures UniqueNames(Commands)
  {
    OwnNamesDistinct();
    CommandsDisjoint();
  }

  lemma OwnNamesDistinct()
    ensures forall i :: 0 <= i < |Commands| ==> NoDuplicates(Names(Commands[i]))
    ensures forall i :: 0 <= i < |Commands| ==> NoDuplicates(SubcommandNames(Commands[i]))
  {
  }

  lemma CommandsDisjoint()
    ensures forall i, j :: 0 <= i < j < |Commands| ==> Disjoint(Names(Commands[i]), Names(Commands[j]))
  {
  }

  /** sort.Sort(cli.CommandsByName(app.Commands)) moves pause before play and quit before volume. */
  lemma SortedTable()
    ensures SortByName(Commands) == SortedCommands
    ensures |SortedCommands| == 5 && SortedCommands[1].name == "pause" && SortedCommands[2].name == "play"
  {
    SortedInOrder();
    SameCommands();
    CommandsUnique();
    SortIsArrangement(Commands, SortedCommands);
  }

  lemma SortedInOrder()
    ensures forall i :: 0 < i < |SortedCommands| ==> Less(SortedCommands[i - 1].name, SortedCommands[i].name)
  {
  }

  lemma SameCommands()
    ensures multiset(SortedCommands) == multiset(Commands)
  {
  }

  /** play(i): 0 resumes; otherwise playback moves to devices[i-1], with no check that i is in the list. */
  function PlayOn(i: nat, d: seq<Device>): (r: Reply)
    ensures i == 0 ==> r == Reply([Play], Ok)
    ensures 1 <= i <= |d| ==> r == Reply([Transfer(d[i - 1].id, true)], Ok)
    ensures i > |d| && i != 0 ==> r == Reply([], Fail(IndexOutOfRange))
  {
    if i == 0 then Reply([Play], Ok)
    else if i <= |d| then Reply([Transfer(d[i - 1].id, true)], Ok)
    else Reply([], Fail(IndexOutOfRange))
  }

  /** c.Args().Get(0): the first positional argument, or "" when there is none. */
  function FirstArgument(args: seq<string>): string
  {
    if |args| > 0 then args[0] else ""
  }

  /** The play handler, spotifycnct.go:117-129. */
  function PlayCommand(args: seq<string>, d: seq<Device>): (r: Reply)
    ensures FirstArgument(args) == "" ==> r == Reply([Play], Ok)
    ensures FirstArgument(args) != "" && ParseUint(FirstArgument(args)).None? ==> r == Reply([], Printed([NotANumber]))
    ensures ParseUint(FirstArgument(args)) == Some(0) ==> r == Reply([Play], Ok)
    ensures forall n :: ParseUint(FirstArgument(args)) == Some(n) && 1 <= n <= |d| ==>
      r == Reply([Transfer(d[n - 1].id, true)], Ok)
    ensures forall n :: ParseUint(FirstArgument(args)) == Some(n) && n > |d| && n != 0 ==>
      r == Reply([], Fail(IndexOutOfRange))
  {
    var arg := FirstArgument(args);
    if arg != "" then
      match ParseUint(arg)
      case None => Reply([], Printed([NotANumber]))
      case Some(n) => PlayOn(n, d)
    else PlayOn(0, d)
  }

  /** Device number 0, however it is written, does what play without an argument does: it only resumes. */
  lemma ZeroResumes(s: string, rest: seq<string>, d: seq<Device>)
    requires ParseUint(s) == Some(0)
    ensures PlayCommand([s] + rest, d) == PlayCommand([], d)
  {
    assert FirstArgument([s] + rest) == s;
  }

  /** A device number printed by %d and no larger than the list selects that device. */
  lemma NumberSelectsDevice(n: nat, rest: seq<string>, d: seq<Device>)
    requires 1 <= n <= |d| && n <= MaxUint64
    ensures PlayCommand([NatToDecimal(n)] + rest, d) == Reply([Transfer(d[n - 1].id, true)], Ok)
  {
    assert FirstArgument([NatToDecimal(n)] + rest) == NatToDecimal(n);
    ParseFormatted(n);
  }

  /** What the handler of h does for positional arguments args and device list d. */
  function Run(h: Handler, args: seq<string>, d: seq<Device>): Reply
  {
    match h
    case DevicesCmd => Reply([], Printed(Playback.DeviceListing(d)))
    case PlayCmd => PlayCommand(args, d)
    case PauseCmd => Reply([Pause], Ok)
    case VolumeCmd => Reply([], Ok)
    case QuitCmd => Reply([], Exited)
  }

  /** The volume command, whatever it is given, issues no call and prints nothing. */
  lemma VolumeDoesNothing(token: string, args: seq<string>, d: seq<Device>)
    requires token == "volume" || token == "v"
    ensures Dispatch(token, args, d) == Some(Reply([], Ok))
  {
    var c := Commands[3];
    assert c.action == VolumeCmd && HasName(c, token);
    DispatchByName(c, token, args, d);
  }

  /** pause and its alias pp issue the pause call and nothing else, whatever the arguments. */
  lemma PauseOnly(token: string, args: seq<string>, d: seq<Device>)
    requires token == "pause" || token == "pp"
    ensures Dispatch(token, args, d) == Some(Reply([Pause], Ok))
  {
    var c := Commands[2];
    assert c.action == PauseCmd && HasName(c, token);
    DispatchByName(c, token, args, d);
  }

  /** quit and its alias q exit the program without a call, whatever the arguments. */
  lemma QuitExits(token: string, args: seq<string>, d: seq<Device>)
    requires token == "quit" || token == "q"
    ensures Dispatch(token, args, d) == Some(Reply([], Exited))
  {
    var c := Commands[4];
    assert c.action == QuitCmd && HasName(c, token);
    DispatchByName(c, token, args, d);
  }

  /** The device list prints one line per device, numbered from 1, whatever the arguments. */
  lemma DevicesListAll(args: seq<string>, d: seq<Device>)
    ensures Run(DevicesCmd, args, d).calls == []
    ensures Run(DevicesCmd, args, d).outcome.Printed?
    ensures |Run(DevicesCmd, args, d).outcome.lines| == |d|
    ensures forall k :: 0 <= k < |d| ==> Run(DevicesCmd, args, d).outcome.lines[k] == Playback.DeviceLine(k + 1, d[k])
  {
  }

  /** app.Run on a command token: the handler of the command the token names in the sorted table. */
  function Dispatch(token: string, args: seq<string>, d: seq<Device>): (r: Option<Reply>)
    ensures r.None? <==> forall c :: c in Commands ==> !HasName(c, token)
    ensures r.Some? ==> exists c :: c in Commands && HasName(c, token) && r.value == Run(c.action, args, d)
  {
    SameCommands();
    SameMembers(SortedCommands, Commands);
    match Lookup(SortedCommands, token)
    case None => None
    case Some(c) => Some(Run(c.action, args, d))
  }

  /** Every name and alias of a command runs that command's handler. */
  lemma DispatchByName(c: Command<Handler>, token: string, args: seq<string>, d: seq<Device>)
    requires c in Commands && HasName(c, token)
    ensures Dispatch(token, args, d) == Some(Run(c.action, args, d))
  {
    CommandsUnique();
    SortKeepsLookup(Commands, token);
    LookupFindsOwner(Commands, c, token);
    SortedTable();
  }

  /** A token that names no command selects no handler. */
  lemma DispatchUnknown(token: string, args: seq<string>, d: seq<Device>)
    requires forall c :: c in Commands ==> !HasName(c, token)
    ensures Dispatch(token, args, d) == None
  {
    SameCommands();
    SameMembers(SortedCommands, Commands);
  }

  /** Field 0 is always the program word, and the line's own fields follow. */
  lemma ReplArgv(isSpace: char -> bool, line: string)
    requires isSpace(' ') && forall c :: c in ProgramWord ==> !isSpace(c)
    ensures FieldsOf(isSpace, ProgramWord + " " + line) == [ProgramWord] + FieldsOf(isSpace, line)
  {
    LeadingWord(isSpace, ProgramWord, line);
  }
}
