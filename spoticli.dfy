/**
 * spoticli.go: the SpotiCLI-Remote revision. Its command table, the decision
 * logic of the play, vol, shuffle and repeat handlers, play(i), and the REPL
 * that splits each line with strings.Fields after "spoticli ". The helpers it
 * shares with playback.go (setRepeat, getVolume, volumePlus, the device list)
 * are the members of Playback.
 */
module Spoticli {
  import opened Wrappers
  import opened Decimal
  import opened Gateway
  import opened Registry
  import opened Fields
  import Playback

  /** The word the REPL puts in front of every line, as the program name of app.Run. */
  const ProgramWord: string := "spoticli"

  /** The largest device number the play handler accepts. */
  const MaxDeviceNumber: int := 25

  datatype Handler =
    | DevicesCmd | PlayCmd | PauseCmd | VolCmd | CurrentCmd | NextCmd
    | PrevCmd | ClearCmd | ShuffleCmd | RepeatCmd | OptionsCmd | QuitCmd

  /** app.Commands as written, in source order. */
  const Commands: seq<Command<Handler>> := [
    Command("devices", ["d"], [], DevicesCmd),
    Command("play", ["p"], [], PlayCmd),
    Command("pause", ["pp"], [], PauseCmd),
    Command("vol", ["v"], [], VolCmd),
    Command("current", ["c"], [], CurrentCmd),
    Command("next", ["n"], [], NextCmd),
    Command("prev", ["pr"], [], PrevCmd),
    Command("clear", ["clc"], [], ClearCmd),
    Command("shuffle", ["s"], [], ShuffleCmd),
    Command("repeat", ["r"], [], RepeatCmd),
    Command("options", ["o"], [], OptionsCmd),
    Command("quit", ["q"], [], QuitCmd)
  ]

  /** No name or alias selects two commands. */
  lemma CommandsUnique()
    ensures UniqueNames(Commands)
  {
    OwnNamesDistinct();
    EarlyCommandsDisjoint();
    MiddleCommandsDisjoint();
    LateCommandsDisjoint();
  }

  lemma OwnNamesDistinct()
    ensures forall i :: 0 <= i < |Commands| ==> NoDuplicates(Names(Commands[i]))
    ensures forall i :: 0 <= i < |Commands| ==> NoDuplicates(SubcommandNames(Commands[i]))
  {
  }

  lemma EarlyCommandsDisjoint()
    ensures forall i, j :: 0 <= i < 4 && i < j < |Commands| ==> Disjoint(Names(Commands[i]), Names(Commands[j]))
  {
  }

  lemma MiddleCommandsDisjoint()
    ensures forall i, j :: 4 <= i < 8 && i < j < |Commands| ==> Disjoint(Names(Commands[i]), Names(Commands[j]))
  {
  }

  lemma LateCommandsDisjoint()
    ensures forall i, j :: 8 <= i < j < |Commands| ==> Disjoint(Names(Commands[i]), Names(Commands[j]))
  {
  }

  /** play(i): 0 resumes; otherwise playback moves to devices[i-1], and a number outside the list panics. */
  function PlayOn(i: int, d: seq<Device>): (r: Reply)
    ensures i == 0 ==> r == Reply([Play], Ok)
    ensures 1 <= i <= |d| ==> r == Reply([Transfer(d[i - 1].id, true)], Ok)
    ensures i != 0 && (i < 1 || i > |d|) ==> r == Reply([], Fail(IndexOutOfRange))
  {
    if i == 0 then Reply([Play], Ok)
    else if 1 <= i <= |d| then Reply([Transfer(d[i - 1].id, true)], Ok)
    else Reply([], Fail(IndexOutOfRange))
  }

  /**
   * The flags of one invocation as urfave/cli hands them to a handler:
   * the canonical names of the flags given (c.IsSet), c.NumFlags(), and
   * the values of the --device and --set destinations (0 and -1 when absent).
   */
  datatype Flags = Flags(given: set<string>, count: nat, device: int, percent: int)

  /** The play handler, spoticli.go:130-147. */
  function PlayCommand(args: seq<string>, f: Flags, d: seq<Device>): (r: Reply)
    ensures |args| > 0 ==> r == Reply([], Help("play"))
    ensures |args| == 0 && "device" !in f.given ==> r == Reply([Play], Ok)
    ensures |args| == 0 && "device" in f.given && !(0 <= f.device <= MaxDeviceNumber) ==>
      r == Reply([], Usage("Incorrect Usage: argument is not a valid device ID:  " + IntToDecimal(f.device), "play"))
    ensures |args| == 0 && "device" in f.given && 1 <= f.device <= MaxDeviceNumber && f.device <= |d| ==>
      r == Reply([Transfer(d[f.device - 1].id, true), Play], Ok)
    ensures |args| == 0 && "device" in f.given && f.device == 0 ==> r == Reply([Play, Play], Ok)
    ensures |args| == 0 && "device" in f.given && |d| < f.device <= MaxDeviceNumber ==> r == Reply([], Fail(IndexOutOfRange))
  {
    if |args| > 0 then Reply([], Help("play"))
    else if "device" in f.given then
      if f.device > MaxDeviceNumber || f.device < 0 then
        Reply([], Usage("Incorrect Usage: argument is not a valid device ID:  " + IntToDecimal(f.device), "play"))
      else Then(PlayOn(f.device, d), PlayOn(0, d))
    else PlayOn(0, d)
  }

  /** The deferred recover of the vol handler: a panic is printed and the handler returns. */
  function Recovered(r: Reply): (rr: Reply)
    ensures rr.calls == r.calls && !rr.outcome.Fail?
    ensures r.outcome.Fail? ==> rr.outcome == Printed([r.outcome.reason])
    ensures !r.outcome.Fail? ==> rr == r
  {
    if r.outcome.Fail? then Reply(r.calls, Printed([r.outcome.reason])) else r
  }

  /** The body of the vol handler after its guard, before recovery. */
  function VolBody(f: Flags, d: seq<Device>): Reply
  {
    if f.count == 2 && "up" in f.given then Playback.VolumeAdjust(d, 10)
    else if f.count == 2 && "down" in f.given then Playback.VolumeAdjust(d, -10)
    else if f.count == 2 && "set" in f.given then Reply([Volume(f.percent)], Ok)
    else if f.count == 0 then
      match Playback.ActiveVolume(d)
      case Failure(e) => Reply([], Fail(e))
      case Success(v) => Reply([], Printed(["Volume:  " + IntToDecimal(v)]))
    else Reply([], Ok)
  }

  /**
   * The vol handler, spoticli.go:183-215. NumFlags() == 2 stands for "one of
   * --up, --down, --set given" (the library counts a flag once per name), and
   * they are tried in that order.
   */
  function VolCommand(args: seq<string>, f: Flags, d: seq<Device>): (r: Reply)
    ensures |args| > 0 ==> r == Reply([], Help("vol"))
    ensures !r.outcome.Fail?
    ensures |r.calls| <= 1 && forall call :: call in r.calls ==> call.Volume?
    ensures |args| == 0 && f.count == 2 && "up" in f.given ==> r == Recovered(Playback.VolumeAdjust(d, 10))
    ensures |args| == 0 && f.count == 2 && "up" !in f.given && "down" in f.given ==> r == Recovered(Playback.VolumeAdjust(d, -10))
    ensures |args| == 0 && f.count == 2 && "up" !in f.given && "down" !in f.given && "set" in f.given ==>
      r == Reply([Volume(f.percent)], Ok)
    ensures |args| == 0 && f.count == 0 ==> r.calls == [] && r.outcome.Printed? && |r.outcome.lines| == 1
    ensures |args| == 0 && f.count == 0 && Playback.ActiveVolume(d).Success? ==>
      r.outcome == Printed(["Volume:  " + IntToDecimal(Playback.ActiveVolume(d).value)])
    ensures |args| == 0 && f.count == 0 && Playback.ActiveVolume(d).Failure? ==>
      r.outcome == Printed([Playback.NoActiveDevices])
    ensures |args| == 0 && f.count != 0 && f.count != 2 ==> r == Reply([], Ok)
  {
    if |args| > 0 then Reply([], Help("vol")) else Recovered(VolBody(f, d))
  }

  /** A relative change sends a volume within [0, 100], and nothing when no device is active. */
  lemma VolRelativeBounded(f: Flags, d: seq<Device>)
    requires f.count == 2 && ("up" in f.given || "down" in f.given)
    ensures forall call :: call in VolCommand([], f, d).calls ==> 0 <= call.percent <= 100
    ensures Playback.ActiveVolume(d).Failure? ==> VolCommand([], f, d) == Reply([], Printed([Playback.NoActiveDevices]))
  {
  }

  /** --set sends its value as given: a percentage outside [0, 100] is not clamped. */
  lemma VolSetUnclamped(p: int, d: seq<Device>)
    ensures VolCommand([], Flags({"set"}, 2, -1, p), d) == Reply([Volume(p)], Ok)
  {
  }

  /** The shuffle handler, spoticli.go:287-299: --on, then --off, each issuing its call. */
  function ShuffleCommand(args: seq<string>, f: Flags): (r: Reply)
    ensures |args| > 0 ==> r == Reply([], Help("shuffle"))
    ensures |args| == 0 ==> r.outcome == Ok && |r.calls| == (if "on" in f.given then 1 else 0) + (if "off" in f.given then 1 else 0)
    ensures |args| == 0 && "on" in f.given ==> r.calls[0] == Shuffle(true)
    ensures |args| == 0 && "off" in f.given ==> r.calls[|r.calls| - 1] == Shuffle(false)
  {
    if |args| > 0 then Reply([], Help("shuffle"))
    else Reply((if "on" in f.given then [Shuffle(true)] else []) + (if "off" in f.given then [Shuffle(false)] else []), Ok)
  }

  /** The player's shuffle state after a trace of calls. */
  function ShuffleAfter(on: bool, calls: seq<Call>): bool
    decreases |calls|
  {
    if calls == [] then on else ShuffleAfter(if calls[0].Shuffle? then calls[0].on else on, calls[1..])
  }

  /** Given both --on and --off, shuffle ends up off: the later flag wins. */
  lemma ShuffleOutcome(f: Flags, on: bool)
    ensures ShuffleAfter(on, ShuffleCommand([], f).calls) ==
      if "off" in f.given then false else if "on" in f.given then true else on
  {
    var calls := ShuffleCommand([], f).calls;
    if "on" in f.given && "off" in f.given {
      assert calls == [Shuffle(true), Shuffle(false)];
      assert calls[1..] == [Shuffle(false)] && calls[1..][1..] == [];
      assert ShuffleAfter(on, calls) == ShuffleAfter(true, [Shuffle(false)]);
      assert ShuffleAfter(true, [Shuffle(false)]) == ShuffleAfter(false, []);
    } else if "on" in f.given || "off" in f.given {
      assert |calls| == 1 && calls[1..] == [];
    }
  }

  /** The repeat handler, spoticli.go:320-335: --off, --track, --playlist, each through setRepeat. */
  function RepeatCommand(args: seq<string>, f: Flags): (r: Reply)
    ensures |args| > 0 ==> r == Reply([], Help("repeat"))
    ensures |args| == 0 ==> r.outcome == Ok
    // one call per flag given, in the order off, track, playlist, with playlist sent as "context"
    ensures |args| == 0 ==>
      r.calls == (if "off" in f.given then [Repeat("off")] else [])
                 + (if "track" in f.given then [Repeat("track")] else [])
                 + (if "playlist" in f.given then [Repeat("context")] else [])
  {
    if |args| > 0 then Reply([], Help("repeat"))
    else
      Reply((if "off" in f.given then Playback.SetRepeat("off") else [])
            + (if "track" in f.given then Playback.SetRepeat("track") else [])
            + (if "playlist" in f.given then Playback.SetRepeat("playlist") else []), Ok)
  }

  /** The player's repeat state after a trace of calls. */
  function RepeatAfter(state: string, calls: seq<Call>): string
    decreases |calls|
  {
    if calls == [] then state else RepeatAfter(if calls[0].Repeat? then calls[0].state else state, calls[1..])
  }

  lemma RepeatAfterAppend(state: string, a: seq<Call>, b: seq<Call>)
    ensures RepeatAfter(state, a + b) == RepeatAfter(RepeatAfter(state, a), b)
    decreases |a|
  {
    if a == [] {
      assert a + b == b;
    } else {
      assert (a + b)[0] == a[0] && (a + b)[1..] == a[1..] + b;
      RepeatAfterAppend(if a[0].Repeat? then a[0].state else state, a[1..], b);
    }
  }

  /** The last repeat flag in the order off, track, playlist decides the state. */
  lemma RepeatOutcome(f: Flags, state: string)
    ensures RepeatAfter(state, RepeatCommand([], f).calls) ==
      if "playlist" in f.given then "context" else if "track" in f.given then "track" else if "off" in f.given then "off" else state
  {
    var a := if "off" in f.given then [Repeat("off")] else [];
    var b := if "track" in f.given then [Repeat("track")] else [];
    var c := if "playlist" in f.given then [Repeat("context")] else [];
    assert RepeatCommand([], f).calls == a + b + c;
    RepeatAfterAppend(state, a + b, c);
    RepeatAfterAppend(state, a, b);
  }

  /** What the handler of h does for positional arguments args, flags f and device list d. */
  function Run(h: Handler, args: seq<string>, f: Flags, d: seq<Device>): Reply
  {
    match h
    case DevicesCmd => Playback.DevicesAction(Context("devices", args), d)
    case PlayCmd => PlayCommand(args, f, d)
    case PauseCmd => Playback.PauseAction(Context("pause", args))
    case VolCmd => VolCommand(args, f, d)
    case CurrentCmd => Playback.CurrentAction(Context("current", args))
    case NextCmd => Playback.NextAction(Context("next", args))
    case PrevCmd => Playback.PrevAction(Context("prev", args))
    case ClearCmd => Guarded(Context("clear", args), Reply([], Cleared))
    case ShuffleCmd => ShuffleCommand(args, f)
    case RepeatCmd => RepeatCommand(args, f)
    case OptionsCmd => Playback.OptionsAction(Context("options", args))
    case QuitCmd => Guarded(Context("quit", args), Reply([], Exited))
  }

  /** app.Run on a command token: the handler of the command the token names in the sorted table. */
  function Dispatch(token: string, args: seq<string>, f: Flags, d: seq<Device>): Option<Reply>
  {
    match Find(Commands, token)
    case None => None
    case Some(c) => Some(Run(c.action, args, f, d))
  }

  /** Every name and alias of a command runs that command's handler. */
  lemma DispatchByName(c: Command<Handler>, token: string, args: seq<string>, f: Flags, d: seq<Device>)
    requires c in Commands && HasName(c, token)
    ensures Dispatch(token, args, f, d) == Some(Run(c.action, args, f, d))
  {
    CommandsUnique();
    SortKeepsLookup(Commands, token);
    LookupFindsOwner(Commands, c, token);
    assert Find(Commands, token) == Lookup(SortByName(Commands), token);
  }

  /** A token that names no command selects no handler. */
  lemma DispatchUnknown(token: string, args: seq<string>, f: Flags, d: seq<Device>)
    requires forall c :: c in Commands ==> !HasName(c, token)
    ensures Dispatch(token, args, f, d) == None
  {
    FindMissing(Commands, token);
  }

  /** With positional arguments, every command shows its own help and calls nothing. */
  lemma ArgumentsShowHelp(c: Command<Handler>, args: seq<string>, f: Flags, d: seq<Device>)
    requires c in Commands && |args| > 0
    ensures Run(c.action, args, f, d) == Reply([], Help(c.name))
  {
  }

  /** Field 0 is always the program word, the line's own fields follow, and no field holds white space. */
  lemma ReplArgv(isSpace: char -> bool, line: string)
    requires isSpace(' ') && forall c :: c in ProgramWord ==> !isSpace(c)
    ensures FieldsOf(isSpace, ProgramWord + " " + line) == [ProgramWord] + FieldsOf(isSpace, line)
    ensures forall t, c :: t in FieldsOf(isSpace, ProgramWord + " " + line) && c in t ==> !isSpace(c)
  {
    LeadingWord(isSpace, ProgramWord, line);
  }
}
