/**
 * The Spotify Web API client seen from the command handlers: a device list
 * given as input, and a trace of the calls a handler issues. A handler's
 * effect is a Reply: the calls in order, and how the handler ended.
 */
module Gateway {

  /** spotify.PlayerDevice: the fields the handlers read. */
  datatype Device = Device(id: string, name: string, kind: string, active: bool, volume: int)

  /** The client calls that change playback. */
  datatype Call =
    | Play
    | Pause
    | Next
    | Previous
    | Transfer(device: string, play: bool)
    | Volume(percent: int)
    | Repeat(state: string)
    | Shuffle(on: bool)

  /** What a text template renders from a player query. */
  datatype View = CurrentTrack | PlaybackOptions

  datatype Outcome =
    | Ok                                  // the handler returned after its calls
    | Printed(lines: seq<string>)         // the handler printed these lines
    | Shown(view: View)                   // the handler rendered a template of the player state
    | Help(topic: string)                 // cli.ShowCommandHelp(c, topic)
    | Usage(message: string, topic: string)  // a message line, then cli.ShowCommandHelp(c, topic)
    | Cleared                             // the terminal-clear escape was written
    | Exited                              // os.Exit(0)
    | Fail(reason: string)                // a panic or a fatal error ends the program

  datatype Reply = Reply(calls: seq<Call>, outcome: Outcome)

  /** The parts of cli.Context a handler consults: the running command's name and its positional arguments. */
  datatype Context = Context(command: string, args: seq<string>)

  /** The runtime's message for a slice index outside the slice. */
  const IndexOutOfRange: string := "index out of range"

  /** c.Args().Present(). */
  predicate Present(c: Context)
  {
    |c.args| > 0
  }

  /** The guard that opens most handlers: with positional arguments, show the command's help and stop. */
  function Guarded(c: Context, body: Reply): Reply
  {
    if Present(c) then Reply([], Help(c.command)) else body
  }

  /** Runs one step after another; a failure ends the program, so nothing after it happens. */
  function Then(first: Reply, next: Reply): Reply
  {
    if first.outcome.Fail? then first else Reply(first.calls + next.calls, next.outcome)
  }
}
