# Spotify remote control: a Dafny model

The repository holds three revisions of a small Spotify remote-control shell written in Go:
`spotifycnct.go`, `spoticli.go`, and `spotcon.go` together with `playback.go`.
Each revision builds an urfave/cli application from a table of commands with aliases and flags, and sorts
that table by name. It then runs a read-eval loop: each input line gets the program word in front, is split
into an argument vector and is dispatched to the command it names. A command's handler issues calls to the
Spotify Web API. Those calls are its observable effect, together with what it prints.

This project models that core and proves its properties:

- `Fields`: `strings.Fields` and `strings.FieldsFunc` as a single left-to-right pass over a separator mask.
  It proves that no field is empty, that the fields concatenate to the non-separator runes, that fields
  break exactly at the separator runes, and that the program word comes out as the first field.
- `Tokenizer`: the quote-aware separator closure of `spotcon.go` and its `lastQuote` state. It is modelled
  once as functions (`Step`, `Mask`, `After`, `Tokens`, `Session`) and once as the class `Splitter`, which has
  the mutable field `lastQuote`. The class's methods are proved equal to the functions. The lemmas cover
  quoted spans, unterminated quotes, and a quote that stays open from one input line into the next.
- `Registry`: the command table. It covers names and aliases, name uniqueness, Go's string order, sorting as
  an insertion sort that is proved sorted and a permutation, uniqueness of a sorted arrangement, and lookup
  by name or alias.
- `Decimal`: `%d` formatting and `strconv.ParseUint` in base 10, with their round trip.
- `Gateway`: devices, the trace of Web API calls a handler makes, and a handler's outcome
  (printed lines, help shown, usage error, exit, failure).
- `Playback`: the handlers of `playback.go`. `spoticli.go` repeats some of its helpers with the same code
  (`setRepeat`, `getVolume`, `volumePlus` and the device listing loop), and `spotifycnct.go` repeats only the
  device listing loop of `listDevices`. Those helpers are modelled here once, and the two revisions use them.
- `Spotcon`, `Spoticli`, `Spotifycnct`: each revision's command table, handlers, dispatch and input loop.

The Unicode classes the tokenizer uses (`unicode.Quotation_Mark`, `unicode.IsSpace`) are parameters
(`Tokenizer.Classes`, the `isSpace` arguments). The device list is an input. Every Web API call is assumed
to succeed.

`vol --set P` passes P to the Web API unchanged (`spoticli.go:203-205`); only `volumePlus`, behind
`vol --up` and `vol --down`, clamps to 0..100. `Spoticli.VolSetUnclamped` states this. The help topic that `playAction` uses for a
bad device number is the application name `Spotcon` (`playback.go:140`), and that string is no command's
name or alias (`Spotcon.AppNameIsNoCommand`).

`fmt.Println` puts a space between its operands. The messages therefore carry two spaces, as in
`ERROR: Incorrect device ID,  7` and `Volume:  40`.

## Model

| member | source | states |
|---|---|---|
| Fields.FieldsOf | spoticli.go:381 | `strings.Fields` of a line yields no empty field, the fields concatenate to exactly the line's non-space runes, and no field contains a space |
| Fields.SplitAtSeparator | spoticli.go:381 | the splitter breaks at every separator: the fields of `a + [c] + b` with `c` a separator are the fields of `a` followed by those of `b` |
| Fields.FieldsAtSpace | spoticli.go:381 | `strings.Fields` breaks a line at each white-space rune, and the two sides are split independently |
| Fields.FieldsWithoutSpace | spoticli.go:381 | a line without white space is not broken: it is a single field, or no field when empty (with `FieldsAtSpace` this fixes the result completely) |
| Fields.Repl | spoticli.go:371-383 | the loop's i-th argument vector is `strings.Fields` of the program word, a blank and the i-th line; the same loop is spotifycnct.go:162-173 with the word `spotifycnct` |
| Fields.LeadingWord | spotifycnct.go:172 | splitting `word + " " + line` gives `word` followed by the fields of `line`, for a word without spaces |
| Tokenizer.Step | spotcon.go:320-335 | one call of the closure: a rune separates only when no quote is open and it is a space that is not a quote; the matching quote closes, another rune inside a quote keeps it open, and an opening quotation mark is remembered |
| Tokenizer.MaskAppend | spotcon.go:320-335 | running the closure over `a + b` is running it over `a` and then over `b` from the state `a` left |
| Tokenizer.Tokens | spotcon.go:347 | defines `strings.FieldsFunc(s, f)` with `lastQuote` equal to q on entry, as the split of s under the closure's separator bits; `TokensShape`, `TokensAtSeparator` and `TokensWithoutSeparator` state what it yields |
| Tokenizer.Session | spotcon.go:337-350 | defines the argument vectors of the loop, one per line read, each line tokenized from the quote state the earlier ones left; `SessionLine` states this line by line |
| Tokenizer.TokensAtSeparator | spotcon.go:347 | tokens break at every rune the closure calls a separator; what follows is split from the quote state reached there |
| Tokenizer.TokensWithoutSeparator | spotcon.go:347 | text in which the closure finds no separator is one token, or none when empty (with `TokensAtSeparator` this fixes the result completely) |
| Tokenizer.TokensShape | spotcon.go:347 | `FieldsFunc` with the closure yields no empty field, and the fields concatenate to the runes the closure did not treat as separators |
| Tokenizer.OpenQuoteHolds | spotcon.go:322-326 | while a quote is open and its closing rune does not occur, no rune separates and the quote stays open |
| Tokenizer.UnterminatedQuote | spotcon.go:322-326 | text after an unclosed quote is one single field, and the quote is still open afterwards |
| Tokenizer.QuotedSpan | spotcon.go:320-335 | no rune of a quoted span (quote, body without that quote, same quote) separates, even a space, and after the span no quote is open |
| Tokenizer.QuotedToken | spotcon.go:320-347 | a quoted argument followed by a blank is one token with its quotes, spaces inside included, and the rest of the line is tokenized as if alone |
| Tokenizer.LeadingPlainWord | spotcon.go:347 | a word with no spaces and no quotes, followed by a space, comes out as the first field, and the rest is split as if alone |
| Tokenizer.ProgramNameFirst | spotcon.go:347 | every argument vector of the loop starts with the program word `spotcon` when no quote is open |
| Tokenizer.SessionLine | spotcon.go:319-350 | the i-th line of a session is split starting from the quote state that the earlier lines left behind, because `lastQuote` lives outside the loop |
| Tokenizer.QuoteCarriesOver | spotcon.go:319-350 | a quote left open by one line, whose mark does not occur in `spotcon ` plus the next line, makes that whole next line, program word included, a single field |
| Tokenizer.Splitter.constructor | spotcon.go:319 | a fresh splitter has no quote open |
| Tokenizer.Splitter.IsSeparator | spotcon.go:320-335 | the method returns the closure's verdict and updates `lastQuote` as `Step` says |
| Tokenizer.Splitter.FieldsFunc | spotcon.go:347 | the loop returns exactly `Tokens` of the input from the current state, and leaves `lastQuote` at `After` |
| Tokenizer.Splitter.Repl | spotcon.go:337-350 | the loop's argument vectors are `Session` of the lines, and the final state is the quote carried out of the last line |
| Registry.LessTransitive | spoticli.go:369 | Go's string order used by `CommandsByName` is transitive (with `LessIrreflexive`, `LessTotal` and `LessAsymmetric` it is a strict total order) |
| Registry.SortedFromNeighbours | spoticli.go:369 | a table whose neighbours are in order is sorted |
| Registry.Insert | spoticli.go:369 | inserting into a sorted table keeps it sorted and adds exactly that command |
| Registry.SortByName | spoticli.go:369 | sorting the table by name yields a sorted permutation of it |
| Registry.SortedPermutationUnique | spoticli.go:369 | when names are distinct, two sorted arrangements of the same commands are equal, so the sorted order does not depend on the sorting algorithm |
| Registry.SortKeepsSorted | spotcon.go:318 | sorting a table that is already in strict order changes nothing |
| Registry.SortIsArrangement | spotifycnct.go:160 | a permutation of a table in strict name order is the result of sorting that table |
| Registry.Lookup | spoticli.go:381 | a found command is in the table and has the token as its name or alias; nothing is found exactly when no command has that name |
| Registry.LookupFindsOwner | spoticli.go:381 | with distinct names, a token finds the command that owns it |
| Registry.SortKeepsLookup | spoticli.go:369 | with distinct names, sorting the table does not change the result of any lookup |
| Registry.Find | spoticli.go:369-381 | lookup in the sorted table finds only commands of the table that carry the name, and finds nothing exactly when no command carries it |
| Registry.FindMissing | spoticli.go:381 | a token that names no command finds nothing |
| Decimal.NatToDecimal | playback.go:171 | `%d` of a natural number is a non-empty digit string whose value is the number, with no leading zero |
| Decimal.IntToDecimal | playback.go:139 | the printed form of an integer starts with `-` exactly when it is negative, and the digits after the sign denote its absolute value without a leading zero |
| Decimal.ParseUint | spotifycnct.go:119 | `strconv.ParseUint(s, 10, 0)` accepts exactly non-empty digit strings whose value is at most 2^64-1, and yields that value; `ParseFormatted` and `ParseCanonical` relate it to `%d` |
| Decimal.ParseFormatted | spotifycnct.go:119 | `ParseUint` reads back every printed number up to the 64-bit limit |
| Decimal.FormatCanonical | spotifycnct.go:119 | printing the value of a digit string without a leading zero gives back the string |
| Decimal.ParseCanonical | spotifycnct.go:119 | a string that `ParseUint` accepts and that has no leading zero is the printed form of its value |
| Playback.SetRepeat | playback.go:11-24 | `off` and `track` set that repeat state, `playlist` sets `context`, and any other word makes no call |
| Playback.RepeatVocabulary | playback.go:11-24 | at most one call is made, it is a repeat call whose state maps back to the given word, and only the states `off`, `track` and `context` are ever sent |
| Playback.ScanVolume | playback.go:97-106 | the scan yields -1 when no device is active and otherwise the volume of the last active device |
| Playback.ActiveVolume | playback.go:97-111 | the volume of the last active device, or the "no active devices" failure (the panic) when none is active or the last active one reports -1; a success is never -1 |
| Playback.GetVolume | playback.go:97-111 | the loop computes exactly `ActiveVolume` |
| Playback.VolumeAdjust | playback.go:113-123 | with no active device, nothing is called and it fails; otherwise one volume call is made, at the current volume plus the step, clamped to 0..100 |
| Playback.VolumePlus | playback.go:113-123 | the method computes exactly `VolumeAdjust` |
| Playback.PlayAction | playback.go:125-148 | device 0 resumes playback; a number above the device count prints the usage error and help for the application name; 1..n transfers playback to that device; a negative number is the index panic |
| Playback.DeviceLineReadBack | playback.go:170-177 | a device line gives back its number, and ends in ` ACTIVE` exactly when the device is active |
| Playback.DeviceListing | playback.go:170-177 | one line per device, in order, numbered from 1 |
| Playback.DeviceLine | playback.go:171-176 | defines the listing line `[k]=name (type)`, followed by ` ACTIVE` for the active device; `DeviceLineReadBack` states that the number and the mark read back |
| Playback.ListDevices | playback.go:170-177 | the loop produces exactly `DeviceListing` |
| Playback.OptionsAction | playback.go:32-46 | with positional arguments it shows the command's help, otherwise the playback options; it makes no call |
| Playback.CurrentAction | playback.go:48-60 | with positional arguments it shows the command's help, otherwise the current track; it makes no call |
| Playback.NextAction | playback.go:69-78 | with positional arguments it shows help and makes no call, otherwise it makes exactly the call to skip ahead |
| Playback.PrevAction | playback.go:80-89 | with positional arguments it shows help and makes no call, otherwise it makes exactly the call to skip back |
| Playback.PauseAction | playback.go:150-159 | with positional arguments it shows help and makes no call, otherwise it makes exactly the pause call |
| Playback.DevicesAction | playback.go:161-178 | with positional arguments it shows help, otherwise it prints one numbered line per device; it makes no call |
| Spotcon.CommandsUnique | spotcon.go:110-315 | no name or alias of the command table is used twice, and within each command its names and its subcommands are distinct |
| Spotcon.TableInOrder | spotcon.go:110-315 | the table is written in strict name order |
| Spotcon.SortedTable | spotcon.go:317-318 | sorting the table leaves it as written |
| Spotcon.AppNameIsNoCommand | playback.go:140 | the help topic `Spotcon` that `playAction` uses names no command |
| Spotcon.QuitAction | spotcon.go:356-363 | with positional arguments it shows help, otherwise it exits; it makes no call |
| Spotcon.ClearAction | spotcon.go:365-373 | with positional arguments it shows help, otherwise it clears the screen; it makes no call |
| Spotcon.ArgumentsShowHelp | spotcon.go:120-232 | every modelled handler except play answers positional arguments with the running command's help; play has no such guard |
| Spotcon.Run | spotcon.go:119-314 | defines which handler goes with which command (clear, current, devices, pause, play, quit; none for the handlers outside this model); `ArgumentsShowHelp` states their shared guard |
| Spoticli.CommandsUnique | spoticli.go:104-366 | no name or alias of the command table is used twice, and within each command its names and its subcommands are distinct |
| Spoticli.PlayOn | spoticli.go:493-505 | 0 resumes playback, 1..n transfers playback to that device, and any other number is the index panic |
| Spoticli.PlayCommand | spoticli.go:130-147 | arguments give help; no `--device` resumes playback; a device outside 0..25 gives the usage error; a listed device is transferred to and played; device 0 resumes twice; a device beyond the list is the index panic |
| Spoticli.VolCommand | spoticli.go:183-215 | arguments give help; it never fails and makes at most one call, a volume call; exactly one flag selects up, down (step 10) or set, in that priority; no flag prints the current volume or "no active devices"; several flags do nothing |
| Spoticli.Recovered | spoticli.go:189-193 | the deferred `recover`: a panic becomes the printed panic value, the calls made are kept, and the handler never fails |
| Spoticli.VolBody | spoticli.go:194-214 | defines the vol handler after its guard and before recovery; `VolCommand` states its meaning |
| Spoticli.VolRelativeBounded | spoticli.go:193-201 | `vol up` and `vol down` only ever send a volume within 0..100, and with no active device they only print the recovered message |
| Spoticli.VolSetUnclamped | spoticli.go:203-205 | `vol set P` sends P unchanged, whatever P is |
| Spoticli.ShuffleCommand | spoticli.go:287-300 | arguments give help; otherwise `--on` and `--off` each make one shuffle call, `on` first |
| Spoticli.ShuffleOutcome | spoticli.go:287-300 | after the command, shuffle is off when `--off` was given, on when only `--on` was given, and unchanged otherwise |
| Spoticli.RepeatCommand | spoticli.go:320-336 | arguments give help; otherwise the calls are exactly `Repeat("off")` for `--off`, `Repeat("track")` for `--track` and `Repeat("context")` for `--playlist`, in that order, one per flag given |
| Spoticli.RepeatAfterAppend | spoticli.go:320-336 | the repeat state after two call traces is the state after the first, then the second |
| Spoticli.RepeatOutcome | spoticli.go:320-336 | after the command the repeat state is that of the last flag given (`playlist` wins over `track`, which wins over `off`), or unchanged when none was given |
| Spoticli.DispatchByName | spoticli.go:369-381 | a token that is a command's name or alias runs exactly that command's handler |
| Spoticli.DispatchUnknown | spoticli.go:381 | a token that names no command runs no handler |
| Spoticli.ArgumentsShowHelp | spoticli.go:109-363 | every command of the table answers positional arguments with its own help and makes no call |
| Spoticli.Run | spoticli.go:104-366 | defines which handler goes with which of the twelve commands; `ArgumentsShowHelp` states their shared guard, and the handlers' own rows state the rest |
| Spoticli.Dispatch | spoticli.go:369-381 | defines how `app.Run` picks the command: lookup of the token in the name-sorted table, then that command's handler; `DispatchByName` and `DispatchUnknown` state its meaning |
| Spoticli.ReplArgv | spoticli.go:381 | each argument vector is `spoticli` followed by the fields of the line, and no field holds a space |
| Spotifycnct.CommandsUnique | spotifycnct.go:102-157 | no name or alias of the command table is used twice |
| Spotifycnct.SortedInOrder | spotifycnct.go:159-160 | the arrangement devices, pause, play, quit, volume is in strict name order |
| Spotifycnct.SameCommands | spotifycnct.go:102-160 | that arrangement holds the same commands as the written table |
| Spotifycnct.SortedTable | spotifycnct.go:159-160 | sorting the table yields exactly that arrangement, so `pause` comes before `play` |
| Spotifycnct.PlayOn | spotifycnct.go:178-196 | 0 resumes playback, 1..n transfers playback to that device, and a number beyond the list is the index panic |
| Spotifycnct.PlayCommand | spotifycnct.go:117-129 | no argument resumes playback; a first argument that is not a number prints the "numbers only" message; otherwise the number selects a device as in `PlayOn` |
| Spotifycnct.ZeroResumes | spotifycnct.go:117-129 | `play 0` does the same as `play` alone |
| Spotifycnct.NumberSelectsDevice | spotifycnct.go:117-129 | `play N` for a listed device N transfers playback to that device |
| Spotifycnct.VolumeDoesNothing | spotifycnct.go:141-146 | `volume` and `v` run a handler that makes no call and prints nothing |
| Spotifycnct.PauseOnly | spotifycnct.go:132-139 | `pause` and `pp` make exactly the pause call, whatever the arguments |
| Spotifycnct.QuitExits | spotifycnct.go:148-155 | `quit` and `q` exit without a call, whatever the arguments |
| Spotifycnct.Run | spotifycnct.go:102-157 | defines which handler goes with which of the five commands: the listing, play, the pause call, nothing for volume, and exit |
| Spotifycnct.DevicesListAll | spotifycnct.go:206-220 | `devices` prints one numbered line per device and makes no call, whatever its arguments |
| Spotifycnct.DispatchByName | spotifycnct.go:159-172 | a token that is a command's name or alias runs exactly that command's handler |
| Spotifycnct.Dispatch | spotifycnct.go:159-172 | a token finds nothing exactly when no command has it as name or alias, and otherwise runs the handler of a command that has it |
| Spotifycnct.DispatchUnknown | spotifycnct.go:172 | a token that names no command runs no handler |
| Spotifycnct.ReplArgv | spotifycnct.go:172 | each argument vector is `spotifycnct` followed by the fields of the line |

## Left out

- The urfave/cli library is not part of this model. That covers parsing flags into values, `NumFlags`,
  the built-in `help` command, the message for an unknown command, and what `ShowCommandHelp` does with a
  topic that names no command. Flags are an input (`Spoticli.Flags`); a handler's help is the outcome `Help(topic)`.
- Registry.SortByName: `sort.Sort`'s own algorithm is not modelled. An insertion sort stands in for it, and
  `Registry.SortedPermutationUnique` shows that any sorted permutation is the same table when names are distinct.
- `FlagsByName` sorting (spoticli.go:368 and the like) is left out, because flag order affects only help output.
- Tokenizer.Tokens and Tokenizer.Splitter.FieldsFunc: `strings.FieldsFunc` is modelled as one left-to-right
  pass that calls the predicate once per rune, in order, which the stateful closure of `spotcon.go` relies on.
  Go does not document the order or count of calls; releases before Go 1.10 counted the fields in a first
  pass and so called the predicate twice per rune. For `strings.Fields` the order does not matter.
- Strings are sequences of Unicode scalar values. Go strings are UTF-8 bytes, and `Fields`/`FieldsFunc`
  decode them into runes: an invalid byte reaches the predicate as U+FFFD while the field keeps the raw byte.
  Invalid UTF-8 is not modelled.
- The Unicode tables are parameters: `unicode.Quotation_Mark` and `unicode.IsSpace` are not spelled out.
- Reading lines with readline, history, `os.Exit`, screen clearing, terminal output and the final
  `app.Run(os.Args)` after the loop are left out. The outcomes `Exited`, `Cleared` and `Printed` take their place.
- Authentication, token storage and the HTTP callback (`auth.go`, `startAuth`, `completeAuth`, `saveToken`,
  `loadToken`) are left out, because they are I/O.
- Errors from the Web API and `checkErr`'s `log.Fatal` are left out. The model assumes every call succeeds,
  and the device list and the current volume are inputs.
- The current-track and options displays are the outcomes `Shown(CurrentTrack)` and `Shown(PlaybackOptions)`.
  Their text is not modelled.
- In `spotcon.go`, the handlers `skipAction`, `optAction`, `searchAction`, `seekAction`, `volAdjustAction` and
  `volSetAction` are not part of this model, because their code is not among the modelled files;
  `Spotcon.Run` returns `None` for them. So is parsing `--device` with `c.Int`; the value is an input.
- The sorted order of the `spoticli.go` table is not written out as a literal. It is described only by
  `Registry.SortByName` (sorted, and a permutation) and by `Spoticli.DispatchByName`, since sorting does not
  change any lookup.
- The 64-bit bound of `strconv.ParseUint` is modelled. Go's `int` overflow elsewhere (volume arithmetic,
  device numbers) is not, because integers here are unbounded.
