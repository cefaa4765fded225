# again: forwarder bookkeeping in Dafny

`again` is a development supervisor. It restarts a child command whenever
watched files change. To keep the child's listening ports stable across
restarts, it puts a long-lived TCP forwarder in front of each public port.
Each forwarder relays to a destination port that changes on every restart.
The child learns its current destination from an environment variable
`NAME=localhost:PORT`.

This project models the sequential bookkeeping around those forwarders in
`main.go`:

- **The shared port allocator** (`nextPort` and the seeding of `portCycle`) is
  the class `Ports.PortAllocator`.
  - It holds one 16-bit cursor, seeded to `uint16(portMin) - 1`.
  - Each draw increments the cursor with 16-bit wrap-around and resets it to
    `portMin` when it equals `uint16(portMax)`.
  - The pure functions `Seed`, `Step` and `CursorAfter` give the cursor after
    any number of draws. The lemmas prove the draws' closed form, range,
    period and distinctness for any range with
    `0 <= portMin < portMax <= 65536`.
  - The mutex is read as "a draw is one atomic step". The one allocator
    object is shared by every forwarder; it replaces the global and its lock.
- **A forwarder** is the class `Forwarding.PortForwarder`. Its fields are
  `env`, `src` and `dest`, and it holds the shared allocator. `Cycle` draws
  once, stores the port in `dest` and returns it, as one atomic step.
- **Parsing `-addr-env` into the forwarder table** is in module `AddrEnv`.
  - The flag is split on `,` (`Strings.Split`). Each item is cut at its first
    `:` (`Strings.SplitN2`), and the rest goes through `strconv.Atoi`
    (`Strconv.Atoi`) and is truncated to `uint16`.
  - Entries go into a map keyed by port; a later item with the same port
    replaces an earlier one.
  - The two fatal syntax errors ("missing port", "port invalid") are an
    error result.
  - `BuildPortMap` is the loop that creates the forwarders.
- **The environment of each spawned child** is `Spawn.BuildChildEnv`. It is
  the inherited environment followed by one `NAME=localhost:PORT` entry per
  forwarder, where PORT is what that forwarder's `Cycle` just returned.
  - Go leaves the map's iteration order unspecified, so the forwarders come
    as a sequence. `Spawn.Enumerates` says that the sequence visits every
    forwarder of the map exactly once.
  - The ports of one spawn are consecutive draws of the allocator
    (`CursorAfter(d + 1)`, `CursorAfter(d + 2)`, ...).
    `Ports.ConsecutiveDraws` proves that these ports lie in the range, and
    that they are pairwise distinct when there are no more forwarders than
    ports in the range.
- **The two path rules of the watcher loop** are in module `Watch`. Which
  paths get watched and which events request a restart are rules over the
  two regular-expression match results and the path's file information.
  That information is missing when `os.Stat` or the walk fails. The watch
  rule then asks a nil `os.FileInfo` whether it is a directory, and that
  panics unless the path matches `-regex`. The model gives this crash as a
  `None` result.

Two consequences of how `main.go` treats the port range:

- `main.go` never checks that `0 <= port-min < port-max <= 65536`. Every
  allocator property here therefore assumes `ValidRange(portMin, portMax)`.
  `Ports.OversizedRangeLeavesRange` shows what an unchecked range does.
- The help text of `-port-max` (main.go:127) calls it the "Last port to
  allocate". The code never hands it out: the range is half-open,
  `[port-min, port-max)`. `Ports.DrawInRange` states this.

Integers follow a 64-bit Go platform:

- `int` is 64 bits, so `Atoi` accepts values in
  `[-2^63, 2^63 - 1]`.
- `uint16(x)` keeps the low 16 bits (`Ports.U16`, which is `x mod 65536`).
- `dest` (a `uint32`) only ever holds a 16-bit port, so it is a `nat`.

## Model

| member | source | states |
|---|---|---|
| Ports.U16 | main.go:135 | `uint16(x)` is congruent to `x` modulo 2^16 and leaves 16-bit values unchanged |
| Ports.Inc | main.go:45 | `portCycle++` on a uint16 equals truncating `cursor + 1`, so 65535 wraps to 0 |
| Ports.Dec | main.go:135 | the `- 1` of the seed equals truncating `x - 1`, so 0 wraps to 65535 |
| Ports.Seed | main.go:135 | the seed `uint16(portMin) - 1` is the 16-bit value whose increment is `uint16(portMin)`, so the first draw reaches port-min |
| Ports.Step | main.go:45-48 | one draw gives either the incremented cursor or port-min; it gives `uint16(portMax)` only when that equals `uint16(portMin)` |
| Ports.CursorAfter | main.go:41-51 | the cursor after k draws, which for k >= 1 is the k-th port handed out; the lemmas below state its closed form, range, period and distinctness |
| Ports.FirstDraw | main.go:135 | the first draw returns port-min, also when port-min is 0 and the seed has wrapped to 65535 |
| Ports.StepInRange | main.go:45-48 | inside a valid range one draw is "next port, or port-min after port-max - 1" |
| Ports.ClosedForm | main.go:41-51 | the k-th draw (k >= 1) is `portMin + (k - 1) mod (portMax - portMin)` |
| Ports.DrawInRange | main.go:45-50 | every draw lies in `[portMin, portMax)`; port-max itself is never returned |
| Ports.Period | main.go:45-48 | the draws repeat with period `portMax - portMin` |
| Ports.DistinctWithinPeriod | main.go:41-51 | two draws fewer than `portMax - portMin` apart are different ports |
| Ports.FirstCycle | main.go:41-51 | the first `portMax - portMin` draws are port-min, port-min + 1, ..., port-max - 1, and the next is port-min again |
| Ports.ConsecutiveDraws | main.go:191-193 | a run of consecutive draws stays in range and is pairwise distinct when it is no longer than the range |
| Ports.ExampleCycle | main.go:41-51 | with port-min 50000 and port-max 50003 the draws are 50000, 50001, 50002, 50000, 50001 |
| Ports.OversizedRangeLeavesRange | main.go:126-135 | with an unchecked port-max of 70000 and port-min 65535, the second draw is port 0 |
| Ports.PortAllocator.constructor | main.go:135 | the cursor is seeded to `uint16(portMin) - 1` before any draw |
| Ports.PortAllocator.Next | main.go:41-51 | one draw advances the cursor once and returns its new value; in a valid range that is `portMin + (draws so far mod range size)` |
| Forwarding.PortForwarder.constructor | main.go:59-68 | a new forwarder has its name, its source port, the shared allocator and a zero destination |
| Forwarding.PortForwarder.Cycle | main.go:70-74 | advances the shared allocator exactly once; stores in this forwarder's `dest` exactly the port it returns, in range when the range is valid; changes nothing else but the allocator |
| Strings.SplitN2 | main.go:138 | `SplitN(s, ":", 2)` gives one piece iff there is no `:`, and otherwise the text before the first `:` and the text after it |
| Strings.Split | main.go:137 | `Split(s, ",")` gives at least one piece, even for the empty string, and no piece holds a `,` |
| Strings.JoinSplit | main.go:137 | splitting loses nothing: joining the pieces with the separator gives the flag back |
| Strings.SplitJoin | main.go:137 | pieces without the separator are recovered exactly by splitting their join |
| Strings.SplitN2Unique | main.go:138 | the first `:` decides the cut: a name without `:`, then `:`, then any text, is cut into that name and that text |
| Strconv.Atoi | main.go:143 | an accepted text is an optional sign and at least one digit, with a value in 64-bit int range; negative values come only from a leading `-` |
| Strconv.FormatDecimal | main.go:193 | `%d` of a port is a non-empty string of digits without a leading zero; 0 is rendered as exactly "0" |
| Strconv.AtoiFormatDecimal | main.go:143 | Atoi inverts the decimal rendering for every value up to 2^63 - 1 and fails above it |
| Strconv.AtoiSigned | main.go:143 | a leading `-` negates and a leading `+` keeps the value; the accepted range is [-2^63, 2^63 - 1] |
| Strconv.AtoiLeadingZero | main.go:143 | leading zeros after the optional sign are accepted and ignored (`08080` is 8080); with the round-trip lemmas this fixes Atoi's value on every text |
| Strconv.AtoiRejectsColon | main.go:143-146 | any text holding a `:` is not a number |
| Strconv.AtoiExamples | main.go:143 | Atoi accepts "-1" and "65536", which lie outside uint16 |
| AddrEnv.ParseItem | main.go:138-148 | "missing port" iff the item has no `:`; an accepted item's name is the text before the first `:` and its port is the truncated Atoi value of the rest |
| AddrEnv.ParseItemSplit | main.go:138-146 | for every item with a `:`, the result is decided by Atoi on the text after the first `:` alone: an Atoi failure is "port invalid" |
| AddrEnv.SecondColonInvalid | main.go:143-146 | an item with a second `:` is "port invalid" |
| AddrEnv.ParseFormattedItem | main.go:138-148 | `NAME:PORT` with a decimal 16-bit port parses back to that name and port |
| AddrEnv.NegativePortWraps | main.go:148 | the item `NAME:-1` yields port 65535 |
| AddrEnv.LargePortWraps | main.go:148 | the item `NAME:65536` yields port 0 |
| AddrEnv.EmptyFlagMissingPort | main.go:137-141 | an empty flag is one empty item and fails with "missing port" |
| AddrEnv.Collect | main.go:139-149 | the table the insertion loop builds from the item results: each port mapped to the name of its last entry, or the first item's error |
| AddrEnv.ParseAddrEnvs | main.go:137-149 | the whole `-addr-env` flag: split on `,`, each item parsed, then collected as above |
| AddrEnv.CollectOk | main.go:137-149 | the table is built iff every item parses |
| AddrEnv.ErrorPersists | main.go:139-146 | a fatal item ends the loop: items after it do not change the outcome |
| AddrEnv.CollectError | main.go:137-146 | the error reported is that of the first failing item, and every item before it parsed |
| AddrEnv.CollectContents | main.go:148 | the table's keys are exactly the items' ports, and each key maps to the name of the last item with that port |
| AddrEnv.BuildPortMap | main.go:137-149 | the insertion loop fails with the parser's error, or yields one fresh forwarder per table port, under that port, with the table's name, a zero destination and the shared allocator |
| Spawn.EnvEntry | main.go:193 | the entry `NAME=localhost:PORT` with PORT in decimal, as `Sprintf("%s=localhost:%d")` renders it |
| Spawn.LocalhostAddress | main.go:193 | the address `localhost:DIGITS` cuts at its `:` into the host and the digits |
| Spawn.EnvEntryReadBack | main.go:193 | an entry `NAME=localhost:PORT` reads back, through its first `=` and `:` and Atoi, as the name, the host and the port |
| Spawn.TableEnumerationCyclable | main.go:191 | a range over the forwarder map visits as many forwarders as the map holds, all sharing the allocator and none twice |
| Spawn.SpawnPorts | main.go:190-194 | forwarders holding consecutive draws hold ports in `[portMin, portMax)`, pairwise distinct while there are no more forwarders than ports |
| Spawn.BuildChildEnv | main.go:190-194 | the new environment is the inherited one unchanged, then one `NAME=localhost:PORT` entry per forwarder in visiting order; PORT is that forwarder's new `dest`, the i-th forwarder gets the allocator's (d + i)-th draw, and in a valid range the new dests lie in the range and are pairwise distinct when they do not outnumber its ports |
| Watch.Watched | main.go:230-244 | the watch rule: a path is watched iff it matches `-regex` or is a directory, and does not match `-ignore`; a missing os.FileInfo panics unless `-regex` matches |
| Watch.Signals | main.go:246-254 | the restart rule: a change signals iff its path matches `-regex` and not `-ignore`; such a path is watched even without file information |
| Watch.SignallingPathsAreWatched | main.go:230-254 | every path whose change requests a restart is also a path the walk watches, whatever its file information |
| Watch.DirectoriesAloneNeverSignal | main.go:251 | the watch rule and the restart rule differ exactly for directories that match neither `-regex` nor `-ignore`: they are watched, but their changes never signal |
| Watch.IgnoredPathsAreInert | main.go:233 | a path matching `-ignore` is neither watched nor signals, but it still panics when it has no file information and does not match `-regex` |
| Watch.MissingInfoPanics | main.go:233 | a path whose os.FileInfo is nil (main.go:257-258, 278-282) crashes the watch rule exactly when it does not match `-regex` |

## Left out

- `portForwarder.Run` (main.go:76-114): listening, accepting, dialling and the
  two `io.Copy` goroutines are network I/O and concurrency. The model keeps
  only the `dest` cell that each accepted connection reads once.
- The `go p.Run()` in `newPortForwarder` is not modelled. So the model does
  not capture a consequence of two items with the same truncated port. Both
  forwarders' `Run` goroutines try to listen on that port (main.go:65, 77),
  and whichever binds first keeps it; the other's error is dropped. The map
  holds only the later forwarder, and only that one is cycled. When the
  earlier forwarder wins the listener, its `dest` stays 0, and every
  connection on that public port dials `localhost:0` and fails.
- `debouncer` (main.go:152-178): timers and channel `select`, which are
  timing and concurrency.
- The process lifecycle in `runner` (main.go:186-189, 196-206): `exec.Command`,
  the process group, `syscall.Kill` and `Wait` are OS calls. Only the
  environment loop is modelled.
- `main` (main.go:210-290): the fsnotify and polling watchers, `filepath.Walk`
  and the event loop are filesystem I/O. Only the two path rules are kept.
- Go's `regexp` package: match results are boolean inputs of `Watch`.
- `os.Environ()`: the inherited environment is an input sequence.
- `flag` parsing and `log` output. `log.Fatalln` is the error result of
  `AddrEnv.BuildPortMap`, not a process exit.
- The mutex and the atomic load and store: each `nextPort` and `Cycle` call is
  one sequential step.
- `Strconv.Atoi` works on characters, where Go works on bytes. Every
  character it accepts is an ASCII digit or sign, so the results agree.
