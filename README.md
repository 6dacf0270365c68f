# TramSimulator in Dafny

A Dafny model of the TramSimulator core. TramSimulator is a small Python program that reads three configuration files and builds a tram network from them:

- tram stops, one `id,name,x,y` per row;
- connections between stops, one `idA,idB,minutes` per row;
- tram lines, one `name,hour,minute,interval,stop ids…` per row.

It gives every line a fleet of five trams. A one-second timer then advances a simulation clock by one minute per tick. On each tick every tram whose start time has come is released from the first stop of its itinerary. Released trams move hop by hop along their itinerary, and each one turns back at the terminus.

## Modules

- `wrappers.dfy`: `Option` and `Result`.
- `strings.dfy` (`Strings`): the text operations the readers depend on:
  - `rstrip`, `split(',')` and `int()`;
  - a decimal rendering `Show` with the round trip `ParseInt(Show(n)) == Some(n)`.
- `database.dfy` (`Database`), modelling `database.py`:
  - stops, connections, lines and trams are datatypes;
  - the network is a class holding a sequence of stops and a sequence of lines;
  - the Tram methods that update a tram (`restart_start_time`, `increase_tram_interval`, `set_itinerary`, `increase_last_tram_stop_number`) are functions from the old record to the new one;
  - `TramLine.__init__` and `Tram.__init__` return a `Result` that carries their exceptions.
- `gui.dfy` (`Gui`), modelling `gui.py`:
  - the `Clock` class;
  - the simulator window's timer work. `set_tram`, `move_tram_in_tram_line` and `move_tram` are imperative methods with loops, proved equal to specification functions.
- `database_io.dfy` (`DatabaseIo`), modelling `database_io.py`:
  - the three readers as imperative methods;
  - each reader's specification function;
  - lemmas about what each reader accepts, what it rejects, and what it builds.
- `setup.dfy` (`Setup`), modelling `network_setup` in `setup.py`:
  - reading the three files in order;
  - adding five trams to every line.
- `scenarios.dfy` (`Scenarios`): the readers on the inputs of the repository's unit tests (`test_database_io.py`). Each test's assertion or expected exception is stated as a lemma.

### Representation

Python objects refer to each other. The model uses indices instead:

- A connection names the index of the other stop in the network's stop list.
- A line's itinerary is a sequence of stop indices.
- Each line holds its roster of trams, and a tram's line is the line that holds it.
- The line's moving list (`_moving_tram`) holds roster indices.
- A stop's connection list is stored in the stop, and `add_connected_stop` updates both stops in the stop sequence.

### Behaviour that follows the code

In a few places the code does not do what a reader of the program's documentation would expect. The model follows the code:

- **`read_tram_line` and bad numbers.** The reader catches only `IndexError`. A non-integer hour, minute or interval therefore escapes as a `ValueError` rather than as `MalformedDataError`; the model returns `ValueError` for it. An invalid time or interval escapes as the `TramLine` constructor's own error (`LineRejected`).
- **Unknown stop ids in itineraries.** In a line row, an id that names no stop is skipped. An id that names several stops contributes each of them, in stop order.
- **Unknown stop ids in connection rows.** The connection reader's lookup variables `tram_stopA` and `tram_stopB` survive from one row to the next. The model threads them through the rows as `ConnState`:
  - if a row names an unknown id, the stop found for an earlier row is used again;
  - if no stop has been found yet, Python raises `UnboundLocalError`, which the model returns as `UnboundStop`;
  - when several stops carry the id, the last one wins.
- **Partial changes.** A connection file that fails part-way keeps the connections added before the failing row. The model returns the stops at that point together with the error.
- **Faults while moving.** A fault while moving trams ends the pass, and the trams already moved keep their new state. The faults are an empty itinerary or a hop past the end of it (`IndexError`), no connection between two consecutive stops (`get_distance` returns `None`) and a connection of length 0.
- **Bounce.** When a tram turns back at the terminus:
  - its route is reversed;
  - its cursor is reset;
  - its last stop is kept.

## Model

| member | source | states |
|---|---|---|
| Strings.RStrip | database_io.py:32 | the result is a prefix of the row; everything it drops is whitespace; it does not end in whitespace |
| Strings.Split | database_io.py:33 | splitting yields at least one piece and no piece contains the separator |
| Strings.SplitJoin | database_io.py:33 | joining the pieces with the separator gives back the row |
| Strings.SplitOfJoin | database_io.py:33 | splitting a join of separator-free pieces gives back exactly those pieces |
| Strings.SplitCount | database_io.py:33 | the number of pieces is one more than the number of separators |
| Strings.ParseInt | database_io.py:35 | `int()` succeeds exactly on an optionally signed run of decimal digits |
| Strings.ParseShow | database_io.py:35 | reading back the decimal rendering of any integer gives that integer |
| Database.Reversed | database.py:292-293 | `[::-1]`: same length, element i is element n-1-i of the input |
| Database.ReversedTwice | gui.py:190 | reversing an itinerary twice restores it |
| Database.NewTramLine | database.py:79-103 | InvalidTime exactly when the hour is outside 0..23 or the minute outside 0..59; otherwise InvalidInterval exactly when the interval is not positive; otherwise a line with the given fields, no trams and an empty moving list |
| Database.NewTram | database.py:208-223 | fails with InvalidLineNumber exactly when the number is not positive, and then the line is unchanged; otherwise exactly one tram is appended to the roster and nothing else about the line changes; the new tram has the given number and position, no route yet, cursor 0, is inactive and not moving, has no last stop, and starts (number-1)·interval minutes after the line's first departure |
| Database.RestartStartTime | database.py:288-295 | the start time drops back to the line's first departure; even-numbered trams take the reversed itinerary and odd ones the itinerary as is; nothing else changes |
| Database.SetItinerary | database.py:305-309 | the itinerary is the given one, reversed for even-numbered trams; nothing else changes |
| Database.SetItineraryAgreesWithRestart | database.py:288-309 | setting a line's itinerary picks the same direction as a restart and leaves the start time alone |
| Database.IncreaseTramInterval | database.py:297-303 | the start time moves on by roster size × interval; nothing else changes |
| Database.IncreaseLastTramStopNumber | database.py:269-270 | the cursor advances by one; nothing else changes |
| Database.Distance | database.py:51-57 | none exactly when no connection leads to the stop; otherwise the distance of the first connection that does |
| Database.DistanceAppend | database.py:51-57 | appending a connection changes the looked-up distance only when none was found before |
| Database.Connect | database.py:188-193 | each of the two stops gains the connection to the other, at the end of its list (both on the same stop when a = b); every other stop is unchanged |
| Database.ConnectFreshDistance | database.py:188-193 | after connecting two previously unlinked stops (or a stop to itself), the distance looked up in either direction is the new one |
| Database.ConnectKeepsSymmetric | database.py:188-193 | connecting keeps the "linked both ways" invariant of the stop list |
| Database.LinkedAfterConnect | database.py:188-193 | after connecting a and b, a stop is linked to another exactly when it was before or the pair is (a, b) or (b, a) |
| Database.TramNetwork.constructor | database.py:26-34 | the network holds the given stops and lines |
| Database.TramNetwork.AddLine | database.py:45-49 | the line is appended to the network's lines; the stops are unchanged |
| Database.TramNetwork.GetDistance | database.py:51-57 | returns the first recorded distance from a to b, present exactly when a is linked to b |
| Database.TramNetwork.AddConnectedStop | database.py:188-193 | the stop list becomes `Connect` of the old one; the lines are unchanged |
| Gui.TimeKeyInDay | gui.py:45-46 | the time in minutes of a valid clock reading lies in 0..1439 and determines the reading |
| Gui.NextTimeKey | gui.py:48-52 | one tick keeps the clock valid and advances its minute count by one modulo a day |
| Gui.AdvanceTimeKey | gui.py:48-52 | n ticks keep the clock valid and advance its minute count by n modulo a day |
| Gui.WholeDays | gui.py:48-52 | after a whole number of days of ticks the clock shows the same time again |
| Gui.Clock.constructor | gui.py:24-27 | the clock holds the given hour and minute |
| Gui.Clock.Default | gui.py:24-27 | the default clock shows 5:00 and is valid |
| Gui.Clock.IncreaseHours | gui.py:32-37 | the hour advances by one and wraps from 23 to 0; the minute resets to 0 |
| Gui.Clock.IncreaseMinutes | gui.py:42-43 | the minute advances by one, unguarded; the hour is unchanged |
| Gui.Clock.TimeInMinutes | gui.py:45-46 | a valid clock's minute count lies within one day |
| Gui.Clock.IncreaseTime | gui.py:48-52 | the clock shows the next minute of the day, rolling the hour at 59 minutes; validity is preserved |
| Gui.CreateTram | gui.py:141-154 | the tram takes the line itinerary in its own direction and stands on that itinerary's first stop; nothing else changes |
| Gui.ScheduledTramEffects | gui.py:128-139 | per tram per tick: at 4:00 the start time resets and the direction is restored; a tram whose start time has come becomes activated and moving and its start time moves on by one cycle; a tram that was not already moving is created on its first stop; a tram that was already moving keeps its position and its route as of the 4:00 reset; number, cursor and last stop never change |
| Gui.CreatedUpToSpec | gui.py:136-137 | the trams of a line appended to the moving list are exactly those created at this tick that came first in the line list, in roster order |
| Gui.ScheduledLinesWellFormed | gui.py:122-139 | scheduling keeps every itinerary within the stop list and every moving entry within its roster |
| Gui.ScheduledLineKeepsMovingInv | gui.py:134-139 | scheduling keeps the moving list duplicate-free and equal to the set of moving trams, and active trams moving |
| Gui.ScheduledLinesKeepConsistent | gui.py:122-139 | the same for every line of the network |
| Gui.ResetAtFour | gui.py:130-133 | at 4:00 every tram's route is restored to its direction, and the start time restarts from the line's first departure (moved on by one cycle when that departure is 4:00 itself) |
| Gui.MoveStep | gui.py:201-216 | a hop succeeds exactly when there is a next stop and a non-zero connection to it; without arrival the tram is unchanged; on arrival the tram stands on the next stop's coordinates, the next stop becomes its last stop and the cursor advances by one, nothing else changing |
| Gui.BounceTwice | gui.py:189-191 | turning back twice restores the route |
| Gui.PassStep | gui.py:181-191 | an inactive tram is untouched; an active tram with an empty route raises IndexError; an active tram away from its last stop takes the movement step `MoveStep`; a step keeps the route within the stop list and its length, the moving flag and the number, and never activates a tram |
| Gui.BounceAtEnd | gui.py:182-191 | an active tram standing on its terminus is deactivated, its cursor resets, and its route is reversed so that it starts at that terminus |
| Gui.MoveFrom | gui.py:177-191 | moving one line's trams changes only its roster, keeps the roster's length and keeps the line well formed |
| Gui.FirstFault | gui.py:177-191 | the first entry from j on whose step faults, or the list's length: it lies in that range, and the step there does fault |
| Gui.MoveFromFault | gui.py:177-191 | the pass over a line reports no fault exactly when no entry's step faults, and otherwise reports the fault of the first entry whose step does |
| Gui.MoveFromStep | gui.py:177-191 | entry p of the moving list, before the first fault, holds its tram's step from the state at the start of the pass; from the fault on it is unchanged |
| Gui.MoveFromSteps | gui.py:177-191 | move_tram_in_tram_line on one line: every entry before the first fault gets its tram's step, the pass reports that fault, and the entries from it on are left as they were |
| Gui.MoveLinesFrom | gui.py:176-191 | moving all lines keeps their number, changes only their rosters and keeps the network well formed |
| Gui.MoveLinesOnlyRosters | gui.py:176-191 | the movement pass changes nothing about any line but its roster |
| Gui.MoveLinesOnlyRoster | gui.py:176-191 | the same for one line k |
| Gui.MovePass | gui.py:172-191 | one movement pass keeps the number of lines, changes nothing but the rosters, and leaves the network well formed |
| Gui.FirstLineFault | gui.py:176-191 | the first line from i on whose own pass faults, or the number of lines: it lies in that range, and that line's pass does fault |
| Gui.MoveLinesFault | gui.py:176-191 | the pass over the lines from i on reports the fault of the first line whose own pass faults, and no fault when none does |
| Gui.MoveLinesStep | gui.py:176-191 | line k after the pass from i on is its own pass up to and including the first faulting line, and unchanged before i and after that line |
| Gui.MovePassSteps | gui.py:172-191 | one call of move_tram_in_tram_line: it faults exactly when some line's pass does; every line up to and including the first faulting one has been through its own pass; the call reports that line's fault; every later line is unchanged |
| Gui.MoveFromUntouched | gui.py:177-191 | a tram that is not in the rest of the moving list is not changed by the pass |
| Gui.MoveFromKeepsMovingInv | gui.py:177-191 | the movement pass keeps the moving list in step with the trams' flags |
| Gui.MoveLinesKeepConsistent | gui.py:176-191 | the same for every line of the network |
| Gui.TramSimulatorWindow.constructor | gui.py:64-86 | the window holds the given network and clock |
| Gui.TramSimulatorWindow.SetTramAt | gui.py:129-139 | the loop body of set_tram yields the scheduled tram and reports whether it was created |
| Gui.TramSimulatorWindow.SetTramsOfLine | gui.py:127-139 | the inner loop of set_tram yields the scheduled line |
| Gui.TramSimulatorWindow.SetTram | gui.py:122-139 | the network's lines become the scheduled lines for the clock's time; the stops are unchanged |
| Gui.TramSimulatorWindow.MoveTram | gui.py:201-216 | one hop as `MoveStep` states it |
| Gui.TramSimulatorWindow.MoveTramAt | gui.py:178-191 | the loop body of move_tram_in_tram_line, as `PassStep` states it |
| Gui.TramSimulatorWindow.MoveTramsOfLine | gui.py:177-191 | the inner loop gives the moved line and the first fault, as `MoveFrom` states it |
| Gui.TramSimulatorWindow.MoveTramInTramLine | gui.py:172-191 | the network's lines become the result of the movement pass; the stops are unchanged |
| Gui.TramSimulatorWindow.Tick | gui.py:218-235 | one timer tick: scheduling, then movement, then the next minute on the clock; the network stays well formed and the moving lists stay consistent |
| DatabaseIo.ParseStopRow | database_io.py:32-36 | a row is accepted exactly when it has four fields and the last two are integers; it yields the stop with those fields and no connections; any failure is MalformedData |
| DatabaseIo.ReadStops | database_io.py:24-40 | reading stops fails only with MalformedData or InvalidTramStopPosition |
| DatabaseIo.ParsedRowsFailOnPosition | database_io.py:24-40 | when every row is well formed, the only error the read can give is InvalidTramStopPosition |
| DatabaseIo.ReadStopsClash | database_io.py:24-40 | well-formed rows that put two stops at one position give InvalidTramStopPosition |
| DatabaseIo.ReadStopsFirstError | database_io.py:29-40 | reading row i after an error-free prefix: a malformed row gives MalformedData for the whole file, and a well-formed row at a taken position gives InvalidTramStopPosition |
| DatabaseIo.ReadStopsOk | database_io.py:24-40 | the stop file is accepted exactly when every row parses and no two stops share a position, and then the result is the parsed rows in order |
| DatabaseIo.ReadStopsSound | database_io.py:24-40 | an accepted file has every row parsing, no two stops sharing a position, and yields the parsed rows |
| DatabaseIo.ReadStopsComplete | database_io.py:24-40 | a file whose rows all parse to distinct positions is accepted |
| DatabaseIo.ReadStopsErrorSticks | database_io.py:29-40 | once a prefix of the file fails, further rows do not change the error |
| DatabaseIo.StopRowRoundTrip | database_io.py:32-36 | writing a stop as `id,name,x,y` and reading it back gives that stop |
| DatabaseIo.CheckPosition | database_io.py:16-21 | reports a clash exactly when some stop already stands at the position |
| DatabaseIo.ReadTramStop | database_io.py:24-40 | the reader's loop computes `ReadStops` |
| DatabaseIo.LastWithId | database_io.py:60-64 | the lookup yields the last stop with the id when there is one, and otherwise keeps the previous row's stop |
| DatabaseIo.ConnectRow | database_io.py:56-66 | a row without exactly three fields is MalformedData; an accepted row has an integer time and keeps the stop lookups within the stop list; a three-field row with an unbound stop variable after the lookups is UnboundStop; errors are MalformedData, UnboundStop or ConnectionAlreadySet only |
| DatabaseIo.ConnectRowAccepted | database_io.py:56-68 | a three-field row is accepted exactly when both stop variables are bound, the second stop does not yet list the first, and the time is an integer; the stops are then connected at that time, and the looked-up stops are carried to the next row |
| DatabaseIo.ApplyConnections | database_io.py:55-68 | applying connection rows keeps the number of stops and fails only with the connection reader's errors |
| DatabaseIo.ReadConnections | database_io.py:50-68 | reading connections keeps the number of stops, fails only with MalformedData, UnboundStop or ConnectionAlreadySet, and an empty file changes nothing |
| DatabaseIo.ApplyConnectionsExtends | database_io.py:55-68 | connection rows only append connections: ids, names and positions stay, and old connections keep their place |
| DatabaseIo.ConnectExtends | database.py:188-193 | one connection only appends to connection lists |
| DatabaseIo.ApplyConnectionsKeepSymmetric | database_io.py:55-68 | connection rows keep every link recorded in both directions |
| DatabaseIo.UnconnectedSymmetric | database_io.py:36 | freshly read stops, which have no connections, satisfy the two-way invariant |
| DatabaseIo.ConnectRowUnbound | database_io.py:59-65 | UnboundStop arises exactly for a three-field row that names an id no stop carries while no earlier row has bound that endpoint |
| DatabaseIo.ConnectRowRejectsKnownPair | database_io.py:43-47 | a row joining two already linked stops fails with ConnectionAlreadySet |
| DatabaseIo.ConnectRowFreshDistance | database_io.py:65-66 | after an accepted row, either stop finds the row's distance to the other |
| DatabaseIo.ConnectRowBadTime | database_io.py:59-68 | a row naming two bound, unconnected stops with a time that is not an integer is MalformedData |
| DatabaseIo.FindStops | database_io.py:60-64 | the lookup loop computes `LastWithId` for both ids |
| DatabaseIo.CheckConnection | database_io.py:43-47 | reports a clash exactly when B already lists A |
| DatabaseIo.ReadTramStopConnection | database_io.py:50-68 | the network's stops and the error become those of `ReadConnections`; the lines are unchanged |
| DatabaseIo.MatchesOfSpec | database_io.py:90-92 | the stops matching an id are exactly the stops carrying it, listed in increasing order |
| DatabaseIo.ResolveIdsInRange | database_io.py:87-92 | a resolved itinerary names stops of the network only |
| DatabaseIo.ResolveIdsAppend | database_io.py:87-92 | resolving a concatenation of ids concatenates the resolved itineraries |
| DatabaseIo.ResolveIdsDropsUnknown | database_io.py:89-92 | an id no stop carries contributes nothing to the itinerary |
| DatabaseIo.SingleMatch | database_io.py:90-92 | with unique ids, an id held by stop i resolves to i alone |
| DatabaseIo.ResolveIdsUnique | database_io.py:87-92 | with unique, known ids, the itinerary has one stop per id, in order, each carrying that id |
| DatabaseIo.LineRow | database_io.py:79-99 | an accepted row has at least four fields and yields a line with the row's name, hour, minute and interval, the resolved stop ids and no trams; errors are MalformedData, ValueError or a constructor error only; with four or more integer fields, acceptance is exactly a valid time and a positive interval; MalformedData only for rows of fewer than four fields |
| DatabaseIo.LineRowErrors | database_io.py:79-99 | ValueError exactly when a present hour, minute or interval field is not an integer; a row of fewer than four fields whose present numbers parse is MalformedData; with four or more integer fields, an hour outside 0..23 or a minute outside 0..59 is InvalidTime, and a valid time with a non-positive interval is InvalidInterval |
| DatabaseIo.ReadLines | database_io.py:71-99 | reading lines fails only with MalformedData, ValueError or a constructor error; an empty file gives no lines |
| DatabaseIo.ReadLinesOk | database_io.py:76-97 | the line file is accepted exactly when every row is an acceptable line row, and then it gives one line per row, each the row's own line |
| DatabaseIo.ReadLinesSound | database_io.py:76-97 | an accepted file gives one line per row, each the row's own line |
| DatabaseIo.ReadLinesLength | database_io.py:76-97 | an accepted file gives exactly one line per row |
| DatabaseIo.ReadLinesRow | database_io.py:76-97 | line i of an accepted file is the line of row i |
| DatabaseIo.ReadLinesComplete | database_io.py:76-97 | a file whose rows are all acceptable line rows is accepted |
| DatabaseIo.ReadLinesErrorSticks | database_io.py:76-99 | once a prefix of the file fails, further rows do not change the error |
| DatabaseIo.ResolveStopIds | database_io.py:87-92 | the nested loops compute `ResolveIds` |
| DatabaseIo.MatchingStops | database_io.py:90-92 | the inner loop computes `MatchesOf` |
| DatabaseIo.ReadTramLine | database_io.py:71-99 | the reader's loop computes `ReadLines` over the network's stops |
| DatabaseIo.LineRowOf | database_io.py:79-96 | the loop body computes `LineRow` |
| Setup.FleetShape | setup.py:61-63 | making k trams appends k trams numbered 1..k with cursor 0, not activated, and leaves the rest of the line alone |
| Setup.FleetStartTimes | setup.py:61-63 | tram j of a fleet has number j+1 and starts j intervals after the line's first departure |
| Setup.FleetKeepsInvariants | setup.py:61-63 | adding a fleet keeps a line well formed and its moving list consistent |
| Setup.Fleets | setup.py:61-64 | one fleet per line read |
| Setup.AddFleets | setup.py:61-64 | the network's lines grow by the fleeted lines, in order; the stops are unchanged |
| Setup.NetworkSetup | setup.py:46-66 | reading stops, then connections, then lines builds the network `SetupNetwork` describes, or returns the first error |
| Setup.ReadLinesParsed | database_io.py:93-96 | every line read has a valid timetable, an itinerary inside the stop list, no trams and an empty moving list |
| Setup.FleetReady | setup.py:61-63 | a line read with its five trams has a valid timetable, consistent moving list, trams numbered 1..5 starting one interval apart, and is well formed when its itinerary is non-empty |
| Setup.StopsReady | setup.py:47-51 | the stops after reading both files have distinct positions and two-way links |
| Setup.LinesReady | setup.py:52-64 | every line of the network carries five trams numbered 1..5 starting one interval apart, with a valid timetable and a consistent moving list; with non-empty itineraries, the network is well formed |
| Setup.SetupReady | setup.py:46-66 | a network that sets up successfully satisfies all of the above: distinct positions, two-way links, five trams per line, valid timetables, consistent moving lists, and well-formedness when no itinerary is empty |
| Setup.ReadStopsExtends | setup.py:47-51 | the connection file only adds connections to the stops read and leaves them two-way linked |
| Scenarios.ReadTwoStops | test_database_io.py:18-31 | the two stop rows of the tests read as stops 1 "Teatr Bagatela" at (20, -70) and 2 "Stary Kleparz" at (80, -110) |
| Scenarios.StopsAtSamePosition | test_database_io.py:34-38 | two stops at (0, 0) are rejected with InvalidTramStopPosition |
| Scenarios.ThreeFieldStopRow | test_database_io.py:41-45 | a stop row with three fields is rejected with MalformedData |
| Scenarios.ReadTestConnections | test_database_io.py:48-58 | reading `1,2,4` and `1,3,5` succeeds and gives stop 1 the connections to stop 2 (4) and stop 3 (5), in that order |
| Scenarios.FourFieldConnection | test_database_io.py:61-70 | a connection row with four fields is rejected with MalformedData before any change |
| Scenarios.RepeatedConnection | test_database_io.py:73-81 | connecting the same pair twice is rejected with ConnectionAlreadySet |
| Scenarios.ReadTestLines | test_database_io.py:84-93 | the two line rows of the test are accepted, as lines 1 (5:00, every 20) and 2 (5:30, every 15) |
| Scenarios.LineWithInvalidTime | test_database_io.py:96-105 | a line starting at minute 60 is rejected with InvalidTime |
| Scenarios.ShortLineRow | test_database_io.py:108-117 | a line row with three fields is rejected with MalformedData |

## Left out

- Qt rendering is not modelled: the scene, ellipse markers, labels, fonts, window setup and the `display_time` text are out of scope. Only the `increase_time` call of `display_time` is kept.
- Floating-point movement between stops is not modelled. `move_tram` takes per-tick float steps and compares positions exactly. Whether a tram reaches its next stop on a given tick becomes a parameter, `arrives(line index, moving entry)`. On arrival the tram stands on the stop's coordinates. Intermediate positions are not tracked.
- `create_tram` on a line with an empty itinerary raises `IndexError` in the source. `Gui.TramSimulatorWindow.SetTram` and `Tick` require well-formed lines instead, and `Setup.SetupReady` proves well-formedness when every itinerary read is non-empty.
- Strings.ParseInt: accepts an optional `-` followed by ASCII digits. Python's `int()` also accepts surrounding whitespace, a leading `+`, underscores between digits and non-ASCII digits, and those forms are not modelled.
- Object identity and aliasing are not modelled. Stops are compared by index rather than by object identity. A line added to the network twice, or one stop object shared by two lists, cannot be expressed.
- Files, `argparse` and the startup errors (`TramPathNotFoundError`, `TramPermissionError`, `TramPathCannotBeDirectory`) are not modelled. Each file is given as a sequence of rows, with the newline already removed.
- `guiMain`, the `QTimer` wiring and the `FatalError` return are not modelled. `Gui.TramSimulatorWindow.Tick` models one timeout: its two slots in the order they are connected.
- Accessors and dead members are left out: `get_name_tram_stops` reads an attribute that is never set; `Tram.get_point`, `add_to_line`, `set_line_number` and `TramStop.set_id` are never called by the core; getters are replaced by field access.
- `count_distance_move` is not modelled: its float arithmetic is left out, and its failure cases (no connection, distance 0) are the `NotConnected` and `ZeroDistance` faults of `Gui.MoveStep`.
- Gui.Clock.IncreaseMinutes: it is as unguarded as the source. The clock stays valid only through `IncreaseTime`, which is the only caller.
