# A verified model of the Utilization Monitor

The Utilization Monitor is a measurement pipeline. On every host an agent, `pcapper`, sends a record for each packet and
once a second records for CPU and memory. A collector, `recollect`, connects to the agents, classifies the packets and
prints text lines. A grapher, `mwmg`, reads the lines and draws load graphs. `svcreqollect` is another collector, for
service requests. This project models the parts of the four programs that decide whether the graphs are right, and
proves what they keep, for all inputs and for every interleaving of their threads.

| file | what it models | source |
|---|---|---|
| `Reconnect.dfy`, `Rounds.dfy` | the two threads of the collector that connect, poll and replace sockets, as a step relation; what they do over whole runs | `recollect.c` |
| `Fanout.dfy` | the agent's acceptor and its two broadcasting threads, as a step relation | `pcapper.c` |
| `Arithmetic.dfy`, `CText.dfy` | products and quotients; decimal printing, `strtok`, `strchr`, `atoi`, `atol`, `strtoul`, `fgets`, integer conversions | C library |
| `Flows.dfy`, `FlowFile.dfy` | the flow table and the classifier's bit mask; documented configuration files | `recollect.c` |
| `Records.dfy` | the records printed for a packet | `recollect.c` |
| `Lines.dfy` | the text line of a record and its parser | `recollect.c`, `mwmg.c` |
| `Samples.dfy` | the sample store, runs of clock ticks and lines | `mwmg.c` |
| `Pipeline.dfy`, `EndToEnd.dfy` | packets to lines to samples: conservation; from a configuration file and packets to cells | all of the above |
| `Scale.dfy`, `Views.dfy` | `ceil`, `roundup`, the vertical scale | `mwmg.c` |
| `AggregateTop.dfy` | the aggregate bar graph | `mwmg.c` |
| `Timeline.dfy`, `Margins.dfy` | merging of seconds into columns, `sperpx` and the right margin | `mwmg.c` |
| `ColumnLines.dfy`, `AggregateBottom.dfy` | the historical aggregate graph | `mwmg.c` |
| `StripChart.dfy` | the historical graph of one window | `mwmg.c` |
| `CpuReport.dfy` | the 16-bit CPU reports | `pcapper.c` |
| `FilterTemplate.dfy` | expansion of filter templates into a bounded buffer | `pcapper.c` |
| `HostIndex.dfy`, `ServiceRequests.dfy` | the host map, the accept and reject tables | `svcreqollect.c` |

The threads are state machines with a program counter for each thread; every lock-delimited region and every system
call is one step, and the outcome of a system call is a parameter of its step. Everything else has the form of its
source: loops are methods with invariants, the flow table, the sample store, the watcher of the CPU counters, the
filter buffer, the host map and the request tables are classes or arrays that methods update in place. Each such method
is proved equal to a function of its inputs, and the lemmas say what that function means. Drawing calls are replaced by
the numbers passed to them. Doubles are reals.

## Where the code departs from its intent

- "Every waiting host is eventually retried" is false. A signal to the connecting thread can be lost
  (recollect.c:445-447; the run is `Reconnect.LostWakeup`), and once the clock has failed a failed connect is not
  retried either (recollect.c:248-255; `Reconnect.LostClock`). `Rounds.NeglectedRunIff` says exactly when it happens.
- A system whose socket could not be replaced keeps -1, which is then tested for membership in a descriptor set
  (recollect.c:273-278, 429, 436). C leaves that undefined; the model reads it as "not set".
  `Reconnect.NoDropWithoutFailure` shows that no run without a failing `socket` gets there,
  `Reconnect.UndefinedTestIff` that after one the undefined test can always follow.
- Configuration lines are read into 32 bytes (recollect.c:30, 398), so a longer line arrives in pieces, and a comment
  of 31 characters can go on with a flow: `FlowFile.CommentLoadsPort80`. `FlowFile.FileIsReadIff` says exactly when a
  file is read as it is meant; all files whose lines have at most 31 characters are (`FlowFile.HarmlessLines`).
- The result of `recv` is compared with an unsigned size (recollect.c:310-311), so a failed `recv` is taken for a whole
  record and the old contents of the buffer are printed: `Records.TakenAsWholeIff`.
- `1 << i` is a 32-bit shift although 64 flows are admitted (recollect.c:78, 296, 336). With gcc on x86-64 flows whose
  indices are equal modulo 32 share a bit: `Flows.ClassifierExactIffNoAlias` says exactly when classification is right,
  `Flows.ClassifierNotExactWith33Flows` shows a wrong one.
- The relay counter of a packet is 8 bits wide (ftfm.h:57, recollect.c:340): `Records.OnePrimaryRecord` and
  `Pipeline.Due` say what a wrap does, `Records.WrappedCounterCounts` shows one.
- `readin` checks neither the window nor the second nor the host of a line (mwmg.c:1222). `Samples.Grapher.ReadIn` says
  exactly which lines leave the arrays, and `Samples.BookedUnderOwnKeyIff` which of the others are booked under a key
  that is not theirs. With an interval above 1 lines are booked by second while graphs are drawn by tick, so even lines
  whose stamps agree with the grapher's clock leave the time axis before the clock stops; with interval 1 these do not:
  `Samples.PunctualLinesAreOnAxisIff`. That agreement is not checked (the collector's manual says that the grapher
  believes it, config/recollect/README.md:140), and without it interval 1 does not help:
  `Samples.FutureLineIsMisbooked`.
- `readin` reads time stamps with `atoi` (mwmg.c:1194): from 2^31 seconds on every line is ignored (`Lines.PrintParse`).
- Host ids are cut to three characters (recollect.c:152-153): `Lines.HostNumberSurvivesIff`.
- Memory reports are computed in 32 bits (recollect.c:327): `Records.MemoryReportExactIff`.
- The collector's manual documents four fields and a length in bytes; the code prints five fields and bits
  (recollect.c:337-339). The model follows the code.
- Above 10^13 `roundup` stops growing. The peak itself fits its frame exactly up to there (`Views.PeakFitsIff`), and so
  do the bars of a single window (`StripChart.BarsFitIff`, `StripChart.HugeSampleOverflows`); aggregate columns fit at
  least up to there (`AggregateTop.BarsFit`, `AggregateBottom.ReserveFits`).
- Historical aggregate columns can run past their baseline (mwmg.c:951-978; `AggregateBottom.ColumnRunsOver`).
  `AggregateBottom.ColumnsFit` says by how many pixels, `AggregateBottom.EndsOnBaselineIff` when they do not.
- A failed reading of the CPU counters is used as if there were one processor (pcapper.c:523-527), which can report a
  busy time that never was (`CpuReport.FailedReadingInflates`); `CpuReport.FailedReportIff` and
  `CpuReport.FailedReadingInflatesIff` say exactly when. A total can also fall, exactly when a reading counts more
  processors than the one before it: `CpuReport.AlwaysRisesIff`.
- Every filter is cut at the size of an interface name, and a short template need not be terminated (pcapper.c:779-793):
  `FilterTemplate.FilterIsExpansionIff`, `FilterTemplate.BuiltInFiltersAreCut`.
- A window too narrow for its margins gets no usable number of seconds a column (mwmg.c:432-433):
  `Margins.Graph.Configure`.
- The manual of `svcreqollect` lets several ports share an identifier; the code ignores the identifier and gives every
  line a row of its own (svcreqollect.c:97-105): `ServiceRequests.RowIsIdentifierIff`,
  `ServiceRequests.RepeatedIdentifierIsIgnored`.

## Model

| member | source | states |
|---|---|---|
| Reconnect.LoadEstablishesInv | recollect.c:144-160 | whatever descriptors `socket` returns while the host lines are loaded, the two threads start in a state that satisfies the protocol's invariant |
| Reconnect.StepKeepsInv | recollect.c:182-287 | every step of either thread, whatever its system call returns, keeps the invariant |
| Reconnect.RunKeepsInv | recollect.c:182-287 | so does every interleaving of any length |
| Reconnect.ExactlyOneStatus | recollect.c:182-287 | in every reachable state each system is exactly one of waiting, connected, mid-handover, dropped |
| Reconnect.SocketsDistinct | recollect.c:267-287 | two systems never hold the same descriptor number, apart from -1 |
| Reconnect.BigfsExact | recollect.c:240-243 | `bigfs` is exactly the sockets of connected systems and the one `clobber` has just closed |
| Reconnect.LastsockCovers | recollect.c:280-282 | `lastsock` is at least every system's socket, except while a new one is being stored |
| Reconnect.SelectSetIsOpenAndInRange | recollect.c:420-427 | `select` is given only open descriptors, none above `lastsock` |
| Reconnect.ConnerCopyStaysFresh | recollect.c:220-245 | for indices still to visit, conner's stale copy still means waiting: an open socket that is not in `bigfs` |
| Reconnect.MainCopyStaysFresh | recollect.c:420-443 | for systems still to visit, membership in main's stale copies means the socket is unchanged since the copy and connected, although numbers are closed and reused |
| Reconnect.OnlyConnectedAreReadOrClosed | recollect.c:429-443 | `recv`, `shutdown` and `close` are only applied to the open socket of a connected system |
| Reconnect.ThreadsNeverShareASystem | recollect.c:224-287 | the unlocked `sys[i].sock` needs no lock: the threads never work on the same system or the same descriptor |
| Reconnect.NoThreadIsStuck | recollect.c:182-287 | each thread can always make its next move, so no index guard hides an error |
| Reconnect.StepDrops | recollect.c:273-279 | only a failed `socket` in `clobber` drops a system, and exactly the one being replaced |
| Reconnect.DroppedForGood | recollect.c:273-279 | over any run a dropped system stays dropped, a test of its socket -1 being read as not set |
| Reconnect.NoDropWithoutFailure | recollect.c:273-279 | over any run without a failing `socket` no system is dropped, so no set is ever asked about -1 |
| Reconnect.UndefinedTestIff | recollect.c:420-436 | between two rounds of main, a run without a further failing `socket` can ask a set about -1 if and only if a system has been dropped |
| Rounds.EveryCopyIsTried | recollect.c:220-245 | from each copy of `needconn` to conner's next sleep it tries to connect exactly the systems that waited at the copy, each once and in order, whatever main does meanwhile |
| Rounds.WaitingIsRetried | recollect.c:220-261 | a system that waits while conner sleeps is tried again in the scan after that sleep |
| Rounds.ScanIsBounded | recollect.c:224-245 | every scan is over after at most two moves of conner for each system |
| Rounds.WaitingAfterScan | recollect.c:220-261 | from each copy to the next, once the scan is over, exactly those systems wait whose connect failed or whose socket was replaced since the copy |
| Rounds.SignalWakesIff | recollect.c:429-447 | while conner sleeps, the rounds of main wake it if and only if they replace a socket |
| Rounds.ReplacedIsTried | recollect.c:220-447 | a system whose socket is replaced while conner sleeps is tried in the scan that the signal starts |
| Rounds.TimedIff | recollect.c:248-258 | over any run in which the clock works, every sleep has a timeout if and only if some connect has ever failed |
| Rounds.EveryConnectedIsPolled | recollect.c:420-423 | `select` is asked about every connected system |
| Rounds.EveryReadyIsServed | recollect.c:427-443 | in a round, `recv` is called for exactly the systems reported readable and not exceptional, and exactly the exceptional ones and those `recv` fails for are replaced, each once and in order, whatever conner does meanwhile |
| Rounds.EveryOutcomeIsPossible | recollect.c:182-287 | the model excludes no outcome of a system call |
| Reconnect.SleepsOnlyOnLateArrivals | recollect.c:247-261 | whenever conner sleeps, exactly the systems queued or failed since its last copy are waiting; while no connect has ever failed it sleeps without a timeout, on those queued only |
| Reconnect.LaterWaitsAreTimed | recollect.c:248-258 | once a connect has failed and while the clock works, every later wait has a timeout |
| Reconnect.FailedConnectMakesTimedSleeper | recollect.c:228-234 | a failed connect establishes the premise of the previous row |
| Reconnect.ClockFailureIsFinal | recollect.c:249-255 | after a failure of the clock every wait is untimed |
| Reconnect.NeglectedIff | recollect.c:248-261 | while conner sleeps untimed and no signal is due, a system waits if and only if a signal was sent before conner slept or a connect of its last scan failed |
| Rounds.NeglectedRunIff | recollect.c:220-261 | over any run from a copy to a settled untimed sleep: a system waits if and only if a connect failed or a socket was replaced since the copy |
| Reconnect.FailedAreNeglectedOnlyWithoutClock | recollect.c:249-255 | the second only after the clock has failed |
| Reconnect.NeglectedUntilNextClobber | recollect.c:260-261 | short of a spurious wake-up, nothing but another replaced socket ends that wait |
| Reconnect.LostWakeup | recollect.c:445-447 | there is a reachable state in which a host waits, conner sleeps untimed and no signal is due |
| Reconnect.LostClock | recollect.c:228-255 | there is another without any missed signal, after a failed connect and a failed clock |
| Fanout.StepKeepsInv | pcapper.c:359-369 | every step of the acceptor or a broadcaster keeps the invariant, including closing a descriptor in the middle of an iteration |
| Fanout.RunKeepsInv | pcapper.c:560-590 | so does every interleaving of the three threads |
| Fanout.BigfsIsOpen | pcapper.c:359-369 | at every moment every member of `bigfs` is an open connection that was inserted and has not failed |
| Fanout.OpenConnectionsAreListed | pcapper.c:72-74 | with the lock free and nothing pending, the open connections are exactly `bigfs`: none leaks, none is listed twice |
| Fanout.ClientSeesOneSegment | pcapper.c:359-369 | each client, by identity, has received one contiguous segment of the one global sequence of records of both broadcasters, from its insertion to its first failed send |
| Fanout.LeavesIff | pcapper.c:361-366 | a step gives up a connection if and only if a send to it fails in that step |
| Fanout.ClientIsServed | pcapper.c:359-369 | over any run without a failed send that ends with the lock free, a connection that was in is still in and has every record since its insertion |
| Fanout.LogIsBegun | pcapper.c:560-590 | the global sequence is that of the broadcasts begun, numbered by broadcaster |
| Fanout.InsertedClientIsServed | pcapper.c:72-369 | from its insertion on, over any such run, a connection is sent exactly the records whose broadcasts begin, in order |
| Fanout.ListedClientsAreUpToDate | pcapper.c:560-569 | between broadcasts every listed client has received everything since its insertion |
| Fanout.LaterClientSeesSuffix | pcapper.c:581-590 | between broadcasts a client inserted later has received a suffix of what an earlier one has |
| Fanout.NoGaps | pcapper.c:359-369 | a client gets each broadcaster's records in order and none is missing between two it got |
| Fanout.RunExtends | pcapper.c:362-366 | over any run what a client has received only grows, and a failed client receives nothing more whatever becomes of its number |
| Fanout.NoThreadIsStuck | pcapper.c:359-369 | the lock can always be taken or released, and both outcomes of a send are possible at every listed descriptor |
| Flows.FlowTable.AddConn | recollect.c:66-115 | a configuration line appends the flow it denotes or leaves the table alone; the 65th flow is refused |
| Flows.FlowTable.LoadFile | recollect.c:398-402 | reading a file to its end, a piece of at most 31 characters at a time, makes the table of its pieces |
| Flows.FlowTable.FindFlow | recollect.c:289-300 | the mask is that of the flows whose test succeeds |
| Flows.LoadedFlowsAreNormal | recollect.c:85-114 | after any lines at most 64 flows are loaded, each with at most one of its two ranges set |
| Flows.SelectedIffCongruentHit | recollect.c:293-336 | flow k is printed exactly if some hit flow has an index congruent to k modulo 32; the mask is empty exactly if nothing is hit |
| Flows.ClassifierExactIffNoAlias | recollect.c:289-336 | the flows printed are, in order, exactly those hit, if and only if no two flows sharing a bit disagree about the packet |
| Flows.ClassifierExact | recollect.c:289-336 | with at most 32 flows they are, for every packet |
| Flows.ClassifierNotExactWith33Flows | recollect.c:296-336 | with 33 flows a packet can be printed under a flow it does not match |
| CText.LineIsCut | recollect.c:398-402 | however long a line is, `fgets` returns it in pieces of 31 characters and a last one with the newline, and then the rest of the text |
| CText.PiecesAreTheText | recollect.c:398-402 | for any text the results of `fgets` make it up, none is empty or has more than 31 characters, a newline only ends one, and one without is full or the last |
| CText.NumberIsRead | mwmg.c:1194-1214 | white space, a sign and digits of any number are read, saturated at 64 bits, by `atol` and `strtoul` |
| CText.SignedWraps | mwmg.c:1194-1195 | `atoi` keeps the number modulo 2^32, in the range of an int |
| CText.SixDigitsAreRead | recollect.c:319-339 | microseconds are printed with all six digits, which read back |
| CText.StrTokFinds | mwmg.c:1193-1217 | `strtok` skips any delimiters and finds a token up to the next one or the end |
| FlowFile.FormattedLineIsRead | recollect.c:66-115 | every documented flow line, port or MGEN id, single or range, with or without blanks and a comment behind it, is read as what it says |
| FlowFile.AnyLineIsRead | recollect.c:83-114 | a flow line with any 32-bit numbers: ids and ports are cut to 16 bits, and it is lost if and only if its id so cut, its start or its end is zero |
| FlowFile.WithoutEqualsNoFlow | recollect.c:66-121 | a line without an equals sign outside its comment, such as a host line or a comment, loads no flow, nor does any beginning of it |
| FlowFile.FileIsReadIff | recollect.c:72-402 | a file of fewer than 64 flow lines, host lines and comments in any order loads exactly the flows its flow lines denote, if and only if no line has a piece past its 31st character that is taken for a flow line |
| FlowFile.FileIsRead | recollect.c:72-402 | under that condition, of any number of flow lines the first 64 are loaded, in order |
| FlowFile.HarmlessLines | recollect.c:398-402 | the condition holds if every line has at most 31 characters or no equals sign past them |
| FlowFile.TailOfCommentIsAFlow | recollect.c:398-402 | any comment of 31 characters followed by any flow line's text loads that flow |
| FlowFile.CommentLoadsPort80 | recollect.c:398-402 | so a file with nothing but a comment can load port 80 |
| FlowFile.FinalNewlineIsOptional | recollect.c:398-402 | for any text, a missing newline at the end of the file makes no difference |
| FlowFile.HitMeansConfiguredRange | recollect.c:294-295 | a hit means that the port, or the MGEN id, is in the configured range; zero is never hit |
| FlowFile.ConfiguredFlowsArePrinted | recollect.c:72-402 | from file to classification: whatever other lines the file has, up to that condition on long lines, a packet is printed under exactly the flow lines whose range has its port or MGEN id |
| Records.Consume | recollect.c:303-344 | the records printed for a packet: one for statistics or unknown traffic, one for each selected flow; none, and the connection is given up, if `recv` is seen to fall short |
| Records.CpuReportIff | recollect.c:315-320 | a packet is printed as a CPU report if and only if its ports and addresses are 1 and its flow id is 2^32 - 1 |
| Records.MemoryReportIff | recollect.c:321-327 | and as a memory report if and only if they are 2 and the flow id is 2^32 - 2, with 256 kB a unit, in 32 bits |
| Records.TakenAsWholeIff | recollect.c:310-311 | what `recv` returns passes for a whole record if and only if it is the size of one or -1 |
| Records.PrintMatches | recollect.c:335-342 | the loop with its 8-bit counter prints the records of the selected flows, in order, primary exactly where the counter is 0 |
| Records.OnePrimaryRecord | recollect.c:331-340 | the records of a packet have its time and host and eight times its length, and exactly that one is primary where the 8-bit counter is 0: the first for counter 0, otherwise none unless the counter wraps |
| Records.WrappedCounterCounts | recollect.c:340 | a packet relayed 255 times that matches two flows is counted as primary |
| Records.RecordsFollowHits | recollect.c:331-340 | an unmatched packet is printed once as unknown, a matched one once for each flow it hits, lowest index first |
| Records.MemoryReportExactIff | recollect.c:326-327 | the printed number of bytes is right exactly below 4 GB |
| Lines.PrintIsSplit | mwmg.c:1193-1217 | the five calls of strtok recover the five printed fields of every record |
| Lines.PrintedForm | recollect.c:319-339 | a printed line, character for character |
| Lines.PrintParse | mwmg.c:1193-1221 | round trip: every printed record is read back with its second, host, window, value and level, for numbers of any length, if its time is not before the start and below 2^31; otherwise it is ignored |
| Lines.FiveFieldsAreRead | mwmg.c:1193-1222 | any five fields, with or without a newline behind them: the line is ignored if and only if it is too early or its host number is below 1, and otherwise read as what they say |
| Lines.ShortLinesAreIgnored | mwmg.c:1193-1217 | a line with fewer than four colons is ignored |
| Lines.HostNumberSurvivesIff | recollect.c:152-153 | a host number survives its stored name if and only if it has at most three digits |
| Samples.CellsAreDistinct | mwmg.c:1222 | the index map of the flattened array is one-to-one and within the array |
| Samples.EveryCellHasAKey | mwmg.c:132 | and onto its cells |
| Samples.Grapher.constructor | mwmg.c:129-138 | every window starts with its own array of zeroes |
| Samples.Grapher.Add | mwmg.c:1222 | an addition within the arrays books the sample in its cell, modulo 2^64, and leaves every other cell of every window alone |
| Samples.Grapher.ReadIn | mwmg.c:1160-1222 | any line: it books the sample it parses to; or nothing if it is malformed, too early or the clock has run out; and it is undefined exactly if its window does not exist or its index is outside the array |
| Samples.Grapher.ReadAll | mwmg.c:1132-1226 | any stream of lines books exactly the samples of its well-formed lines, up to the first undefined one |
| Samples.Grapher.Update | mwmg.c:1107-1115 | the clock advances by one and the timer stops at the end of the time axis |
| Samples.CellIsTotal | mwmg.c:1219-1222 | the flattened array refines a map: after any stream of lines in range a cell holds the total of exactly the samples with its window, level, second and host |
| Samples.CellHoldsWhatLands | mwmg.c:1222 | after any defined stream, in range or not, a cell holds the total of the samples whose index it is |
| Samples.BookedUnderOwnKeyIff | mwmg.c:1222 | a defined sample is booked under its own second, host and level if and only if these are in range |
| Samples.Grapher.Play | mwmg.c:1107-1226 | any run of ticks and lines from the start: the clock counts the ticks up to the end of the axis, exactly the lines heard while it runs are booked, up to the first that leaves the arrays |
| Samples.ClockCountsTicks | mwmg.c:1107-1115 | over any run the clock is the number of ticks, up to 1860 |
| Samples.BookingIff | mwmg.c:1160-1195 | a line of a run is booked if and only if fewer than 1860 ticks came before it and it is not ignored |
| Samples.HeardAreBookings | mwmg.c:1160-1222 | the samples heard in a run are, in order, those of exactly the lines that arrive before the clock runs out and are well-formed and not too early |
| Samples.CellsHoldRun | mwmg.c:1107-1222 | after any run in range, a cell of the arrays holds the sum, modulo 2^64, of exactly the lines with its window, level, second and host that arrived before the clock ran out |
| Samples.PunctualLinesAreOnAxisIff | mwmg.c:1107-1222 | over all runs of ticks and lines, every line that is booked and whose stamp agrees with the grapher's clock at that moment is on the time axis, if and only if the interval is 1 (for an axis that ends before 2^31 seconds, from where on no line is read) |
| Samples.PunctualLinesFit | mwmg.c:1107-1222 | with interval 1 such a line for an existing window and host is within the arrays, under its own key |
| Samples.FutureLineIsMisbooked | mwmg.c:1193-1222 | without that agreement, whatever the interval, a primary record from up to DEFTLEN seconds past the axis is booked as secondary traffic DEFTLEN seconds earlier |
| Pipeline.StoredHostsAreGood | recollect.c:152-153 | the names kept of host numbers up to 999 meet the conditions of the following rows |
| Pipeline.PrintoutIsRead | mwmg.c:1193-1222 | all lines printed for well-formed records are read back in order, one sample for every record that is not ignored |
| Pipeline.PacketAddsUp | recollect.c:329-343 | the records of one packet add what the packet is due to the primary halves |
| Pipeline.DueWithoutWrap | recollect.c:331-340 | without a wrap exactly the packets that carry no statistics and were not relayed are due eight times their length |
| Pipeline.Conservation | recollect.c:329-343 | end to end: classifying, printing, parsing and booking any stream of packets adds exactly what they are due to the level-0 halves of the windows from W_OTHER up, however many flows each matches |
| Pipeline.CellsAddUp | mwmg.c:1193-1222 | end to end, cell by cell: the cell of a window, level, second and host holds exactly what the packets of that second and host were printed as under that flow and level |
| Pipeline.NoCellWraps | mwmg.c:1222 | while that total is below 2^64 no cell wraps, so the arrays hold what was booked |
| EndToEnd.CpuReportBecomesSample | recollect.c:315-320 | printed and parsed, a CPU report becomes one primary sample of window 1 with its value |
| EndToEnd.MemoryReportBecomesSample | recollect.c:321-327 | a memory report becomes one primary sample of window 0 |
| EndToEnd.PacketBecomesSamples | recollect.c:302-344 | with at most 32 configured flow lines, classified, printed and parsed, a packet becomes one sample for each line that has its port or MGEN id, in order, in the window of the line's id, or one of window 4, of eight times its length, primary where its counter is 0 |
| EndToEnd.CellsHoldConfiguredTraffic | mwmg.c:1193-1222 | from the text of a configuration file and any packets to the arrays: every cell holds the total of the samples with its key |
| Scale.RoundUp | mwmg.c:647-661 | the nested loops search the grid of round numbers in order |
| Scale.RoundedIsLeast | mwmg.c:647-661 | up to 10^13 the result is the least grid value that is at least x; above, it is 10^13 |
| Scale.RoundedIsLeastRound | mwmg.c:647-661 | up to 10^13 the result is the least of the numbers 10, 20, ..., 90, 100, 200, ... that is at least x |
| Scale.RoundedAtLeastTen | mwmg.c:647-661 | it is at least 10, so no scale divides by zero |
| Scale.RoundedMonotone | mwmg.c:647-661 | it is monotone |
| Scale.RoundedIdempotent | mwmg.c:647-661 | it is idempotent |
| Scale.RoundedBelowDouble | mwmg.c:647-661 | above 10 and up to 10^13 it is strictly less than twice x |
| Views.GraphersGiveGoodViews | mwmg.c:1107-1115 | in every state that update and readin can reach, all cells the graphs read exist |
| Views.PeakFitsIff | mwmg.c:674-676 | with the axis of roundup the peak is drawn within the frame if and only if it is at most 10^13 a second |
| Views.AxisFillsRoom | mwmg.c:766-773 | the peak a second, rounded up, is the top of the axis and takes exactly the room there is |
| Views.PeakFillsHalf | mwmg.c:766-773 | so a peak above 10 a second is drawn more than half as high |
| AggregateTop.UpdateMultiTop | mwmg.c:738-809 | both levels of every host are drawn as the bars of the specification, on the scale of the tallest host |
| AggregateTop.ScaleIsForTallestHost | mwmg.c:753-774 | the scale is that of the highest total, over both levels of the traffic windows, booked for a host in the last complete second, and leaves free one pixel for each traffic window and one more |
| AggregateTop.StackFits | mwmg.c:782-785 | the sum of the layers, each rounded up, is less than the frame height minus one |
| AggregateTop.LayersTile | mwmg.c:788-805 | the rectangles run from the top of the stack down without gap or overlap |
| AggregateTop.BarsFit | mwmg.c:773-805 | for all samples, hosts, levels and window counts, every bar starts inside the frame and its layers end exactly on the baseline |
| AggregateTop.PositivesAreDrawn | mwmg.c:793-800 | a host's bar of a level has layers for exactly the traffic windows with a positive sample booked for that level, host and the last complete second, in the order of the windows, each as high as its sample, rounded up, and at least one pixel |
| Timeline.ColumnsPartition | mwmg.c:1001-1004 | every second before the clock, or the first one, is in exactly one column, and no column holds any other second |
| Timeline.PresentIff | mwmg.c:936-949 | the cells of a column are those of its seconds and all hosts |
| Margins.SperpxIsLeast | mwmg.c:432 | the seconds a column are the least number with which the whole time axis fits |
| Margins.Graph.Configure | mwmg.c:430-434 | resizing to any width: when it divides by zero, what it sets otherwise, that the seconds a column are positive exactly if there is room for a column, and that the right margin is then never less than required |
| Margins.ColumnsLeftOfMargin | mwmg.c:1048-1056 | every column of a historical graph is drawn inside the left and right margins |
| ColumnLines.OvershootExact | mwmg.c:951-978 | a column is drawn exactly one pixel higher than reserved for every window in which rounding adds a whole pixel to its two levels |
| ColumnLines.SpillingAtMostBoth | mwmg.c:951-978 | only windows with both levels do that |
| ColumnLines.LinesJoin | mwmg.c:963-978 | each window's lines start where the windows before it end, without gap |
| AggregateBottom.FindPeak | mwmg.c:904-920 | the maximum pass finds the highest column, summed host by host |
| AggregateBottom.ColumnIsTraffic | mwmg.c:904-917 | the maximum pass measures a column as the sum over its seconds, hosts, traffic windows and levels of the samples divided by the seconds a column and rounded up |
| AggregateBottom.ScaleIsForHighestColumn | mwmg.c:918-931 | the scale is that of the column with the highest such sum |
| AggregateBottom.Accumulate | mwmg.c:934-949 | the drawing pass sums each window's levels over the cells of the column, second by second |
| AggregateBottom.ShareIsTraffic | mwmg.c:934-949 | the drawing pass gives a window's level that sum, a second of the interval unless samples are gauges |
| AggregateBottom.UpdateMultiBottom | mwmg.c:882-979 | one column of lines for every column of seconds, on the scale of the peak |
| AggregateBottom.FlatIsHostsLoad | mwmg.c:906-917 | summing host by host and second by second agree, for any number of hosts and seconds |
| AggregateBottom.TotalAtMostLoad | mwmg.c:909-945 | the sums of the drawing pass, divided by the interval, never exceed the column as the maximum pass measured it |
| AggregateBottom.ReserveFits | mwmg.c:904-956 | for every sperpx and interval the height reserved for any column is less than the frame height minus one |
| AggregateBottom.ColumnsFit | mwmg.c:930-978 | every column starts inside the frame, runs without gap and ends exactly as many pixels below the baseline as windows spill, at most one for every window with both levels |
| AggregateBottom.EndsOnBaselineIff | mwmg.c:951-978 | a column ends on the baseline if and only if no traffic window spills |
| AggregateBottom.ColumnRunsOver | mwmg.c:931-978 | one unit of each level of one window in a frame of 7 pixels ends one pixel below the baseline |
| AggregateBottom.TrafficIsShown | mwmg.c:937-978 | a window's level has a line in a column exactly if some host has a positive sample of that level in a second of the column; lines are as high as the level's share, rounded up and at least one pixel, the primary first |
| StripChart.MeasureColumn | mwmg.c:1002-1020 | the maximum pass computes the value of a column, averaged where the window is |
| StripChart.MeasureParts | mwmg.c:1027-1045 | the drawing pass computes its two levels |
| StripChart.LevelsAreMeans | mwmg.c:1027-1045 | each level of a column is the sum of its samples over the column's seconds and all hosts, divided by the seconds a column or, in the memory, CPU and time windows, by the number of samples reported, and by the interval unless samples are gauges |
| StripChart.ScaleIsForHighestColumn | mwmg.c:1020-1025 | the scale is that of the highest column, which takes the whole frame once rounded up |
| StripChart.UpdateBottom | mwmg.c:987-1059 | one bar for every column, on the scale of the highest |
| StripChart.PassesAgree | mwmg.c:1004-1045 | the two levels of the drawing pass add up to the value of the maximum pass, averaged or not |
| StripChart.BarWithinIff | mwmg.c:1046-1058 | a bar stays in the frame exactly if its value does |
| StripChart.BarShowsLevels | mwmg.c:1046-1058 | the bar of column n stands there and shows exactly its positive levels, the primary as high as its part, rounded up, the secondary on top without gap, together as high as the column's value |
| StripChart.BarsFitIff | mwmg.c:1024-1058 | no bar exceeds the frame, if and only if the peak is at most 10^13 |
| StripChart.HugeSampleOverflows | mwmg.c:1024-1058 | a single sample of 2 * 10^13 leaves a frame of any height |
| StripChart.ColumnsAddUp | mwmg.c:1001-1022 | in windows that are not averaged, column values times seconds a column times interval add up to all samples of both levels of all hosts and all seconds before the clock |
| CpuReport.Watcher.SumUp | pcapper.c:528-533 | the busy total goes into the cell after the counters, which stay as they are |
| CpuReport.TotalIsSum | pcapper.c:523-533 | the busy total is the sum, modulo 2^64, of all counters but the idle one, each divided by the number of processors |
| CpuReport.Watcher.Sample | pcapper.c:523-591 | one round reports the low 16 bits of the growth and keeps the new total |
| CpuReport.ReportIsDifference | pcapper.c:555 | a report is the difference of two totals modulo 2^16 |
| CpuReport.Watch | pcapper.c:500-592 | a run of the loop reports the differences of successive totals |
| CpuReport.ReportsTelescope | pcapper.c:555-591 | over any run the reports add up to last minus first total modulo 2^16, whatever the totals do |
| CpuReport.RisingReportsAddUpIff | pcapper.c:555-591 | over totals that never decrease they add up exactly if and only if every growth is below 2^16, otherwise to less |
| CpuReport.SmallReportsAddUpIff | pcapper.c:555-591 | while every growth is below 2^16 they add up exactly if and only if the totals never decrease, otherwise to more |
| CpuReport.AlwaysRisesIff | pcapper.c:528-533 | over growing counters the total cannot fall from n to n' processors if and only if n' is at most n |
| CpuReport.FailedTotalIff | pcapper.c:523-533 | a failed reading never lowers the total, and leaves it unchanged if and only if there is one processor or nothing was busy |
| CpuReport.FailedReportIff | pcapper.c:523-555 | it leaves the report unchanged, whatever came before, if and only if its excess is a multiple of 2^16; the excess is zero exactly with one processor or nothing busy |
| CpuReport.FailedReadingInflatesIff | pcapper.c:523-591 | around a failed reading an idle host is reported with the excess and its way back, and as idle exactly under that condition |
| CpuReport.FailedReadingInflates | pcapper.c:523-591 | an idle host of two processors, once busy for 100 ticks, is reported with 50 and then nearly 2^16 busy ticks |
| FilterTemplate.PutString | pcapper.c:607-610 | snprintf writes what fits, a NUL, and nothing else, and returns the full length |
| FilterTemplate.Pcprintf | pcapper.c:596-629 | the buffer after the call, byte for byte, and the value returned; nothing at or past the given length changes |
| FilterTemplate.PercentSigns | pcapper.c:602-628 | %i stands for the address, %m for the hardware address, a percent sign before another character for that character, and one at the end for nothing |
| FilterTemplate.PlainText | pcapper.c:602-628 | all other characters stand for themselves |
| FilterTemplate.FillFits | pcapper.c:602-628 | with room to spare exactly the expansion is written, terminated if its last item is an address, and the result counts everything but literal characters |
| FilterTemplate.FillOverflows | pcapper.c:619-623 | otherwise a prefix of it fills the room, ending in a NUL exactly if the room ends within an address |
| FilterTemplate.ResultCountsBegun | pcapper.c:606-628 | the result counts every item begun with its full length, but literal characters not at all |
| FilterTemplate.WrittenInFullIff | pcapper.c:602-628 | the expansion is written in full if and only if it is shorter than the room, or as long and not ending in an address |
| FilterTemplate.BuildFilter | pcapper.c:786-793 | the filter buffer main ends up with, given whatever was in it before |
| FilterTemplate.FilterIsExpansionIff | pcapper.c:786-812 | the filter in force is the expansion if and only if that has 15 characters, or fewer and is terminated by an address or by chance |
| FilterTemplate.LongAddressesAreCut | pcapper.c:786-812 | no template that names the hardware address is used in full |
| FilterTemplate.BuildModeFilter | pcapper.c:779-793 | the filter buffer in the built-in modes, given whatever was in it before |
| FilterTemplate.BuiltInFiltersAreCut | pcapper.c:779-812 | of every built-in filter 15 characters are in force, with five characters of the hardware address, one, or none |
| FilterTemplate.AddressesAreClean | linuxif.c:82-84 | hardware addresses have 17 characters, and neither kind of address holds a percent sign or a NUL |
| HostIndex.HostMap.AddIpToHost | svcreqollect.c:154-194 | an address, cut at its slash, is appended to the first host of that name or to a new one |
| HostIndex.HostMap.FindHost | svcreqollect.c:111-122 | the nested loops return the first host with that address, or nothing |
| HostIndex.NamesAreDistinct | svcreqollect.c:160-179 | after any additions host names are unique and every added name has a host |
| HostIndex.MapIsGrouped | svcreqollect.c:154-194 | the map groups the additions by name: hosts in order of first use, each with exactly the addresses added under it, in order |
| HostIndex.NamesInOrder | svcreqollect.c:166-179 | hosts are numbered by first use |
| HostIndex.FindIsEarliest | svcreqollect.c:111-194 | a lookup fails if and only if the address was never added; otherwise it returns the earliest-introduced host it was added to |
| HostIndex.AddressIsFoundIff | svcreqollect.c:111-194 | an address is found if and only if it was added, alone or followed by a slash |
| ServiceRequests.Collector.AddPrio | svcreqollect.c:84-109 | a line appends its port if it has a nonzero one |
| ServiceRequests.PortOfLine | svcreqollect.c:88-106 | a line with any 32-bit number has that port, cut to 16 bits |
| ServiceRequests.Collector.Configure | svcreqollect.c:337-342 | reading a file to its end, a piece at a time, makes the rows of its pieces |
| ServiceRequests.Collector.FindPort | svcreqollect.c:124-133 | the first row with that port, or nothing |
| ServiceRequests.Collector.Check | svcreqollect.c:459-532 | the chain of checks on an item, with its error codes in the order of the code |
| ServiceRequests.Collector.Round | svcreqollect.c:408-533 | a round without a bad item leaves in each cell the number of its requests and returns the totals; otherwise the error of the first bad item is returned |
| ServiceRequests.CountedIff | svcreqollect.c:479-529 | an item is counted in a cell if and only if it is a sender with a valid port and a known source, or else destination, and the cell is that of the first row of its port (row 0 if none) and the first host of that address |
| ServiceRequests.FirstErrorDecides | svcreqollect.c:459-503 | each error code if and only if its check is the first to fail, and an item is ignored if and only if it passes all of them and its role is not the word sender in either case |
| ServiceRequests.AcceptedPlusRejected | svcreqollect.c:503-529 | accepted and rejected requests add up to the senders |
| ServiceRequests.RequestsAreConserved | svcreqollect.c:456-533 | the accepted table sums to aa, the rejected table to rr, over all priorities and hosts |
| ServiceRequests.RowsFollowLines | svcreqollect.c:97-105 | after a file of documented lines of at most 31 characters the rows are the ports of the lines in order |
| ServiceRequests.CommentsAddNothing | svcreqollect.c:88-107 | a comment makes no difference to what stands before it, and a line without an equals sign adds no row |
| ServiceRequests.RowIsIdentifierIff | svcreqollect.c:97-105 | a port's requests are counted under its configured identifier if and only if the identifier is the number of its line |
| ServiceRequests.RepeatedIdentifierIsIgnored | svcreqollect.c:97-105 | the fourth line of the manual's example is counted in row 4, not under its identifier 3 |

## Left out

- GTK and GDK calls, pixmaps, colours, cursors, window positions, labels and selector windows: only the numbers passed to draw calls are modelled.
- libpcap, BPF compilation, interface ioctls, socket options, libcurl and json-c are foreign calls; their results are parameters.
- Command-line parsing, log files, reading of /proc, and the packet printers of pcapper are input and output without hard properties.
- The offsets at which pcapper looks for an MGEN id are one branch over fixed positions.
- Partial sends, and how a stream of bytes falls into calls of `recv`: the result of each call is a parameter.
- Reconnect.DroppedForGood: rests on reading a test for descriptor -1, which C leaves undefined (recollect.c:429, 436), as "not set"; Reconnect.NoDropWithoutFailure covers the runs that do not need it, and Reconnect.UndefinedTestIff says when they do.
- Descriptors are taken to be below FD_SETSIZE and allocation to succeed; `realloc` failures are not modelled.
- The meaning of `1 << i` for counts of 31 and more is that of gcc on x86-64, which C leaves undefined.
- Floating-point rounding: doubles are reals.
- Configuration files are taken to be text: a NUL, which would end a string in C, is not modelled.
- ServiceRequests.RowsFollowLines: is about lines within the line buffer; longer ones are cut as in `FlowFile`.
- The host branch of addconn is modelled by the sockets it opens and by the name it stores, not by its parsing.
- Samples.Grapher.ReadIn: says which lines leave the arrays, but not what happens to the program after one, because C does not define it.
- Margins.Graph.Configure: says when the code divides by zero, but not what happens then, because C does not define it.
- Views.Interval: the loops that step by the seconds a column are modelled for a positive number only, because with any other they do not end.
- FilterTemplate.PutString: requires addresses without percent signs, since the code passes them as formats; FilterTemplate.AddressesAreClean shows that dotted quads and hardware addresses have none.
- The instantaneous graph of a single window and the labels of the axes would only add easy members.
- Time labels (mwmg.c:208-211) index a table that is not long enough for every sperpx and interval, so there is no unconditional statement.
- The printed report of svcreqollect reads the first row for every priority (svcreqollect.c:552, 556): the tables are proved, the printout is not modelled, nor is the pacing of its rounds.
- delay.c, replay-pcapper.pl, the Python services, the Makefile and the XPM files hold no behaviour of this kind.
