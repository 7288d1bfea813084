# DAQInterface: verified models of its run-control cores

DAQInterface is the run control of an artdaq data-acquisition system: it boots the processes of a
run, writes their FHiCL configuration ("bookkeeping"), sends transitions to them in a safe order,
watches for lost processes, and ships `rgang`, a program that runs a command on many nodes at once.
This project models the parts with real algorithms and proves what they promise.

| part | modules | main results |
|---|---|---|
| subsystem graph | `SubsystemGraph`, `CycleDetection`, `EventBookkeeping`, `FragmentSpaces` | the cycle search accepts exactly the acyclic graphs; the three memoised traversals equal their plain recursions and never touch a cached list; what they start from follows from the board readers |
| transitions | `SubsystemOrder`, `TransitionSchedule`, `CommandRun`, `Processes` | the ordering loop ends exactly on acyclic graphs with known, distinct sources; in every interleaving a command follows the flow of data |
| run control | `RunControl`, `RunStates` | which requests each state accepts and where each transition ends; the exact condition under which no handler ever runs from a wrong state and no transition outlives a recovery, for a kind of run and step by step for each run |
| FHiCL text | `Strings`, `FhiclSearch`, `FhiclBraces`, `FhiclRewrite`, `FhiclEnclosing`, `FhiclForeseen`, `FhiclMisjudged`, `FhiclMissed` | table search through suffix offsets finds the first table; what the rewriting loop with its stale offset does to a document is foreseen from the document alone, and it is what it should be exactly under two conditions on the document; the tables read back hold the nodes |
| wiring | `Wiring` | both ends of every connection list each other and agree on the plugin, which is the sender's, and on the buffer size under an exact condition |
| rgang | `Framing`, `OutputMux`, `Failover`, `Partition`, `TimerList`, `ExitStatus` | framed stream recovered under an exact condition on read boundaries; output in node order; every node gets a status, and zero only if that was reported; exact tiling; sorted timers |
| accounting | `LossAccounting`, `Ports` | when a loss ends the run; ranks and router ids are handed out without gaps, and exactly when ports collide, within a partition and across partitions |
| messages | `Paragraph` | line breaking terminates and changes white space only |

State that the program updates in place is held in classes (`CycleFinder`, the three traversals,
`DaqInterface`, `ProcessDocument`, `FrameParser`, `Multiplexer`, `Branch`, `Watch`, `Timeouts`,
`ProcessTable`) whose methods are proved against functions on values; the lemmas are about those functions.
Drivers (`RunControl.Drive`, `Failover.RunBranch`, `TimerList.RunTimeouts`, `OutputMux.Run`,
`FhiclForeseen.FillOrderlyTables`, `Ports.Boot`) take the objects through whole runs and conclude the results for them.

## Where the code falls short of its intent

- Shutdown sent through `do_command` compares instead of assigning (`rc/control/daqinterface.py:2954`),
  so the transition completes under an empty name. Several handlers go on after `alert_and_recover`
  (`rc/control/daqinterface.py:3014`, `:4596`, `:4727`), and the early return of `do_recover`
  (`rc/control/daqinterface.py:4878-4891`) leaves flags set. `RunControl.GuaranteedIffBenign` shows that
  the guarantee holds for all runs exactly when none of these is used and processes are managed with recovery enabled.
  For a single run, `HarmlessRunsAreProper` and `HarmfulStepsBreak` name the steps that break it: a request accepted
  behind a handler that goes on, during a no-op recovery or under the empty name (unless something pending comes first), and
  a no-op recovery that begins with a transition queued. `StartOutlivesRecovery`, `BootOutlivesNoopRecovery`, `StartAfterShutdown` and `BootBehindHandler` give runs.
- The ordering loop of `do_command` never ends if a source is unknown or listed twice (`SubsystemOrder.OrderSubsystems`);
  `ListedTwice` gives a table of two subsystems without a cycle on which it does not end.
- A read that ends just before or just after a cookie's line end loses the frame (`Framing.ExactCondition`); `CutBehindLineEnd`
  gives the two reads that lose any payload.
- The search to the right in `enclosing_table_range` stops at the first brace of either kind, because an
  opening brace decreases the count (`rc/control/utilities.py:263`); `FhiclSearch.WholeTable` says for which texts the range is
  the whole table, and `RangeCutShort` gives one for which it is not.
- The rewriting loop is meant to spare the tables directly inside `message` and to list the nodes of other subsystems in those
  directly inside one of three sender tables. It searches for the enclosing table only from the end of the previous table; if no
  brace opened since then is still open, the name it gets is the last key of the whole document
  (`FhiclSearch.NothingOpenNamesTheLast`). `FhiclMisjudged` gives a table outside `message` that is left alone
  (`a:{ x:{} x:{} } message:{}`), one inside it that is replaced (`message:{ x:{} x:{} } a:{}`), and one in a sender that gets
  the wrong nodes (`binaryNetOutput:{ x:{} x:{} } a:{}`).
- A table longer than its replacement makes the loop run past the following text and miss a table there:
  `x:{yyyyyyyyyy} x:{}` with no nodes to list (`FhiclMissed.TenHideTheNext`).
  `FhiclForeseen.EveryTableOnce`, `KeptExactly`, `RewritesExactly` and `RightlyJudgedExactly` say for which documents none of
  these happens.
- Without advanced memory usage the two ends of a connection may disagree on the buffer size: `Wiring.EndsAgree` says for which
  FHiCL and event sizes, and `EndsMayDiffer` gives a setup in which one end has 1000 words and the other 1280.
- Nothing bounds the number of router ids (a DFO takes one for every subsystem it serves) or of processes: from 46 ids on,
  ports of a partition may collide (`Ports.DistinctExactly`), and `Ports.ApartExactly` says when those of two partitions do.
- A board reader that sets both `fragment_id` and `fragment_ids`, or neither, is counted for another number of fragments than
  it has ids (`FragmentSpaces.RegularExactly`).

## Model

| member | source | states |
|---|---|---|
| `CycleDetection.CycleFinder.Dfs` | rc/control/bookkeeping.py:187-200 | One call of the search: it either finishes the subsystem with everything it needs, or returns a walk that leads back into the open calls |
| `CycleDetection.CycleFinder.FindCycle` | rc/control/bookkeeping.py:183-207 | No cycle is reported exactly if the graph of known sources is acyclic; otherwise the path is a walk along sources, from a subsystem of the run, whose last vertex occurs in it before |
| `CycleDetection.ClosingWalkIsCyclic` | rc/control/bookkeeping.py:194-197 | A reported path contains a real cycle |
| `SubsystemGraph.AcyclicHasOrder` | rc/control/bookkeeping.py:209-218 | Every acyclic graph can be listed with sources first |
| `SubsystemGraph.OrderedIsAcyclic` | rc/control/bookkeeping.py:209-218 | A graph that can be listed so is acyclic |
| `EventBookkeeping.RankedIffSound` | rc/control/bookkeeping.py:209-218 | The recursions are well founded exactly on acyclic graphs whose sources are all known |
| `EventBookkeeping.FragmentCounter.Calculate` | rc/control/bookkeeping.py:224-241 | The memoised count is cached and, on sound graphs, the plain recursion; a failed lookup names an unknown source |
| `EventBookkeeping.EventSizer.Calculate` | rc/control/bookkeeping.py:243-265 | The same for event sizes; on sound graphs the size is at least 10240, and above that the sizes of the sources plus the own space, with advanced memory usage a tenth more in whole words |
| `EventBookkeeping.IdCollector.Calculate` | rc/control/bookkeeping.py:267-281 | The same for fragment ids; neither the subsystems' own lists nor cached lists are changed |
| `EventBookkeeping.Bookkeep` | rc/control/bookkeeping.py:183-296 | Succeeds exactly on acyclic graphs with known sources; refuses as circular exactly the cyclic ones; all three results equal the plain recursions whatever the order of subsystems; every size is 10240 or more, and above that the sizes of the sources plus the own space, or with advanced memory usage 11/10 of it rounded down and then up to a multiple of 8 |
| `EventBookkeeping.CountIsLength` | rc/control/bookkeeping.py:224-281 | The expected number of fragments is the length of the list of fragment ids |
| `EventBookkeeping.EventFits` | rc/control/bookkeeping.py:243-265 | An event size is at least 10240 and at least the own space plus the sizes of all sources; with advanced memory usage or aligned spaces it is a multiple of 8 |
| `FragmentSpaces.Gather` | rc/control/bookkeeping.py:116-170 | The loop over board readers delivers the space and the fragment ids of every subsystem, and fails exactly if something is to be added for a subsystem that does not exist |
| `FragmentSpaces.CountedExactly` | rc/control/bookkeeping.py:162-170 | A reader fails the loop unless its subsystem exists or, in strict mode, it has no ids |
| `FragmentSpaces.StrictIds` | rc/control/bookkeeping.py:166-170 | In strict mode a subsystem has each id that one of its readers sends, once |
| `FragmentSpaces.ReaderIdsExactly` | rc/control/bookkeeping.py:128-155 | The ids of a reader are the one set and the numbers listed, unless it sends none |
| `FragmentSpaces.GeneratedExactly` | rc/control/bookkeeping.py:128-155 | It is counted for none, for one without a list, or for as many as are listed |
| `FragmentSpaces.OneReaderMore` | rc/control/bookkeeping.py:157-170 | One more reader adds room for each new id (each id, if not strict), as large as its own document says with advanced memory usage, and else as the settings say |
| `FragmentSpaces.RegularExactly` | rc/control/bookkeeping.py:128-155 | A reader is counted for as many fragments as it has ids exactly if one of the two settings is there, or it sends none |
| `FragmentSpaces.RoomForEachId` | rc/control/bookkeeping.py:157-170 | Without advanced memory usage the space is the number of ids times the fragment size, in strict mode always, else if the readers are regular |
| `FragmentSpaces.EventsAligned` | rc/control/daqinterface.py:1209-1224 | With a fragment size that passes the settings check, or advanced memory usage, every event size is a multiple of 8 |
| `EventBookkeeping.EventGrows` | rc/control/bookkeeping.py:243-265 | Larger fragment spaces anywhere give event sizes that are at least as large |
| `EventBookkeeping.RankIsImmaterial` | rc/control/bookkeeping.py:288-296 | The results do not depend on the ranking that makes the recursion terminate |
| `SubsystemOrder.Strike` | rc/control/daqinterface.py:2797-2800 | Striking the ordered subsystems from a copy of the sources removes one copy of each |
| `SubsystemOrder.NextSubsystem` | rc/control/daqinterface.py:2796-2803 | One pass appends the first subsystem whose sources are all struck |
| `SubsystemOrder.OrderSubsystems` | rc/control/daqinterface.py:2794-2806 | The loop ends exactly if the graph is acyclic and every source is known and listed once; the result lists every subsystem once, sources first |
| `SubsystemOrder.ListedTwice` | rc/control/daqinterface.py:2795-2803 | Of two subsystems the second lists the first twice: there is no cycle and every source is known, yet no pass after the first appends anything |
| `SubsystemOrder.FeederComesFirst` | rc/control/daqinterface.py:2791-2793 | What feeds a subsystem, however indirectly, comes before it |
| `SubsystemOrder.OrderableHasEligible` | rc/control/daqinterface.py:2795-2803 | On such graphs every pass makes progress |
| `SubsystemOrder.StuckIsNotOrderable` | rc/control/daqinterface.py:2795-2803 | A pass that finds nothing proves the graph has a cycle, an unknown or a repeated source |
| `TransitionSchedule.PrioritiesUsed` | rc/control/daqinterface.py:2826-2832 | The priorities in use, each once, rising |
| `TransitionSchedule.PlanCommand` | rc/control/daqinterface.py:2779-2865 | The buckets of a command, in order of subsystem, process type and priority, exist exactly for orderable graphs; on Stop, Pause and Shutdown feeders are in earlier buckets than those they feed, on Init, Start and Resume in later ones |
| `TransitionSchedule.ExactlyOneBucket` | rc/control/daqinterface.py:2822-2865 | Every process of a known subsystem is in exactly one bucket and no other process is in any |
| `TransitionSchedule.EarlierSubsystemEarlierBucket` | rc/control/daqinterface.py:2822-2865 | Buckets of an earlier subsystem come first |
| `TransitionSchedule.PlanFollowsData` | rc/control/daqinterface.py:2787-2806 | In every plan of Stop, Pause or Shutdown whatever feeds a process, across subsystems or in its own, is in an earlier bucket; in every plan of Init, Start or Resume in a later one |
| `CommandRun.RunsKeepInv` | rc/control/daqinterface.py:2833-2865 | Every interleaving of the threads keeps the barrier between buckets and sends to nobody twice |
| `CommandRun.CommandFollowsDataFlow` | rc/control/daqinterface.py:2779-2865 | On Stop and Pause whatever feeds a process has answered well before the process is sent to; on Init, Start and Resume the reverse |
| `CommandRun.StopsWithTheData` | rc/control/daqinterface.py:2787-2806 | In every run of Stop, Pause or Shutdown, whoever is upstream of a process has answered well before the process is sent to |
| `CommandRun.StartsAgainstTheData` | rc/control/daqinterface.py:2805-2806 | In every run of Init, Start or Resume, whoever is upstream of a process is sent to only after that process has answered well |
| `CommandRun.LowerNumberGoesFirst` | rc/control/daqinterface.py:2826-2865 | Of two processes of one type in a subsystem the one with the lower priority number has answered well before the other is sent to, on every command |
| `CommandRun.FailureStopsLaterBuckets` | rc/control/daqinterface.py:2833-2877 | After a failed answer only processes of that same bucket are still sent to |
| `CommandRun.FinishedCommand` | rc/control/daqinterface.py:2833-2877 | A command that ends without exception has an answer from every process of a known subsystem; one that starts under an exception sends nothing |
| `RunControl.DaqInterface.Runner` | rc/control/daqinterface.py:5178-5271 | One turn takes up at most one flag, in the fixed order |
| `RunControl.PickFollowsChain` | rc/control/daqinterface.py:5195-5250 | The chain of tests in the runner is the order in which flags are picked |
| `RunControl.StepKeepsInv` | rc/control/component.py:65-86 | Every step of a benign run keeps the invariant and is proper: the handler starts from an allowed state, at most one guarded transition is pending, and a recovery leaves nothing queued |
| `RunControl.GuaranteedIffBenign` | rc/control/daqinterface.py:5178-5271 | All steps of all runs are proper if and only if processes are managed, recovery is enabled, no Shutdown is sent, no handler goes on after recovering, and nothing is requested during a no-op recovery |
| `RunControl.HarmlessRunsAreProper` | rc/control/component.py:179-244 | Whatever is allowed, a run is proper from beginning to end if no request is accepted behind a handler that goes on after recovering, during a no-op recovery, or under the empty name with nothing pending that comes first, and no no-op recovery begins with a transition queued |
| `RunControl.HarmfulStepsBreak` | rc/control/daqinterface.py:4878-4891 | Each such step is itself improper, or one that can follow at once is |
| `RunControl.Drive` | rc/control/daqinterface.py:5178-5271 | Whatever sequence of requests, ticks and ends of handlers and recoveries the object goes through: if none of the steps is harmful, or the alphabet is benign, every transition it carried out started from a state it may start from and ended in the state it leads to, named outright, every recovery ended in "stopped" and left no flag set, and at most one transition is pending |
| `RunControl.StartOutlivesRecovery` | rc/control/daqinterface.py:4878-4891 | Without recovery or managed processes a Start survives a recovery |
| `RunControl.BootOutlivesNoopRecovery` | rc/control/daqinterface.py:4878-4891 | A Boot requested during a no-op recovery stays queued |
| `RunControl.StartAfterShutdown` | rc/control/daqinterface.py:2945-2957 | After a Shutdown through do_command the state name is empty and a wrong transition can start |
| `RunControl.BootBehindHandler` | rc/control/daqinterface.py:3008-3020 | A handler that goes on after recovering runs beside an accepted Boot |
| `RunStates.AcceptedExactly` | rc/control/component.py:77-86 | For every state name and request, spelled out: the request sets the name and the flag exactly if the state accepts it, and else does nothing |
| `RunStates.IdleStates` | rc/control/component.py:179-244 | When a benign run is doing nothing, the state is one of the five names, or that of a queued transition, or a recovery is asked for |
| `RunStates.ChecksExactly` | rc/control/daqinterface.py:5246-5258 | The processes are looked after exactly when nothing is to be picked up, they are managed, and the state is neither stopped nor booting nor terminating |
| `RunStates.StartAndStop` | rc/control/component.py:65-86 | From every reachable "ready" at rest, Start leads to "running" and Stop back to "ready", and a Start is accepted again |
| `RunStates.PauseAndResume` | rc/control/component.py:65-86 | From "running", Pause leads to "paused" and Resume to "running", and a Stop is accepted |
| `RunStates.TerminateAndBoot` | rc/control/component.py:65-86 | From "ready" or "booted", Terminate leads to "stopped", and a Boot is accepted |
| `RunStates.ConfigureAndShutDown` | rc/control/daqinterface.py:2945-2958 | From "booted", Config leads to "ready"; a Shutdown through do_command then leads to the empty name |
| `RunStates.CarryOut` | rc/control/component.py:124-132 | One transition of the object from the request to its end: the state it is in then, for each of the eight |
| `RunStates.Day` | rc/control/component.py:65-86 | The names the object goes through in booting, configuring, starting, pausing, resuming, stopping, starting and stopping again, terminating and booting again |
| `RunStates.RevertedCanBeAskedAgain` | rc/control/component.py:141-146 | A reverted transition falls back to a state with a name, in which it can be requested again |
| `RunStates.RevertsToTheStart` | rc/control/daqinterface.py:2975 | In a benign run that is the state the transition started from: "stopped" for Boot, "booted" for Config |
| `FhiclSearch.FindTable` | rc/control/utilities.py:159-212 | The recursion on suffixes with its offset arithmetic returns the first table at or after the start, up to its closing brace |
| `FhiclSearch.TableRangeIsFirst` | rc/control/utilities.py:159-191 | What is returned starts with "name : {" and no table starts before it; nothing is returned exactly if there is none |
| `FhiclSearch.TableSpelled` | rc/control/utilities.py:183 | A table is its name, white space, a colon, white space and the brace |
| `FhiclSearch.RangeIsMatched` | rc/control/utilities.py:193-212 | The range ends at the brace that matches the table's opening brace |
| `FhiclSearch.BalancedHasRange` | rc/control/utilities.py:193-212 | In balanced text the exception for a missing brace is never raised |
| `FhiclSearch.TableRangeShift` | rc/control/utilities.py:183-191 | Searching a suffix and adding the offset is searching the text |
| `FhiclSearch.FindEnclosing` | rc/control/utilities.py:219-272 | Both counting loops compute the range around a piece of text |
| `FhiclSearch.EnclosingOpens` | rc/control/utilities.py:225-249 | The opening brace found is the innermost one still open at the piece, and none is found if none is open |
| `FhiclSearch.BalancedEncloses` | rc/control/utilities.py:225-272 | In balanced text the search fails exactly if no brace is open |
| `FhiclSearch.WholeTable` | rc/control/utilities.py:251-272 | The range is the matched pair around the piece exactly if a brace opened since the start is open there and a closing brace follows before any opening one; nothing is found exactly if none is open or no brace follows |
| `FhiclSearch.RangeCutShort` | rc/control/utilities.py:251-272 | In the balanced text `a:{ x b:{} }` the range around `x` ends inside the table that matches the opening brace |
| `FhiclSearch.EnclosingNameNames` | rc/control/utilities.py:278-293 | If the brace belongs to a table with a plain header, the name of that table is returned |
| `FhiclSearch.NothingOpenNamesTheLast` | rc/control/utilities.py:278-293 | In balanced text with no brace open at the piece since the start of the search, a word is returned exactly if it is the key in front of the last colon of the text, wherever the piece stands |
| `FhiclSearch.NoHeader` | rc/control/utilities.py:284-291 | With only blanks before the colon the name is empty, unless the text ends in a blank, where the index wraps around |
| `FhiclRewrite.ProcessDocument.FillTables` | rc/control/bookkeeping.py:770-837 | The loop terminates; each visit is the next table from where the stale offset points, and it stops when there is none, or with one of two errors; between the visited tables nothing has changed, one taken to be in `message` is as it was, and reading any other back gives the inter-subsystem nodes if it was taken to be in one of three senders and the others if not (which tables those are: `FhiclForeseen.RewritesExactly`) |
| `FhiclRewrite.NextFound` | rc/control/bookkeeping.py:829-833 | Searching the edited text from the offset into the text before the edit finds what a search of the original finds |
| `FhiclRewrite.AllTablesIfClear` | rc/control/bookkeeping.py:770-837 | In any balanced document, headers of whatever kind: the visits are all tables, each once and in order, if and only if no table starts where the search ran past a visited one longer than its replacement |
| `FhiclRewrite.ShortTablesAreClear` | rc/control/bookkeeping.py:798-831 | If no table of the document is longer than both texts that may replace it, the search never runs past anything, and the visits so far are the first tables of the document |
| `FhiclRewrite.EveryShortTableOnce` | rc/control/bookkeeping.py:770-837 | For such a document the visits are all its tables, each once and in order |
| `FhiclRewrite.StaysBalanced` | rc/control/bookkeeping.py:798-816 | A balanced document stays balanced |
| `FhiclRewrite.NeverUnclosed` | rc/control/bookkeeping.py:774-776 | On a balanced document the loop never meets an open table |
| `FhiclRewrite.FilledIsFound` | rc/control/bookkeeping.py:798-816 | A filled table is found again where it was put |
| `FhiclRewrite.FilledLists` | rc/control/bookkeeping.py:807-828 | The table found where one was put holds the node text between its braces, apart from white space |
| `FhiclRewrite.WhereWritten` | rc/control/bookkeeping.py:807-828 | Every visited table has a place in the text as it is then, in order, with unchanged text between; there it is as it was or holds its node text |
| `FhiclEnclosing.EnclosingAsJudged` | rc/control/utilities.py:278-293 | Which table the loop takes for the enclosing one depends on the document as it was at the start: if a brace opened since the search began is open at the next mention of the name, the table of the innermost one; else the last key of the document |
| `FhiclForeseen.NamesAreForeign` | rc/control/bookkeeping.py:771-773 | The two names that are rewritten are no part of the four words that are asked for |
| `FhiclForeseen.RunAsForeseen` | rc/control/bookkeeping.py:770-837 | Which tables are visited and what becomes of each is a function of the document, computed without the text as rewritten so far |
| `FhiclForeseen.TextIsRewritten` | rc/control/bookkeeping.py:798-816 | The text is the document with each visited table kept or replaced as it was judged, and nothing else changed |
| `FhiclForeseen.EveryTableOnce` | rc/control/bookkeeping.py:829-833 | The visits are all tables of the document, each once and in order, if and only if no table of the document starts in the text that the search is foreseen to run past |
| `FhiclForeseen.ShortNotOverrun` | rc/control/bookkeeping.py:829-833 | Nothing is run past if no table is longer than its replacements |
| `FhiclForeseen.KeptExactly` | rc/control/bookkeeping.py:798-831 | Of the tables visited, those directly inside `message` and no others are kept, if and only if the document has every one rightly spared |
| `FhiclForeseen.RewritesExactly` | rc/control/bookkeeping.py:770-837 | Every table of the document is visited once, kept exactly if it is directly inside `message`, and given the nodes of other subsystems exactly if it is directly inside a sender table, if and only if none is run past and every table is rightly judged |
| `FhiclForeseen.RightlyJudgedExactly` | rc/control/utilities.py:219-293 | In a document that mentions the name for tables only, all are rightly judged exactly if at each a brace opened since the search began is open, or the last key of the document happens to give the right answer |
| `FhiclForeseen.EndsWithoutError` | rc/control/bookkeeping.py:770-837 | In a balanced document with plain headers the loop ends without an error exactly if the text has a colon, its last character aside |
| `FhiclForeseen.FillOrderlyTables` | rc/control/bookkeeping.py:770-837 | The object after the loop: the text is the one foreseen from the document, balanced, and what is due for every table if and only if none is run past and all are rightly judged; then every table directly inside `message` is unchanged, and reading back every other gives the inter-subsystem nodes exactly if it is directly inside a sender |
| `FhiclMisjudged.OutsideButKept` | rc/control/bookkeeping.py:798-831 | In `a:{ x:{} x:{} } message:{}` the second table of `a` is kept, whatever the node text |
| `FhiclMisjudged.InsideButReplaced` | rc/control/bookkeeping.py:798-831 | In `message:{ x:{} x:{} } a:{}` the second table of `message` is replaced |
| `FhiclMisjudged.SenderWithin` | rc/control/bookkeeping.py:785-806 | In `binaryNetOutput:{ x:{} x:{} } a:{}` the second table of the sender lists the nodes within the subsystem |
| `FhiclMissed.SecondMissedExactly` | rc/control/bookkeeping.py:829-833 | Of two tables in a row the second is missed exactly if the first is longer than its replacement by more than one character |
| `FhiclMissed.TenHideTheNext` | rc/control/bookkeeping.py:829-833 | In `x:{yyyyyyyyyy} x:{}` with no nodes to list, one of the two tables is visited |
| `Wiring.GroupByType` | rc/control/bookkeeping.py:403-450 | The lookup by subsystem and type holds each process exactly as often as the run, by rank |
| `Wiring.BuildLookup` | rc/control/bookkeeping.py:403-450 | The precomputed lists of builders to send to and to receive from are complete and hold nothing else |
| `Wiring.Peers` | rc/control/bookkeeping.py:499-560 | The peers of a table are exactly those the flow of data asks for, each once, by rank |
| `Wiring.CreateTable` | rc/control/bookkeeping.py:452-621 | A table exists exactly for processes of known subsystems; its entries list exactly those peers with plugin and buffer size, and only the first carries the host map |
| `Wiring.Duality` | rc/control/bookkeeping.py:499-560 | A process is in a destinations table of another exactly if the other is in its sources table |
| `Wiring.FlowSpelled` | rc/control/bookkeeping.py:499-560 | Who sends to whom, type by type: event builders to dispatchers only where there is no data logger, and to the event builders of the subsystem's destination |
| `Wiring.EndsAgree` | rc/control/bookkeeping.py:472-604 | Both ends choose the same plugin; buffer sizes agree with advanced memory usage and from board readers; else exactly if the sizes set in the two FHiCL documents, or the event size of the sender's subsystem where one is not set or an event builder receives, fill the same number of 8-byte words |
| `Wiring.PluginOfSender` | rc/control/bookkeeping.py:569-589 | Both ends of a connection name the plugin configured for its sender, and only board readers, event builders and data loggers send |
| `Wiring.FragmentBuffers` | rc/control/bookkeeping.py:472-497 | From a board reader both buffers have the words of its largest fragment, which its own document sets with advanced memory usage and the settings without |
| `Wiring.EventBuffers` | rc/control/bookkeeping.py:479-497 | The other buffers have the words of the event size of the sender's subsystem, but without advanced memory usage each end goes by its own document if that sets a size, unless it is an event builder that receives |
| `Wiring.EndsMayDiffer` | rc/control/bookkeeping.py:472-604 | An event builder that sets 8000 bytes and a data logger that sets none: the tables of the two ends say 1000 and 1280 words |
| `Framing.CookieShape` | bin/rgang:1987-2003 | The parser reads back the length that was written |
| `Framing.CookieSpelled` | bin/rgang:1987-1990 | The line is "PICKLE:", eight hexadecimal digits in lower case and a colon |
| `Framing.BeginningWithheld` | bin/rgang:1631-1668 | The beginning of a cookie at the end of a read is withheld, no more and no less |
| `Framing.WithheldExactly` | bin/rgang:1631-1668 | At the end of a read exactly what begins a cookie line, up to its digits, is withheld |
| `Framing.FrameParser.LookForCookie` | bin/rgang:1775-1832 | Outside a payload, one step of the parser is one step of the function on values |
| `Framing.FrameParser.Read` | bin/rgang:1738-1837 | One read of the parser object is the function Feed |
| `Framing.FeedAdvances` | bin/rgang:1738-1837 | One read that ends at a good place passes on text and frames without losing or reordering anything |
| `Framing.RoundTrip` | bin/rgang:1738-1837 | For every cutting of the stream with no cut just before or after a cookie's line end all frames come out in order, and the text up to a withheld beginning of at most 16 characters |
| `Framing.ExactCondition` | bin/rgang:1738-1837 | The frames come out if and only if no read ends at such a place, if payloads taken for text show no cookie |
| `Framing.CutBehindLineEnd` | bin/rgang:1806-1820 | One frame, read up to its cookie's line end and then on: no payload without a cookie in it comes out |
| `Framing.FeedLoses` | bin/rgang:1806-1820 | A read that ends at such a place turns a payload into text |
| `OutputMux.Multiplexer.TakeIn` | bin/rgang:2633-2675 | An event's text is written or stored, and the node's status is updated |
| `OutputMux.Multiplexer.Handle` | bin/rgang:2633-2803 | After each event the output is that of all nodes shown so far, and of the current node up to now |
| `OutputMux.Multiplexer.Advance` | bin/rgang:3083-3173 | When the current node is gone the next ones are shown up to one that has not reported |
| `OutputMux.Run` | bin/rgang:1581-1599 | In every interleaving the output is a prefix of the nodes' outputs one after the other, and all of it once all nodes are gone |
| `Failover.Branch.AddResults` | bin/rgang:1671-1715 | Results in a pickle overwrite the statuses of the nodes they are for |
| `Failover.Branch.FillIn` | bin/rgang:2885-2902 | Nodes without a status get 3, and all are added to the overall status |
| `Failover.StepInv` | bin/rgang:2864-3064 | Every event keeps the invariant of a branch |
| `Failover.EveryNodeHasStatus` | bin/rgang:2864-3064 | Once no process runs every node has a status, a node whose place was taken has failed, and the overall status is the or of all |
| `Failover.OverallBits` | bin/rgang:2864-3064 | A bit of the overall status is set exactly if it is set in the status of some node |
| `Failover.NoFalseSuccess` | bin/rgang:2864-3064 | A node ends with status zero only if a status line, a result or the end of an rcp has said so |
| `Failover.ShellEnds` | bin/rgang:2885-2920 | A shell that ends leaves the bits of its status line and its exit status; without a status line, of 4 and its exit status |
| `Failover.SilentRgangEnds` | bin/rgang:2921-2944 | An rgang that ends without having reported on its head leaves 2 and its exit status there, and the next node becomes the head |
| `Failover.ReportingRgangEnds` | bin/rgang:2885-2902 | One that has leaves 3 for every node of its own that it has not reported on, and all other statuses as they are |
| `Failover.KilledProcess` | bin/rgang:1935-1974 | A process killed for running out of time that has reported nothing for the head leaves 8 |
| `Failover.HeadsMoveForward` | bin/rgang:2928-2944 | The head never moves back and a node has at most two processes, one outside copy mode |
| `Failover.BranchEnds` | bin/rgang:2864-3064 | At most n processes, or 2n in copy mode, end before the branch does, and one that runs can always end |
| `Failover.AllCanGoWell` | bin/rgang:2864-3064 | A branch of any length, in either mode, can end with zero for every node |
| `Failover.RunBranch` | bin/rgang:2864-3064 | Whatever its processes do, a branch that has ended has a status for every node, an overall status that is zero exactly if all are, and a failed status for each node whose place was taken; its bits are those of all statuses, and none is zero unless that was reported; nodes are tried in order, each at most twice (once outside copy mode), and n ended processes (2n in copy mode) end it |
| `ExitStatus.Or` | bin/rgang:2914-2919 | Combined statuses are zero exactly if both are |
| `ExitStatus.OrBits` | bin/rgang:2914-2919 | A bit is set exactly if it is set in one of the two |
| `Partition.CutSteps` | bin/rgang:1313-1331 | Neighbouring cuts are length / nway apart, rounded down or up, from 0 to length |
| `Partition.CutIsNearest` | bin/rgang:1313-1331 | A cut is the integer nearest to nth * length / nway, a half rounded up |
| `Partition.NearestIsOne` | bin/rgang:1313-1331 | There is only one such integer |
| `Partition.Branches` | bin/rgang:2432-2441 | The branches tile their group, none is empty, and lengths differ by at most one |
| `Partition.Divide` | bin/rgang:2232-2252 | Groups tile the nodes, each is tiled by its branches, and both start where an even division, rounded, says; there are one group, nway groups, or as few groups of the size asked for as hold all nodes, and in each nway branches or one for each node |
| `Partition.EveryNodeOnce` | bin/rgang:2415-2447 | Every node from the first one that is not this node is in exactly one branch |
| `TimerList.Timeouts.Add` | bin/rgang:1874-1907 | The binary search puts a timer after all that expire no later |
| `TimerList.Timeouts.CancelFirst` | bin/rgang:1911-1919 | Cancelling removes the first timer of the branch |
| `TimerList.InsertKeepsOrder` | bin/rgang:1885-1905 | Inserting keeps the order and all other timers |
| `TimerList.CancelTakesOne` | bin/rgang:1911-1919 | Cancelling keeps the order and all timers of other branches |
| `TimerList.AlwaysSorted` | bin/rgang:1874-1931 | With a clock that does not go back the list is sorted after every run, and appending is the same as searching |
| `TimerList.HeadExpiresFirst` | bin/rgang:1923-1931 | The head expires first |
| `TimerList.RunTimeouts` | bin/rgang:1874-1931 | After every timely sequence of adding, cancelling and expiring, the list is sorted and what searching for every place makes it, and each timer that fired was one with the earliest time of those waiting then |
| `LossAccounting.RequiredRoundsUp` | rc/control/daqinterface.py:1769-1774 | A share is rounded up, but for a millionth; the whole is the whole |
| `LossAccounting.Watch.ReadRequirements` | rc/control/daqinterface.py:1766-1853 | The list is read without error exactly if every line parses and no rule asks for more than there are; then each rule's count is exact and meets its minimum |
| `LossAccounting.Watch.Lose` | rc/control/daqinterface.py:1855-1915 | A loss covered by a rule raises exactly if it breaks a minimum, counting up to the first broken rule; one that is not, exactly if the process is critical |
| `LossAccounting.CriticalExactly` | rc/control/daqinterface.py:1896-1919 | A process is critical exactly if it is a board reader or writes to disk, or is an event builder in a run without routing manager or without another event builder |
| `LossAccounting.Watch.RemoveLost` | rc/control/manage_processes_direct.py:1002-1006 | Lost processes are removed one by one up to the first that ends the run; that one exists exactly if, all losses counted, a rule is left with fewer than its minimum or a critical process without a rule was lost |
| `LossAccounting.EndsExactly` | rc/control/daqinterface.py:1855-1915 | The run ends exactly if, all losses counted, some rule has fewer processes than its minimum, or a critical process without a rule was lost |
| `LossAccounting.SurvivedLosses` | rc/control/daqinterface.py:1855-1915 | If no loss ends the run, every count is the number of surviving labels and no minimum is broken |
| `LossAccounting.LostAreRemovable` | rc/control/manage_processes_direct.py:963-1006 | Processes taken from the run can all be removed from it |
| `Ports.ProcessTable.ReadBootFile` | rc/control/config_functions_local.py:257-294 | The processes of the boot file get the ranks behind those of the board readers, in order, and the port of their rank unless one is set |
| `Ports.ProcessTable.AddReaders` | rc/control/daqinterface.py:3310-3379 | With the board readers added, the ranks are exactly 0 to n - 1, each once, and ports not set by hand follow the ranks |
| `Ports.RanksAreExact` | rc/control/config_functions_local.py:257-260 | Counting boot-file processes from the number of board readers and board readers from 0 takes every rank below n exactly once |
| `Ports.TokenPorts` | rc/control/bookkeeping.py:978-1032 | Over all subsystems each router that serves one (a RoutingManager in it, a DFO in one of its sources) gets a token port of its own, without gaps from the base port plus 10 and the partition's offset, and nothing else does; it fails exactly if two routers of a subsystem have the same target |
| `Ports.DistinctExactly` | rc/control/bookkeeping.py:1184-1192 | Default ports of processes, token ports and table update ports of a partition are pairwise distinct exactly if every process with a default port has a rank of at least twice the number of routers less 90 |
| `Ports.FortyFiveRouters` | rc/control/bookkeeping.py:1184-1192 | So up to 45 router ids never collide, and if all ports are default ones more always do |
| `Ports.ApartExactly` | rc/control/config_functions_local.py:264-272 | No port is in use in two partitions exactly if, counted from the start of each, the ports of routers and of processes with default ports keep clear of those of the other, at the distance of the partitions |
| `Ports.DefaultsApartExactly` | rc/control/config_functions_local.py:264-272 | If all ports are default ones, exactly if the distance is at least the processes of the first and twice its router ids, and the routers of the second lie behind the processes of the first (90 more than those) or before them |
| `Ports.PartitionsApart` | rc/control/config_functions_local.py:264-272 | For any two partitions it is enough that the first has at most 45 router ids and that 90 more than its processes fit into the ports per partition |
| `Ports.Boot` | rc/control/bookkeeping.py:978-1032 | A boot gives a partition whose ranks are exactly 0 to n - 1, whose default ports are the base port plus 100, the partition's offset and the rank, and whose routers each have a token port and, as many further as there are router ids, a table update port; or fails exactly if two routers of a subsystem have the same target; up to 45 router ids no two of its ports are the same |
| `Paragraph.MakeParagraph` | rc/control/utilities.py:57-92 | Fails exactly if a long text has no white space in its first 76 characters; otherwise it terminates, changes white space only, and no line is longer than 75 characters if every 75 characters hold white space |

## Left out

- CommandRun: a bucket join is a barrier and one look at the exception flag is one step; time and timing traces are not modelled.
- RunControl: the enable, disable and trace flags, and a second request arriving between the test and the assignment inside `state_change`, are not modelled; accepting a request is one step.
- EventBookkeeping: the factor 1.1 is the exact fraction 11/10.
- FhiclSearch.FindTable: the branch for `@local::` references is not modelled, so the text is taken to hold none; names are words, for which the regular expression is a literal search.
- FhiclRewrite.ProcessDocument.FillTables: the node text is a parameter for each kind of transfer and is taken not to mention the table's name; the loops over processes and over the two table names are not modelled.
- FhiclRewrite.AllTablesIfClear: its condition is on the visits of the run; for documents with plain headers `FhiclForeseen.EveryTableOnce` has one on the document.
- FhiclForeseen.RewritesExactly: it is for balanced documents in which a mention of the name inside braces has an innermost brace with a plain header `word :{`, and for node texts that are balanced and do not mention the name.
- FragmentSpaces.Gather: what the regular expressions read from the FHiCL text is given.
- Wiring: process names are the five types, FHiCL sizes are fields of the process, and the division by 8 is exact; the text of an entry and private networks are not modelled.
- Framing.FrameParser.Read: characters stand for bytes, decoding that ignores bad UTF-8 is not modelled, and unpickling is not part of it.
- OutputMux.Run: one node a branch, one group, no ditto and no pyret, no text after a status line; stderr and timeouts are not modelled.
- Failover.EveryNodeHasStatus: one branch, statuses are not negative, and a process that is not reaped in time is one that ends with its exit status; the `--do-local` spawn of node 0 has no failover.
- Partition.Divide: fractions are exact where the program uses floating point.
- TimerList.AlwaysSorted: assumes a clock that does not go back and, outside copy mode, a single period.
- LossAccounting.Watch.Lose: whether a label matches a rule is a parameter; classifying the errors of status queries, of which one tick examines processes only up to the first that answers, is not modelled.
- Ports.ProcessTable.ReadBootFile: the parser of boot-file lines is not modelled; what it knows is the list of complete blocks, each with its port if it sets one. Port strings are numbers.
- Ports.PartitionsApart: it is a sufficient condition, for ports of any kind; the exact conditions are those of `Ports.ApartExactly` and `Ports.DefaultsApartExactly`.
- Ports.DistinctExactly: ports that a user sets by hand are not compared.
- Paragraph.MakeParagraph: the line width is the default of 75 and white space is that of ASCII.
- Process launching, ssh, log files, run records, databases, message viewers and XML-RPC are input and output only.
- Settings files, rgang's options and node specifications, pty handling and the awk converters are long chains of independent cases.
