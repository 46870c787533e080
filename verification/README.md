# A verified model of the hive test manager and its surroundings

The program runs test suites against containers. A simulator calls an HTTP API; behind it the test manager
keeps suites, test cases, client containers, networks and log ranges. This project models the manager, the
API handlers that drive it and the simulator library that calls them, and proves what holds over every run;
beside it stand the smaller cores of the repository, each proved against an independent definition.

How the files fit together:

- `ManagerSpec` is the manager as a transition system on values: one event is one call together with what the
  outside world answered (writes cut short, refused removals, failed saves). `ManagerInvariants`,
  `DetailsLog`, `ClientWindows`, `Ownership` and `Networks` prove theorems over all runs of events;
  `CallEffects` tells from the outside when each call is accepted and what it changes.
- `TestManager` (module `Manager`) is the class with the maps and counters updated in place and the loops of the
  source; each method is proved to take exactly one such step. `Terminate` is proved to be a function of the order in
  which it meets suites and tests, and `Termination` proves what that function leaves behind.
- `SimApi` has the handlers. `Scripts` reads off a test body, without any manager, which tests with which verdicts
  running it should record. `Driver` says what running tests does to the manager's state and which calls it makes;
  `Simulator` has the runner, whose methods are proved to do just that. `DriverVerdicts` (with the steps in
  `DriverProgress`) proves that the verdicts of `Scripts` end up on record, `DriverContainers` applies the run theorems
  about containers and client logs to a whole suite.
- `LinePrefix`, `TestMatch` (with `CutRule`, where a pattern is cut), `Inventory` (module `Clients`, with `BuildStrings`),
  `LogGC`, `Probe`, `ContainerNames` and `Oracle` are the smaller cores; `Selections`, `Text`, `Records` and `Wrappers` serve them all.

What the proofs found out about the code:

- `EndTest` takes the suite from its caller and nobody checks that the test is in it; a wrong suite puts the test's
  details into another suite's log (`WrongSuiteMisplacesDetails`), and exactly then (`DetailsReachOwnSuite`).
- Lending a client to the test that owns it overwrites the owning record; the container stays alive with nobody to
  stop it (`LendingToOwnerOrphans`), and exactly then (`LendingKeepsOwnerUnlessTargetOwns`). `EndTest` likewise gives up
  containers whose deletion is refused.
- `Terminate` passes one result object to every test it ends and `EndTest` modifies it, so all of them carry the range
  of the first one; for a test of another suite it leads outside its log or to unrelated text
  (`SharedResultMisplacesRange`, with the exact condition in `TerminatedRangesExactly`). A summary that cannot be saved
  leaves its suite running without any error.
- A failed save closes the details file first. Tests of the suite that is left running lose their details
  (`ClosedFileLosesText`), and exactly these do (`TextKeptExactly`).
- A pattern whose test half is invalid is reported as ignored (xrplsim/xrplsim.go:42), yet its suite half still
  filters (`InvalidTestHalfStillFilters`, `InvalidPatternIgnoredExactly`).
- The comment in `SanitizeContainerNameComponent` promises an alphanumeric first character; only one leading dash is
  dropped (`SanitizedIsNameExactly`). The generated names are fine all the same.
- A probe's cancel message can be handled too early, fail to be sent, or never be tried. `CancellableExactly` says when
  a running probe can still be cancelled; the three ways to lose that are `EarlyCancelIsLost`, `CancelMayFailToSend`
  and `CancelMayNotBeSent`.
- With an empty or repeated node name the oracle can miss a divergence (`RightExactlyIfNamesFit`).
- The nametags made from build strings can collide for builds that differ in more than one thing, even without an
  underscore in any value (`DifferentBuildsCollide`, `CollideExactly`); then the client list is refused.
- The collector relies on names being in the order of time, which holds as long as the numerals in them have the same
  number of digits (`LaterIsAboveExactly`).

Assumptions. Every manager method is one atomic step. Log files only grow, and a details file starts out empty.
Counters are unbounded integers. Container ids are fresh wherever a theorem asks for it; the ids that the manager sees
are the first eight characters of the docker ids (internal/libdocker/container.go:141), so this includes that no two
of these prefixes agree. A container that ran but did not come up counts as deleted, although the backend does not
look at whether its deletion succeeded (internal/libdocker/container.go:170, 215).

## Model

| member | source | states |
|---|---|---|
| `ManagerInvariants.ReachableInv` | internal/libhive/testmanager.go:411-593 | in every reachable state running suites and results are disjoint and together are the ids handed out; test ids are 1..counter, each in exactly one suite; tests of a suite in results have ended |
| `ManagerInvariants.RunKeepsInv` | internal/libhive/testmanager.go:411-658 | every run of calls, in any order and with any failures, keeps the partition of suites and tests, the details offsets and networks only for running suites |
| `ManagerInvariants.EndedNeverChanges` | internal/libhive/testmanager.go:545-593 | once a test has ended, its result, clients and multi-test flag are the same after any further run |
| `ManagerInvariants.EndedRejectsCalls` | internal/libhive/testmanager.go:229-238 | every later end, register, stop or mark call on an ended test is rejected and changes no record; only a container launched for a late registration may remain |
| `CallEffects.StartSuiteExactly` | internal/libhive/testmanager.go:468-505 | a suite is started unless its details file cannot be created; it gets the next id, its name, no tests and an empty details file exactly if there is a log directory, and nothing else changes |
| `CallEffects.EndSuiteExactly` | internal/libhive/testmanager.go:411-466 | a suite is ended if and only if it runs, none of its tests does and its summary can be saved; each other case has its own error; tests, logs, names and all other suites stay |
| `CallEffects.StartTestExactly` | internal/libhive/testmanager.go:507-532 | a test is started if and only if its suite runs; it gets the next id and is on record in that suite alone with its name and a zero result |
| `CallEffects.RegisterExactly` | internal/libhive/testmanager.go:619-634 | a client is registered if and only if the test runs; its record is the one handed in and no other changes |
| `CallEffects.StopExactly` | internal/libhive/testmanager.go:636-658 | a stop is accepted if and only if the running test has the client and the deletion of an owned one is not refused; only that record gives up its container |
| `CallEffects.MarkExactly` | internal/libhive/testmanager.go:228-238 | marking sets the flag of a running test and of no other |
| `CallEffects.EndTestExactly` | internal/libhive/testmanager.go:544-593 | a test is ended if and only if the named suite and the test run and there is a result; each client record then holds nothing, its window ends at the present log size if there is one and a log directory, and all else stays |
| `CallEffects.TextWritten` | internal/libhive/testmanager.go:565-617 | an open details file gets the header with the test's name, the text and two line ends as far as the write gets; the range is that of the text after a complete write and else that of all bytes written |
| `DetailsLog.EndTestLogs` | internal/libhive/testmanager.go:565-617 | the range recorded lies in what the call appended to the log, and after a complete write it selects exactly the details |
| `DetailsLog.LogOnlyGrows` | internal/libhive/testmanager.go:595-603 | a details log is only ever appended to |
| `DetailsLog.DetailsStaySelected` | internal/libhive/testmanager.go:565-617 | after any further run the range of a completely written test still selects exactly its details |
| `DetailsLog.DetailsRangesOrdered` | internal/libhive/testmanager.go:595-617 | of two calls on one suite, complete or cut short, the earlier range ends before the later one begins, at the end of any run |
| `DetailsLog.EndedOnlyOnce` | internal/libhive/testmanager.go:549-557 | two accepted calls of a run never concern the same test |
| `DetailsLog.DetailsReachOwnSuite` | internal/libhive/testmanager.go:549-569 | the block of a complete write is what is added to the log of the test's own suite if and only if the call names that suite |
| `DetailsLog.WrongSuiteMisplacesDetails` | internal/libhive/api.go:141-166 | a run, in which the last call names a running suite and a running test as the API asks, after which that test has a range beyond the end of its own suite's log |
| `DetailsLog.ClosedStaysClosed` | internal/libhive/testmanager.go:423-425 | once a details file is closed, no run of calls opens it again or adds to its log |
| `DetailsLog.TextKeptExactly` | internal/libhive/testmanager.go:565-617 | at the end of any run the text of an accepted call, with no write cut short, is on record inline or through its range if and only if the named suite's details file was not closed |
| `DetailsLog.ClosedFileLosesText` | internal/libhive/testmanager.go:423-455 | the run start suite, failed end of suite, start test, end test with a text, after which the text is neither inline nor selected |
| `ClientWindows.RunKeepsWindows` | internal/libhive/testmanager.go:572-579 | over all runs with windows begun inside growing logs, every client window of an ended test has begin <= end <= log size |
| `ClientWindows.BorrowersInOrder` | internal/libhive/api.go:461-477 | a test that borrows a client after another user has ended gets a window that starts no earlier than the other's end, and both stay on record |
| `ClientWindows.BorrowedWindow` | internal/libhive/api.go:461-485 | the borrower's window begins at the log size of the borrowing and ends inside the log |
| `ClientWindows.OwnerWindowCovers` | internal/libhive/testmanager.go:572-579 | a user who was there first and ends last has a window that contains the borrower's |
| `Ownership.RunKeepsOwnership` | internal/libhive/testmanager.go:582-588 | with fresh container ids, over all runs: at most one owning record per container, owners are running tests, owned containers are alive, every launched one is alive or removed but not both |
| `Ownership.OrphansExactly` | internal/libhive/testmanager.go:582-658 | a step leaves a live container without owner if and only if it was one before, or its owning record is overwritten, its deletion at the end of the test is refused, or its registration is too late |
| `Ownership.CarefulRunMakesNoOrphans` | internal/libhive/testmanager.go:582-658 | a run without such steps makes no orphan |
| `Ownership.DeletionsExactly` | internal/libhive/testmanager.go:582-658 | a step carries out one delete call for each container that goes, and none for any other: no delete call meets a container that is gone |
| `Ownership.DeletedAtMostOnce` | internal/libhive/testmanager.go:582-658 | over any run with fresh ids, whatever is refused, the number of delete calls carried out for a container is one if it went during the run and zero otherwise |
| `Ownership.EveryContainerDeletedOnce` | internal/libhive/testmanager.go:582-588 | from an empty manager, after a run without orphaning steps that leaves no test running, nothing is alive, the removed containers are those launched, and the count of delete calls is one for each of them and zero for all others |
| `Ownership.BorrowersRemoveNothing` | internal/libhive/api.go:461-480 | ending or stopping through a record without wait function never removes a container; what is removed was owned by the running test of the call |
| `Networks.UniqueNameInjective` | internal/libhive/testmanager.go:279-282 | backend names of different suites or networks differ |
| `Networks.UniqueNameTellsProcesses` | internal/libhive/testmanager.go:279-282 | backend names given by different processes differ |
| `Networks.MappedOnce` | internal/libhive/testmanager.go:267-275 | no two map entries share a backend network |
| `Networks.StrandedExactly` | internal/libhive/testmanager.go:301-315 | a live network loses its map entry exactly by a refused removal while its suite ends |
| `Networks.RunKeepsNetworks` | internal/libhive/testmanager.go:256-315 | over all runs every mapped network is alive under its own name, and runs without refusals strand none |
| `Networks.LiveNetworksAreMapped` | internal/libhive/testmanager.go:457-464 | after such a run from an empty manager the live networks are exactly those in the map, and all belong to running suites |
| `CallEffects.CreateNetworkExactly` | internal/libhive/testmanager.go:256-277 | a network is created if and only if the suite runs and the backend answers; it is then on record with that id and alive under its unique name, and all other entries and networks are as before |
| `CallEffects.RemoveNetworkExactly` | internal/libhive/testmanager.go:284-299 | a network is removed if and only if it is on record and its removal is not refused; exactly that entry and that network go |
| `Termination.EndTestsFrame` | internal/libhive/testmanager.go:211-219 | going through tests of a running suite never meets an error and ends exactly those that run |
| `Termination.VisitsAreSafe` | internal/libhive/testmanager.go:210-223 | terminating is a run of manager calls in any order of suites and tests, and keeps the invariants and the ownership of containers |
| `Termination.SharedResultIsSpent` | internal/libhive/testmanager.go:202-215 | after the first test the shared result has no text left where there is a log directory, and is still failed and timed out |
| `Termination.TerminationComplete` | internal/libhive/testmanager.go:201-226 | in any order: no error, no running test, suites left exactly if unsaved, ended tests keep their records, all others carry the one failed, timed-out result, and nothing is owned |
| `Termination.TerminatedRangesExactly` | internal/libhive/testmanager.go:202-219 | for any outcome of the writes, the range of a terminated test selects the text in its own suite's log if and only if the first write was complete, for a test of the suite of the first test ended, or its unchanged log has that text at that place, for any other |
| `Termination.SharedResultMisplacesRange` | internal/libhive/testmanager.go:202-219 | two suites with a running test each and only good answers: the second test ends with a range beyond its suite's log |
| `Termination.SuiteCanEnd` | internal/libhive/testmanager.go:411-466 | a suite without running tests can be ended, unless its summary cannot be saved |
| `Manager.CaptureLogEnds` | internal/libhive/testmanager.go:572-579 | the loop closes the window of every client, and only where there is one and a log directory |
| `Manager.StopClients` | internal/libhive/testmanager.go:582-588 | the loop makes one delete call for each record that holds a container, removes those not refused, and gives up all records |
| `Manager.TestManager.constructor` | internal/libhive/testmanager.go:121-141 | a new manager is in the initial state of the transition system |
| `Manager.TestManager.StartTestSuite` | internal/libhive/testmanager.go:468-505 | takes the StartSuite step: a failure to create the details file changes nothing |
| `Manager.TestManager.StartTest` | internal/libhive/testmanager.go:507-532 | takes the StartTest step: the new test is running and in the named suite alone |
| `Manager.TestManager.EndTest` | internal/libhive/testmanager.go:544-593 | takes the EndTest step whatever the write and the deletions come to, leaves the recorded value in the caller's result object, and makes one delete call for each record that holds a container |
| `Manager.TestManager.WriteTestDetails` | internal/libhive/testmanager.go:595-617 | appends the accepted part of the block, moves the offset by as much, and returns the range with or without header according to the outcome |
| `Manager.TestManager.RegisterNode` | internal/libhive/testmanager.go:619-634 | takes the Register step: a late registration is rejected while its container stays |
| `Manager.TestManager.GetNodeInfo` | internal/libhive/testmanager.go:240-254 | finds a client exactly for running tests that have it |
| `Manager.TestManager.StopNode` | internal/libhive/testmanager.go:636-658 | takes the Stop step: only an owner's call deletes, and a refused deletion keeps the owner |
| `Manager.TestManager.SetMultiTestContext` | internal/libhive/testmanager.go:228-238 | takes the Mark step |
| `Manager.TestManager.CreateNetwork` | internal/libhive/testmanager.go:256-277 | takes the CreateNetwork step, which CallEffects.CreateNetworkExactly characterises: every network of a running suite that the backend makes is recorded |
| `Manager.TestManager.RemoveNetwork` | internal/libhive/testmanager.go:284-299 | takes the RemoveNetwork step: a refused removal keeps the entry |
| `Manager.TestManager.PruneNetworks` | internal/libhive/testmanager.go:301-315 | removes exactly the suite's networks that are not refused, forgets all of them, and reports errors exactly if one was refused |
| `Manager.TestManager.EndTestSuite` | internal/libhive/testmanager.go:403-466 | takes the EndSuite step: rejected while a test of the suite runs; a failed save only closes the details file |
| `Manager.TestManager.EndRunningTests` | internal/libhive/testmanager.go:211-220 | with the early return on an error, does what going through the tests in the order met does, and meets all of them unless there is an error |
| `Manager.TestManager.EndAll` | internal/libhive/testmanager.go:210-225 | the loop over the suites with its early return does what going through the visits does, each running suite met once with all its own tests unless there is an error |
| `Manager.TestManager.Terminate` | internal/libhive/testmanager.go:198-226 | never returns an error, although one would be passed on; is a run of manager calls, leaves no running test and no owned container; a suite stays running exactly if its save failed; ended tests keep their records, the others all carry one failed, timed-out result |
| `Api.SimApi.StartSuite` | internal/libhive/api.go:75-94 | empty names and failures are refused without effect, otherwise the next suite id is returned |
| `Api.SimApi.EndSuite` | internal/libhive/api.go:96-110 | accepted exactly if the manager's step is |
| `Api.SimApi.StartTest` | internal/libhive/api.go:112-137 | refused exactly for suites not running and empty names, without effect; otherwise the next test id is returned |
| `Api.SimApi.EndTest` | internal/libhive/api.go:139-166 | accepted exactly if suite and test are both running, whether or not they belong together |
| `Api.SimApi.StopClient` | internal/libhive/api.go:368-386 | takes the Stop step if suite and test are running and none otherwise, and is accepted exactly if that step is |
| `Api.SimApi.StartClient` | internal/libhive/api.go:297-333 | a client that ran is registered with the test as its owner if it came up, with a window that begins inside its log, and for a new container as a fresh owner |
| `Api.StartedClientRecord` | internal/libhive/api.go:299-310 | a client is recorded under its container's id and its own name, held exactly if it came up, with a window that begins at the present size of its own log |
| `Api.LogPathTellsContainers` | internal/libhive/api.go:335-344 | different containers get different log files, whatever their clients are called |
| `Api.SimApi.RegisterMultiTestNode` | internal/libhive/api.go:428-496 | refused unless the target is in the suite and running and the source has the client; otherwise the target gets the copy and the source is marked |
| `Api.LoanExactly` | internal/libhive/api.go:461-492 | an accepted loan gives the target a copy that holds nothing and whose window begins at the present log size, sets the source's flag, and changes no other flag or record |
| `Api.LendingKeepsOwnerUnlessTargetOwns` | internal/libhive/api.go:461-485 | lending gives a proper window without ownership, and the container keeps its owner if and only if the target is not the owner |
| `Api.LendingToOwnerOrphans` | internal/libhive/api.go:461-485 | a run of a suite, a test and a client, after which the test lending the client to itself leaves its container alive without an owner |
| `Scripts.ClientTestNameMentionsClient` | xrplsim/testapi.go:450-459 | the name of a client test always contains the client type |
| `Scripts.ClientTestNameExactly` | xrplsim/testapi.go:450-459 | the name of a client test is the client type if it has none, its own with every CLIENT replaced if there is one, and else its own with the client type in parentheses |
| `Scripts.MatchingExactly` | xrplsim/testapi.go:389-394 | a client type is selected if and only if it is offered and has the role, if one is given |
| `Scripts.MatchingSelects` | xrplsim/testapi.go:421-428 | the selected client types are those at an increasing sequence of exactly the admissible positions of the list |
| `Scripts.ClientTestsRecorded` | xrplsim/testapi.go:384-413 | a client test is on record once for each client type that has its role, in the order of the list, as far as the pattern lets it through |
| `Scripts.NetworkStartsSelected` | xrplsim/testapi.go:421-445 | a network test starts one client of each type that has its role, in the order of the list |
| `Scripts.PassesExactly` | xrplsim/testapi.go:307-319 | a test passes exactly if its clients are of known types and come up, and no call reached is a Fail, a FailNow, a panic or a start of a client that does not come up |
| `Scripts.ReachedExactly` | xrplsim/testapi.go:314-319 | a call is reached exactly if no earlier one is a FailNow, a panic or a start of a client that does not come up |
| `Scripts.LoggedExactly` | xrplsim/testapi.go:281-298 | the text of a test is what its calls log as far as they are reached: logged text, what a panic says, and complaints about clients that do not come up |
| `Scripts.ComplaintExactly` | xrplsim/testapi.go:217-222 | when clients do not start, the complaint is that about the first of them |
| `Scripts.CleanMeansNoFailure` | xrplsim/testapi.go:307-319 | a body is clean exactly if no call that is reached fails the test |
| `Scripts.NothingAfterStop` | xrplsim/testapi.go:314-319 | nothing after a call that does not return has an effect on verdict, text or subtests |
| `DriverVerdicts.StartGrew` | xrplsim/testapi.go:217-224 | the test goes on exactly if the client starts; if not it has failed with the complaint logged; only the test's own client records change |
| `DriverVerdicts.CallsGrew` | xrplsim/testapi.go:366-380 | after the first calls of a body, pass flag, text and subtests on record are those read off the calls that are reached, and the next call is made exactly if all of them return |
| `DriverVerdicts.TestGrew` | xrplsim/testapi.go:340-382 | a test adds to the record exactly itself and its subtests with the verdicts read off the bodies, all ended, and changes nothing else; it fails exactly if it is let through without a name |
| `DriverVerdicts.ClientsGrew` | xrplsim/testapi.go:384-413 | one test for each client type selected by the role (Scripts.ClientTestsRecorded), in order, up to the first one that cannot be registered |
| `DriverVerdicts.SpecGrew` | xrplsim/testapi.go:384-472 | each kind of test adds exactly its tests with their verdicts |
| `DriverVerdicts.SuiteOnRecordAfter` | xrplsim/testapi.go:63-84 | a suite that can be started ends accepted, unless it cannot be saved, with exactly its tests on record, none running, and all that was there before unchanged |
| `Driver.SuiteIsRun` | xrplsim/testapi.go:63-84 | running a suite is a run of manager calls that registers clients under their own ids with running tests and proper windows only |
| `DriverContainers.SuiteLeavesNoContainers` | xrplsim/testapi.go:63-84 | with fresh ids and no refused deletion, exactly the containers alive before a suite are alive after it, and each one launched was deleted exactly once |
| `DriverContainers.SuiteKeepsWindows` | xrplsim/testapi.go:63-84 | whatever is refused or reused, running a suite keeps the windows of all clients proper |
| `Simulator.Simulation.StartClient` | xrplsim/testapi.go:217-224 | does what Driver says for starting a client: registers it through the API and fails the test if that is refused |
| `Simulator.Simulation.StartClients` | xrplsim/testapi.go:440-445 | the loop stops at the first client that does not start |
| `Simulator.Simulation.RunBody` | xrplsim/testapi.go:366-380 | the loop over the calls of a body stops at the first that does not return |
| `Simulator.Simulation.RunTest` | xrplsim/testapi.go:340-382 | filters, registers, runs and reports a test as Driver says, so that DriverVerdicts.TestGrew applies |
| `Simulator.Simulation.RunForClients` | xrplsim/testapi.go:384-413 | the loop over all client types skips those without the role, runs the test for the others in order, and stops at the first test that cannot be registered |
| `Simulator.Simulation.MatchingClients` | xrplsim/testapi.go:421-428 | the loop over all client types collects those that have the role |
| `Simulator.Simulation.RunSpec` | xrplsim/testapi.go:415-472 | runs each kind of test as Driver says, so that DriverVerdicts.SpecGrew applies |
| `Simulator.Simulation.RunSuite` | xrplsim/testapi.go:63-84 | a suite that is let through ends accepted (unless it cannot be saved) with exactly its tests on record, each pass flag true exactly if no reached call failed or panicked; the run consists of the manager calls returned, keeps client windows proper, and with fresh ids and no refused deletion leaves exactly the containers alive before, each launched one deleted once |
| `DriverProgress.TestCompleted` | xrplsim/testapi.go:354-381 | a test whose subtests ran inside it ends with its own verdict before theirs in the order of ids, and nothing else changed |
| `DriverProgress.SuiteFinished` | xrplsim/testapi.go:72-83 | after its tests a suite can be ended, and then has exactly the tests added since it was started |
| `LinePrefix.LinePrefixWriter.Write` | internal/libdocker/container.go:514-529 | feeds the bytes to the stream, counts all of them, and reports an error exactly if the last line flushed failed |
| `LinePrefix.LinePrefixWriter.Close` | internal/libdocker/container.go:531-540 | passes on an unfinished line with a line end, and nothing if the line is empty |
| `LinePrefix.ChunksDoNotMatter` | internal/libdocker/container.go:514-529 | any cutting of the input into Write calls leaves the same buffer and the same output |
| `LinePrefix.FeedSplitsLines` | internal/libdocker/container.go:514-529 | output and buffer are the prefixed complete lines and the prefixed rest of the whole text |
| `LinePrefix.OutputDependsOnTextOnly` | internal/libdocker/container.go:499-540 | after Close the output is each line of the concatenated input with the prefix, a last unfinished line completed |
| `LinePrefix.PiecesAreLines` | internal/libdocker/container.go:514-540 | every piece of output is the prefix, a text without line ends and a line end |
| `LinePrefix.StripRecoversInput` | internal/libdocker/container.go:499-540 | taking the prefixes off the output gives the input back up to that one line end |
| `TestMatch.SplitRegexp` | xrplsim/testmatch.go:44-77 | the re-slicing loop ends and agrees with one pass over the whole pattern that cuts at slashes outside brackets that are not escaped |
| `CutRule.CutExactly` | xrplsim/testmatch.go:44-77 | a position is a cut if and only if it holds a slash behind an even run of backslashes, outside classes, with as many unescaped groups opened as closed before it outside classes |
| `CutRule.CutInPartExactly` | xrplsim/testmatch.go:64-72 | for the groups it is enough to count from the beginning of the part |
| `CutRule.EscapeHides` | xrplsim/testmatch.go:64-65 | a slash behind an odd run of backslashes is never a cut |
| `CutRule.OpenClassHides` | xrplsim/testmatch.go:50-55 | a slash behind an unescaped opening bracket that no unescaped closing one followed is never a cut |
| `CutRule.PlainSplit` | xrplsim/testmatch.go:41-77 | a text without brackets, parentheses and backslashes is split at every slash |
| `TestMatch.SplitIsTheOnlyOne` | xrplsim/testmatch.go:41-77 | the parts are the split if and only if they are atomic, all but the last balanced, and join to the pattern |
| `TestMatch.PartsStayWhole` | xrplsim/testmatch.go:41-77 | splitting a part again gives just that part |
| `TestMatch.PatternIsCutOnce` | xrplsim/testmatch.go:14-28 | of a valid pattern the suite expression is the text before the first cut and the test expression all that follows it |
| `TestMatch.ValidPatternFilters` | xrplsim/testmatch.go:14-39 | a valid pattern lets a suite through exactly if its first part is found in the name, and a test of it exactly if the further parts, if any, are found in the test's name |
| `TestMatch.InvalidPatternIgnoredExactly` | xrplsim/testmatch.go:14-39 | after an error the matcher lets everything pass if and only if the suite half is the invalid one |
| `TestMatch.InvalidTestHalfStillFilters` | xrplsim/testmatch.go:14-39 | the pattern a/( is rejected, and a suite b does not pass the matcher returned |
| `Clients.ComputeBuildString` | internal/libhive/inventory.go:201-217 | the accumulating loop gives the build string, which BuildStrings.BuildStringHolds characterises |
| `BuildStrings.BuildStringHolds` | internal/libhive/inventory.go:201-217 | it joins the Dockerfile extension if any, the tag if any, and each other key followed by its value, each once and in ascending order of the keys |
| `BuildStrings.ExtensionTells` | internal/libhive/inventory.go:203-205 | entries that differ in the Dockerfile extension alone have different build strings |
| `BuildStrings.ArgumentTells` | internal/libhive/inventory.go:206-216 | so have entries that differ in one argument alone, set differently or in one of them only, except for a missing and an empty tag |
| `BuildStrings.CollideExactly` | internal/libhive/inventory.go:201-217 | two build strings are the same if and only if what the entries hold has the same pieces between underscores |
| `BuildStrings.DifferentBuildsCollide` | internal/libhive/inventory.go:201-217 | two pairs of different builds with the same build string, one with an underscore inside a value and one without any |
| `BuildStrings.OccurrencesCounted` | internal/libhive/inventory.go:318-319 | the number of builds of a client is the number of its entries |
| `BuildStrings.TagsTellApart` | internal/libhive/inventory.go:350-351 | there are as many tags as builds of a client exactly if no two of its builds have the same tag |
| `BuildStrings.NamesDifferExactly` | internal/libhive/inventory.go:348-357 | two builds of a client without nametags get different names if and only if the tags tell all its builds apart or their build strings differ |
| `BuildStrings.ExtensionsGetNames` | internal/libhive/inventory.go:348-357 | two builds that differ in the Dockerfile extension alone get different names |
| `BuildStrings.ArgumentsGetNames` | internal/libhive/inventory.go:348-357 | two builds that differ in one argument alone get the same name if and only if that is the tag, missing in one and empty in the other |
| `Clients.ParsesExactly` | internal/libhive/inventory.go:259-276 | a string parses to an entry if and only if the entry reads as the string, the tag being what follows the last underscore |
| `Clients.ParseFailsExactly` | internal/libhive/inventory.go:259-276 | a string is refused for its tag exactly if it ends in an underscore, and for its client exactly if it is empty or its only underscore comes first |
| `Clients.CountClients` | internal/libhive/inventory.go:315-338 | succeeds exactly if every client and Dockerfile is known, with the number of builds and the set of tags of each client; the error is that of the first offending entry |
| `Clients.ValidateClients` | internal/libhive/inventory.go:314-365 | succeeds exactly if all clients are known and the names of shared entries distinct; the array then has all nametags filled in, after a clash those up to the first taken name, otherwise none |
| `Clients.ValidatedNames` | internal/libhive/inventory.go:340-362 | on success only empty nametags of shared entries have changed, and two entries of one client have different names |
| `Clients.ParsedNames` | internal/libhive/inventory.go:238-251 | the name of a parsed shared entry is its string, so names are distinct exactly if the strings are |
| `Clients.ParseClientList` | internal/libhive/inventory.go:238-251 | succeeds exactly if every string parses, every client is in the inventory and the strings are pairwise distinct; each entry is named after its string |
| `LogGC.LogDir.Collect` | cmd/hiveview/gc.go:13-74 | leaves exactly the files that the retention rule refers to or whose removal is refused; an unreadable directory is left alone |
| `LogGC.SurvivesExactly` | cmd/hiveview/gc.go:36-66 | a file survives if and only if it is the status file, its removal is refused, or it is a kept summary or named in one as simulator log, details log if any, or log of a client of any of its tests |
| `LogGC.SummaryExactly` | cmd/hiveview/listing.go:113-160 | a file counts as a summary exactly if it lies directly in the directory, ends in .json, is not one of three other files, does not begin with a dot, and decodes to a named suite |
| `LogGC.LogDir.ChooseFiles` | cmd/hiveview/gc.go:24-48 | the greedy walk in descending name order collects exactly the files of the suites that the rule keeps |
| `LogGC.LogDir.AddSuiteFiles` | cmd/hiveview/gc.go:35-46 | the nested loops over tests and clients add exactly the files of the suite |
| `LogGC.WalkOne` | cmd/hiveview/listing.go:103-126 | when a summary is met, the greedy test on the number kept so far agrees with the rule |
| `LogGC.LaterIsAboveExactly` | cmd/hiveview/listing.go:108-111 | of two summaries the later one is met first exactly if its numeral comes later as a text, hence always if both numerals have the same number of digits |
| `LogGC.LongerNumeralComesLast` | cmd/hiveview/listing.go:108-111 | a second with one digit more comes last in the walk |
| `LogGC.TopMembers` | cmd/hiveview/gc.go:26-36 | of any set of summaries exactly the smaller of the minimum and its size have fewer than the minimum above them |
| `LogGC.KeepsEnough` | cmd/hiveview/gc.go:26-36 | suites not older than the cutoff are all kept, and at least the smaller of the minimum and the number of suites |
| `LogGC.RecentSuitesSurvive` | cmd/hiveview/gc.go:76-81 | all files of a suite whose tests all started at the cutoff or later survive, whichever test gives its start |
| `LogGC.RemovedExactly` | cmd/hiveview/gc.go:56-73 | a file goes if and only if it is not the status file, not refused and no kept suite refers to it |
| `LogGC.SameKeptAgain` | cmd/hiveview/gc.go:25-48 | any set of summaries between the kept ones and all of them leads to the same kept suites |
| `LogGC.CollectTwice` | cmd/hiveview/gc.go:13-74 | two collections do what one does in which only the removals refused both times are refused |
| `LogGC.CollectIsIdempotent` | cmd/hiveview/gc.go:13-74 | a second run deletes nothing, even if log paths name summary files |
| `LogGC.CollectIsMonotone` | cmd/hiveview/gc.go:26-30 | an earlier cutoff and a larger minimum keep a superset of suites and files |
| `Probe.ProxyFunctions.MakeContext` | hiveproxy/checklive.go:57-77 | registers a new context under the id, or reaches the panic exactly if the id is in use |
| `Probe.ProxyFunctions.Cleanup` | hiveproxy/checklive.go:70-75 | cancels the probe's own context and drops the entry |
| `Probe.ProxyFunctions.Cancel` | hiveproxy/checklive.go:79-88 | cancels the context registered under the id and drops the entry; an unknown id changes nothing |
| `Probe.RegisteredExactly` | hiveproxy/checklive.go:57-88 | over all interleavings the panic is never reached, and an id is registered if and only if its probe runs and no cancel message for it was handled since it began |
| `Probe.OneCancelPerCall` | hiveproxy/proxy.go:79-111 | no message is sent or handled twice; a cancel message is sent only for a call whose context is done |
| `Probe.CancelHitsOwnProbeOnly` | hiveproxy/checklive.go:79-88 | in every reachable state handling a cancel message changes no context but that of the running probe with its id |
| `Probe.NothingLeftBehind` | hiveproxy/checklive.go:70-76 | entries belong to running probes only, and when none runs the registry is empty and every context released |
| `Probe.EarlyCancelIsLost` | hiveproxy/checklive.go:79-88 | a cancel message handled before its probe has no effect |
| `Probe.CancelMayNotBeSent` | hiveproxy/proxy.go:98-111 | the call may return on its done context with the relay stopping before it sends |
| `Probe.CancelMayFailToSend` | hiveproxy/proxy.go:101-105 | sending the cancel message may fail, which leaves the probe running for good |
| `Probe.HopelessForGood` | hiveproxy/proxy.go:98-111 | once no cancel message is on the wire or can be sent and none was handled in time, the probe is not cancelled in any later state while it runs |
| `Probe.CancellableExactly` | hiveproxy/proxy.go:98-111 | in every reachable state a running probe can be cancelled in some continuation if and only if its cancellation is not hopeless in that sense |
| `ContainerNames.SanitizeContainerNameComponent` | internal/libhive/data.go:50-81 | the loop agrees with replacing each character on its own and dropping at most one leading dash |
| `ContainerNames.SanitizedIsNameExactly` | internal/libhive/data.go:48-81 | the result has admissible characters only, and is a name of its own if and only if one of the first two characters is alphanumeric or there is just one |
| `ContainerNames.SanitizedUnchangedExactly` | internal/libhive/data.go:48-81 | sanitizing changes nothing exactly for names and the empty string |
| `ContainerNames.SanitizedPointwise` | internal/libhive/data.go:55-78 | each character is kept where admissible and replaced by a dash where not, from the first one on or from the second |
| `ContainerNames.NameHoldsParts` | internal/libhive/data.go:83-93 | the name begins with the sanitized type and then the sanitized identifier, if there is one, and ends with the time |
| `ContainerNames.CounterReadBack` | internal/libhive/data.go:83-93 | the counter can be read back from a name, whatever the identifier holds |
| `ContainerNames.NameIsAccepted` | internal/libhive/data.go:83-93 | every generated name is one that Docker accepts |
| `ContainerNames.NameGenerator.Generate` | internal/libhive/data.go:83-93 | each call uses the next counter value |
| `ContainerNames.NamesAreDistinct` | internal/libhive/data.go:83-93 | the names of any series of calls are accepted and pairwise distinct |
| `Oracle.CompareAtSequence` | xrplsim/oracle.go:39-86 | fails at the first node that is not ready; otherwise reports the hashes, errors and divergences of some iteration order, agreed exactly if the last two are empty |
| `Oracle.ServedExactly` | xrplsim/oracle.go:54-63 | the hash on record for a name is the last one served under it |
| `Oracle.ErrorsListed` | xrplsim/oracle.go:55-61 | the errors name exactly the nodes from which nothing could be fetched, in order |
| `Oracle.DivergencesAreReal` | xrplsim/oracle.go:70-83 | for any names and order, a reported divergence means that two nodes served different hashes |
| `Oracle.DivergencesListed` | xrplsim/oracle.go:70-83 | with non-empty names there is one record for each name whose hash differs from that of the first one visited, with both names and hashes |
| `Oracle.DisagreementIsReported` | xrplsim/oracle.go:65-83 | with distinct non-empty names a disagreement is reported in every iteration order |
| `Oracle.VerdictExactly` | xrplsim/oracle.go:54-86 | with such names agreed means that all nodes served the same hash, divergences mean that two differ, and neither means only fetch errors |
| `Oracle.RightExactlyIfNamesFit` | xrplsim/oracle.go:65-83 | the report is right for all hashes and orders if and only if the names are distinct and none is empty beside others |

## Left out

- Lock-level concurrency: manager methods are atomic steps. Nothing is claimed about deadlocks; the network and suite locks are taken in both orders (internal/libhive/testmanager.go:318-322, 406, 311).
- Shared objects: test suites, test cases and client records are values in maps under their ids, and the manager's maps of pointers are sets of ids. An update is seen through all of them, but pointer identity as such is not modelled. A borrowed client record is a copy in the source too.
- Counter wrap-around at 32 or 64 bits, and the truncation of ids parsed from URLs.
- Docker, HTTP, JSON, multipart forms and YAML: their outcomes are parameters of the calls.
- Client versions, run metadata, descriptions, timestamps and the written summary file.
- Pausing, exec, container addresses, connecting to networks, and the environment and port of a started client.
- Manager.TestManager.EndTest: the wait for a deleted container to stop is not modelled.
- Simulator.Simulation.RunTest: a body is the sequence of calls it makes on its test; subtests run one after another, although the library allows several goroutines; logged text is taken as already formatted.
- Simulator.Simulation.RunSpec: `RunClient` is a plain test that starts its client first and is not modelled apart; fetching the client types does not fail.
- TestMatch.PatternIsCutOnce: which expressions compile and what they match is up to an arbitrary predicate.
- Clients.ValidatedNames: entries that are the only build of their client are skipped by the source, so a name may repeat across clients.
- Clients.ValidateClients: warnings about unknown build arguments, and the inventory's directory scan.
- LogGC.LogDir.Collect: the start of each suite is fixed for a run; the printed number and oldest date are left out, and so is the listing page.
- Probe.RegisteredExactly: the TCP dialling loop and the loss of the connection, except that a send may fail and a call may return at any time.
- ContainerNames.NamesAreDistinct: the time is any text of the layout, so years beyond 9999 are out.
- Oracle.CompareAtSequence: waiting for validation is an outcome per node, and a divergence is a record and not a sentence.
- LinePrefix.LinePrefixWriter.Write: reuse of the buffer's memory, and partial writes of the wrapped writer.
- The checks under simulators/ and the ledger rules they probe, the web interface, the build of images and the command line.
