/** The forced end of everything that runs: Terminate as a function of the order in which it meets suites and
    tests, and what it leaves behind. */
module Termination {
  import opened Wrappers
  import opened Records
  import opened ManagerSpec
  import opened ManagerInvariants
  import opened DetailsLog
  import opened Ownership

  const TERMINATED := TestResult(false, true, "Test was terminated by host", None)

  /** What becomes of the details written for each test, of deletions, of summaries and of networks. */
  datatype Answers = Answers(io: nat -> WriteOutcome, refused: set<string>, saved: nat -> bool, stuck: set<string>)

  /** A suite that the loop meets, with its tests in the order in which they are met. */
  datatype Visit = Visit(suite: nat, tests: seq<nat>)

  /** `result` is the content of the one result object that is passed to every call; `reply` is the first
      error, which ends the loops. */
  datatype Progress = Progress(state: State, result: TestResult, reply: Reply)

  function Start(s: State): Progress { Progress(s, TERMINATED, Done) }

  function EndOne(p: Progress, i: nat, t: nat, env: Answers): Progress {
    if p.reply.Rejected? || t !in p.state.active then p
    else
      var out := ApplyEndTest(p.state, i, t, Some(p.result), env.io(t), env.refused);
      Progress(out.state, if out.reply.Done? then out.state.cases[t].result else p.result, out.reply)
  }

  function EndTests(p: Progress, i: nat, order: seq<nat>, env: Answers): Progress {
    if order == [] then p else EndOne(EndTests(p, i, order[..|order| - 1], env), i, order[|order| - 1], env)
  }

  /** What comes of ending the suite is not looked at. */
  function EndVisit(p: Progress, i: nat, env: Answers): Progress {
    if p.reply.Rejected? then p else p.(state := ApplyEndSuite(p.state, i, env.saved(i), env.stuck).state)
  }

  function VisitAll(p: Progress, visits: seq<Visit>, env: Answers): Progress {
    if visits == [] then p
    else
      var v := visits[|visits| - 1];
      EndVisit(EndTests(VisitAll(p, visits[..|visits| - 1], env), v.suite, v.tests, env), v.suite, env)
  }

  /** Each running suite is met at most once, and only its own tests are met in it. */
  ghost predicate Proper(s: State, visits: seq<Visit>) {
    && (forall k | 0 <= k < |visits| :: visits[k].suite in s.running && OwnTests(s, visits[k]))
    && forall j, k | 0 <= j < k < |visits| :: visits[j].suite != visits[k].suite
  }

  ghost predicate OwnTests(s: State, v: Visit) { forall t | t in v.tests :: InSuite(s, v.suite, t) }

  /** All running suites are met, and all of their tests. */
  ghost predicate Full(s: State, visits: seq<Visit>) { Visited(visits) == s.running && Thorough(s, visits) }

  ghost predicate Thorough(s: State, visits: seq<Visit>) { forall k | 0 <= k < |visits| :: AllTests(s, visits[k]) }

  ghost predicate AllTests(s: State, v: Visit) { forall t: nat | InSuite(s, v.suite, t) :: t in v.tests }

  ghost function Visited(visits: seq<Visit>): set<nat> { set k | 0 <= k < |visits| :: visits[k].suite }

  // The first test that is ended

  datatype First = NotYet | First(suite: nat, test: nat)

  function FirstIn(s: State, f: First, i: nat, order: seq<nat>): First {
    if order == [] then f
    else
      var g, t := FirstIn(s, f, i, order[..|order| - 1]), order[|order| - 1];
      if g.First? || t !in s.active then g else First(i, t)
  }

  function FirstEnded(s: State, visits: seq<Visit>): First {
    if visits == [] then NotYet
    else
      var v := visits[|visits| - 1];
      FirstIn(s, FirstEnded(s, visits[..|visits| - 1]), v.suite, v.tests)
  }

  ghost predicate IsTest(s: State, f: First) { f.First? ==> InSuite(s, f.suite, f.test) && f.test in s.cases }

  /** The result object takes its final value when the first test ends: the text goes to the details file of
      that test's suite, and there is none left for the others. */
  ghost function SharedResult(s0: State, f: First, env: Answers): TestResult
    requires IsTest(s0, f)
  {
    if f.NotYet? then TERMINATED
    else Recorded(s0.suites[f.suite], s0.cases[f.test].name, TERMINATED, env.io(f.test))
  }

  ghost function LogAfter(s0: State, f: First, i: nat, env: Answers): string
    requires IsTest(s0, f) && i in s0.suites
  {
    if f.First? && f.suite == i
    then AfterDetails(s0.suites[i], s0.cases[f.test].name, TERMINATED, env.io(f.test)).log
    else s0.suites[i].log
  }

  // What every step keeps

  /** Only suites and tests have ended since `s0`; which test is in which suite is as it was. */
  ghost predicate OnlyEnded(s0: State, s: State) {
    && s.logDir == s0.logDir && s.active <= s0.active && s.cases.Keys == s0.cases.Keys
    && s.suites.Keys == s0.suites.Keys && (forall i | i in s.suites :: s.suites[i].tests == s0.suites[i].tests)
  }

  /** The tests ended since `s0` carry `r`, and all other records are as they were. */
  ghost predicate ResultShared(s0: State, s: State, r: TestResult)
    requires OnlyEnded(s0, s)
  {
    forall t | t in s0.cases ::
      if t in s0.active && t !in s.active then s.cases[t] == s0.cases[t].(result := r, clients := s.cases[t].clients)
      else s.cases[t] == s0.cases[t]
  }

  /** The logs, and before the first test has ended also the details files that are still needed. */
  ghost predicate LogsPlaced(s0: State, s: State, f: First, env: Answers)
    requires OnlyEnded(s0, s)
  {
    && IsTest(s0, f) && (f.NotYet? ==> s.active == s0.active)
    && (forall i | i in s0.suites :: s.suites[i].log == LogAfter(s0, f, i, env))
    && (f.NotYet? ==> forall i: nat, t: nat | InSuite(s0, i, t) && t in s.active :: s.suites[i] == s0.suites[i])
  }

  ghost predicate Safe(s0: State, s: State) { Inv(s) && Follows(s0, s) && (OwnershipOk(s0) ==> OwnershipOk(s)) }

  ghost predicate Terminating(s0: State, p: Progress, f: First, env: Answers) {
    && p.reply == Done && OnlyEnded(s0, p.state) && ResultShared(s0, p.state, p.result)
    && LogsPlaced(s0, p.state, f, env) && p.result == SharedResult(s0, f, env)
  }

  lemma Begins(s: State, env: Answers)
    requires Inv(s)
    ensures Safe(s, s) && Terminating(s, Start(s), NotYet, env)
  {
    assert Run(s, []) == s;
  }

  lemma EndTestIsSafe(s0: State, s: State, i: nat, t: nat, r: TestResult, io: WriteOutcome, refused: set<string>)
    requires Safe(s0, s)
    ensures Safe(s0, ApplyEndTest(s, i, t, Some(r), io, refused).state)
  {
    FollowsOn(s0, s, EndTest(i, t, Some(r), io, refused));
    EndTestKeepsInv(s, i, t, Some(r), io, refused);
    if OwnershipOk(s0) {
      EndTestKeepsOwnership(s, i, t, Some(r), io, refused);
    }
  }

  lemma EndSuiteIsSafe(s0: State, s: State, i: nat, saved: bool, stuck: set<string>)
    requires Safe(s0, s)
    ensures Safe(s0, ApplyEndSuite(s, i, saved, stuck).state)
  {
    FollowsOn(s0, s, EndSuite(i, saved, stuck));
    EndSuiteKeepsInv(s, i, saved, stuck);
    EndSuiteIsQuiet(s, i, saved, stuck);
    if OwnershipOk(s0) {
      QuietStepKeepsOwnership(s, ApplyEndSuite(s, i, saved, stuck).state);
    }
  }

  lemma {:induction false} EndTestsIsSafe(s0: State, p: Progress, i: nat, order: seq<nat>, env: Answers)
    requires Safe(s0, p.state)
    ensures Safe(s0, EndTests(p, i, order, env).state)
    decreases |order|
  {
    if order != [] {
      EndTestsIsSafe(s0, p, i, order[..|order| - 1], env);
      var q := EndTests(p, i, order[..|order| - 1], env);
      EndTestIsSafe(s0, q.state, i, order[|order| - 1], q.result, env.io(order[|order| - 1]), env.refused);
    }
  }

  /** Terminating is a run of manager calls, so it keeps what every run keeps. */
  lemma {:induction false} VisitsAreSafe(s0: State, visits: seq<Visit>, env: Answers)
    requires Inv(s0)
    ensures Safe(s0, VisitAll(Start(s0), visits, env).state)
    decreases |visits|
  {
    Begins(s0, env);
    if visits != [] {
      var v := visits[|visits| - 1];
      VisitsAreSafe(s0, visits[..|visits| - 1], env);
      var p := VisitAll(Start(s0), visits[..|visits| - 1], env);
      EndTestsIsSafe(s0, p, v.suite, v.tests, env);
      EndSuiteIsSafe(s0, EndTests(p, v.suite, v.tests, env).state, v.suite, env.saved(v.suite), env.stuck);
    }
  }

  /** Ending a running test changes its record, the log of the suite named in the call and nothing else that
      matters here. */
  ghost predicate TestEnded(s: State, z: State, i: nat, t: nat, r: TestResult, io: WriteOutcome)
    requires t in s.cases && i in s.suites
  {
    && OnlyEnded(s, z) && z.active == s.active - {t} && z.running == s.running && z.results == s.results
    && z.cases == s.cases[t := s.cases[t].(result := Recorded(s.suites[i], s.cases[t].name, r, io), clients := z.cases[t].clients)]
    && z.suites == s.suites[i := AfterDetails(s.suites[i], s.cases[t].name, r, io)]
  }

  lemma EndTestFrame(s: State, i: nat, t: nat, r: TestResult, io: WriteOutcome, refused: set<string>)
    requires Inv(s) && i in s.running && t in s.active
    ensures var out := ApplyEndTest(s, i, t, Some(r), io, refused);
      out.reply == Done && TestEnded(s, out.state, i, t, r, io)
  {
  }

  lemma EndSuiteFrame(s: State, i: nat, saved: bool, stuck: set<string>)
    requires Inv(s)
    ensures var z := ApplyEndSuite(s, i, saved, stuck).state;
      && OnlyEnded(s, z) && z.active == s.active && z.cases == s.cases && s.running - {i} <= z.running
      && (forall j | j in s.suites && j != i :: z.suites[j] == s.suites[j])
      && (forall j | j in s.suites :: z.suites[j].log == s.suites[j].log)
      && (i in s.suites && !(s.suites[i].tests !! s.active) ==> z.suites == s.suites)
  {
  }

  /** There is no text to be written, or no file to write it to. */
  predicate Spent(s: State, r: TestResult) { r.details == "" || !s.logDir }

  /** Once the shared result has gone through a details file it carries that range for good. */
  lemma SharedResultIsSpent(s0: State, f: First, env: Answers)
    requires Inv(s0) && IsTest(s0, f) && f.First?
    ensures var r := SharedResult(s0, f, env); Spent(s0, r) && !r.pass && r.timeout
  {
  }

  /** A spent result passes through another call as it is. */
  lemma SpentStays(s: State, i: nat, name: string, r: TestResult, io: WriteOutcome)
    requires Inv(s) && i in s.suites && Spent(s, r)
    ensures Recorded(s.suites[i], name, r, io) == r && AfterDetails(s.suites[i], name, r, io) == s.suites[i]
  {
  }

  /** The records after one more test has ended with the shared result. */
  lemma RecordShared(s0: State, s: State, z: State, r: TestResult, i: nat, t: nat, now: TestResult, io: WriteOutcome)
    requires OnlyEnded(s0, s) && OnlyEnded(s0, z) && ResultShared(s0, s, r)
    requires t in s.active && t in s.cases && i in s.suites && TestEnded(s, z, i, t, r, io)
    requires now == Recorded(s.suites[i], s.cases[t].name, r, io) && (s.active == s0.active || now == r)
    ensures ResultShared(s0, z, now)
  {
  }

  lemma FirstLogPlaced(s0: State, s: State, z: State, i: nat, t: nat, env: Answers)
    requires Inv(s0) && OnlyEnded(s0, s) && OnlyEnded(s0, z) && LogsPlaced(s0, s, NotYet, env)
    requires InSuite(s0, i, t) && t in s.active && t in s.cases && s.cases[t].name == s0.cases[t].name
    requires TestEnded(s, z, i, t, TERMINATED, env.io(t))
    ensures s.suites[i] == s0.suites[i] && LogsPlaced(s0, z, First(i, t), env)
  {
  }

  /** The first test to be ended. */
  lemma FirstTestEnds(s0: State, s: State, z: State, i: nat, t: nat, env: Answers)
    requires Inv(s0) && OnlyEnded(s0, s) && LogsPlaced(s0, s, NotYet, env) && ResultShared(s0, s, TERMINATED)
    requires InSuite(s0, i, t) && t in s.active && TestEnded(s, z, i, t, TERMINATED, env.io(t))
    ensures OnlyEnded(s0, z) && LogsPlaced(s0, z, First(i, t), env)
    ensures ResultShared(s0, z, SharedResult(s0, First(i, t), env)) && z.cases[t].result == SharedResult(s0, First(i, t), env)
  {
    assert s.cases[t] == s0.cases[t];
    FirstLogPlaced(s0, s, z, i, t, env);
    RecordShared(s0, s, z, TERMINATED, i, t, SharedResult(s0, First(i, t), env), env.io(t));
  }

  lemma LaterTestEnds(s0: State, s: State, z: State, f: First, i: nat, t: nat, r: TestResult, io: WriteOutcome, env: Answers)
    requires OnlyEnded(s0, s) && LogsPlaced(s0, s, f, env) && f.First? && ResultShared(s0, s, r)
    requires i in s.suites && t in s.active && t in s.cases && TestEnded(s, z, i, t, r, io)
    requires Recorded(s.suites[i], s.cases[t].name, r, io) == r && AfterDetails(s.suites[i], s.cases[t].name, r, io) == s.suites[i]
    ensures OnlyEnded(s0, z) && LogsPlaced(s0, z, f, env) && ResultShared(s0, z, r) && z.cases[t].result == r
  {
    assert z.suites == s.suites;
    RecordShared(s0, s, z, r, i, t, r, io);
  }

  lemma EndFirstTerminates(s0: State, p: Progress, i: nat, t: nat, env: Answers)
    requires Inv(s0) && Inv(p.state) && Terminating(s0, p, NotYet, env) && i in p.state.running && InSuite(s0, i, t) && t in p.state.active
    ensures Terminating(s0, EndOne(p, i, t, env), First(i, t), env)
  {
    var z := ApplyEndTest(p.state, i, t, Some(p.result), env.io(t), env.refused).state;
    EndTestFrame(p.state, i, t, p.result, env.io(t), env.refused);
    assert EndOne(p, i, t, env) == Progress(z, z.cases[t].result, Done);
    FirstTestEnds(s0, p.state, z, i, t, env);
  }

  lemma EndLaterTerminates(s0: State, p: Progress, f: First, i: nat, t: nat, env: Answers)
    requires Inv(s0) && Inv(p.state) && Terminating(s0, p, f, env) && f.First? && i in p.state.running && t in p.state.active
    ensures Terminating(s0, EndOne(p, i, t, env), f, env)
  {
    var z := ApplyEndTest(p.state, i, t, Some(p.result), env.io(t), env.refused).state;
    EndTestFrame(p.state, i, t, p.result, env.io(t), env.refused);
    assert EndOne(p, i, t, env) == Progress(z, z.cases[t].result, Done);
    SharedResultIsSpent(s0, f, env);
    SpentStays(p.state, i, p.state.cases[t].name, p.result, env.io(t));
    LaterTestEnds(s0, p.state, z, f, i, t, p.result, env.io(t), env);
  }

  lemma EndOneTerminates(s0: State, p: Progress, f: First, i: nat, t: nat, env: Answers)
    requires Inv(s0) && Inv(p.state) && Terminating(s0, p, f, env) && i in p.state.running && InSuite(s0, i, t)
    ensures Terminating(s0, EndOne(p, i, t, env), if f.First? || t !in s0.active then f else First(i, t), env)
  {
    if t in p.state.active && f.First? {
      EndLaterTerminates(s0, p, f, i, t, env);
    } else if t in p.state.active {
      EndFirstTerminates(s0, p, i, t, env);
    }
  }

  lemma {:induction false} EndTestsTerminates(s0: State, p: Progress, f: First, i: nat, order: seq<nat>, env: Answers)
    requires Inv(s0) && Safe(s0, p.state) && Terminating(s0, p, f, env)
    requires i in p.state.running && forall t | t in order :: InSuite(s0, i, t)
    ensures Terminating(s0, EndTests(p, i, order, env), FirstIn(s0, f, i, order), env)
    decreases |order|
  {
    if order != [] {
      var front := order[..|order| - 1];
      EndTestsTerminates(s0, p, f, i, front, env);
      EndTestsIsSafe(s0, p, i, front, env);
      EndTestsFrame(s0, p, i, front, env);
      EndOneTerminates(s0, EndTests(p, i, front, env), FirstIn(s0, f, i, front), i, order[|order| - 1], env);
    }
  }

  lemma EndOneFrame(p: Progress, i: nat, t: nat, env: Answers)
    requires p.reply == Done && Inv(p.state) && i in p.state.running
    ensures var q := EndOne(p, i, t, env);
      && q.reply == Done && q.state.active == p.state.active - {t}
      && q.state.running == p.state.running && q.state.results == p.state.results
  {
    if t in p.state.active {
      EndTestFrame(p.state, i, t, p.result, env.io(t), env.refused);
    }
  }

  /** Going through tests of a running suite never meets an error, and ends exactly these. */
  lemma {:induction false} EndTestsFrame(s0: State, p: Progress, i: nat, order: seq<nat>, env: Answers)
    requires p.reply == Done && Safe(s0, p.state) && i in p.state.running
    ensures var q := EndTests(p, i, order, env);
      && q.reply == Done && (forall t :: t in q.state.active <==> t in p.state.active && t !in order)
      && q.state.running == p.state.running && q.state.results == p.state.results
    decreases |order|
  {
    if order != [] {
      var front, t := order[..|order| - 1], order[|order| - 1];
      EndTestsFrame(s0, p, i, front, env);
      EndTestsIsSafe(s0, p, i, front, env);
      assert forall u | u in order :: u in front || u == t;
      EndOneFrame(EndTests(p, i, front, env), i, t, env);
    }
  }

  lemma EndVisitTerminates(s0: State, p: Progress, f: First, i: nat, env: Answers)
    requires Inv(p.state) && Terminating(s0, p, f, env)
    ensures var q := EndVisit(p, i, env);
      Terminating(s0, q, f, env) && q.state.active == p.state.active && p.state.running - {i} <= q.state.running
  {
    EndSuiteFrame(p.state, i, env.saved(i), env.stuck);
  }

  /** Whatever the order, no error is met, and the suites not met yet are still running. */
  lemma {:induction false} VisitsTerminate(s0: State, visits: seq<Visit>, env: Answers)
    requires Inv(s0) && Proper(s0, visits)
    ensures var p := VisitAll(Start(s0), visits, env);
      Terminating(s0, p, FirstEnded(s0, visits), env) && s0.running - Visited(visits) <= p.state.running
    decreases |visits|
  {
    Begins(s0, env);
    if visits != [] {
      var front, v := visits[..|visits| - 1], visits[|visits| - 1];
      VisitsTerminate(s0, front, env);
      VisitedFurther(visits);
      var p, f := VisitAll(Start(s0), front, env), FirstEnded(s0, front);
      VisitsAreSafe(s0, front, env);
      EndTestsIsSafe(s0, p, v.suite, v.tests, env);
      EndTestsFrame(s0, p, v.suite, v.tests, env);
      EndTestsTerminates(s0, p, f, v.suite, v.tests, env);
      EndVisitTerminates(s0, EndTests(p, v.suite, v.tests, env), FirstIn(s0, f, v.suite, v.tests), v.suite, env);
    }
  }

  lemma OneMoreVisit(s0: State, visits: seq<Visit>, v: Visit)
    requires Inv(s0) && Proper(s0, visits) && v.suite in s0.running - Visited(visits)
    requires forall t | t in v.tests :: t in s0.suites[v.suite].tests
    ensures Proper(s0, visits + [v]) && Visited(visits + [v]) == Visited(visits) + {v.suite}
    ensures Thorough(s0, visits) && (forall t | t in s0.suites[v.suite].tests :: t in v.tests) ==> Thorough(s0, visits + [v])
  {
    assert (visits + [v])[..|visits|] == visits;
    VisitedFurther(visits + [v]);
    assert OwnTests(s0, v);
    if forall t | t in s0.suites[v.suite].tests :: t in v.tests {
      assert AllTests(s0, v);
    }
  }

  /** The suites to come have the tests they had in the beginning. */
  lemma TestsStay(s0: State, visits: seq<Visit>, env: Answers, i: nat)
    requires Inv(s0) && Proper(s0, visits) && i in s0.running
    ensures var s := VisitAll(Start(s0), visits, env).state;
      i in s.suites && s.suites[i].tests == s0.suites[i].tests
  {
    VisitsTerminate(s0, visits, env);
  }

  lemma VisitedFurther(visits: seq<Visit>)
    requires visits != []
    ensures Visited(visits) == Visited(visits[..|visits| - 1]) + {visits[|visits| - 1].suite}
    ensures forall k | 0 <= k < |visits| - 1 :: visits[k].suite in Visited(visits[..|visits| - 1])
  {
    var front := visits[..|visits| - 1];
    assert forall k | 0 <= k < |front| :: front[k] == visits[k];
  }

  // What is left in the end

  /** The suites that stay behind: their summary could not be saved. */
  ghost function Unsaved(s: State, saved: nat -> bool, ended: set<nat>): set<nat> {
    set i | i in ended && s.logDir && !saved(i)
  }

  /** All tests of the suites in `done` have ended, and these suites are results unless unsaved. */
  ghost predicate SuitesEnded(s0: State, s: State, done: set<nat>, saved: nat -> bool) {
    && s.running == s0.running - done + Unsaved(s0, saved, done)
    && s.results == s0.results + (done - Unsaved(s0, saved, done))
    && (forall i: nat, t: nat | i in done && InSuite(s0, i, t) :: t !in s.active)
  }

  /** A suite without running tests can be ended; only a failing save keeps it running. */
  lemma SuiteCanEnd(s: State, i: nat, saved: bool, stuck: set<string>)
    requires Inv(s) && i in s.running && s.suites[i].tests !! s.active
    ensures var out := ApplyEndSuite(s, i, saved, stuck); var z := out.state;
      && z.active == s.active
      && if s.logDir && !saved
         then out.reply == Rejected(BackendFailure) && z.running == s.running && z.results == s.results
         else out.reply == Done && z.running == s.running - {i} && z.results == s.results + {i}
  {
  }

  lemma AddEnded(s0: State, s: State, z: State, done: set<nat>, i: nat, saved: nat -> bool)
    requires Inv(s0) && OnlyEnded(s0, s) && done <= s0.running && i in s0.running - done && i in s.suites
    requires SuitesEnded(s0, s, done, saved) && s.suites[i].tests !! s.active && z.active == s.active
    requires z.running == (if s0.logDir && !saved(i) then s.running else s.running - {i})
    requires z.results == (if s0.logDir && !saved(i) then s.results else s.results + {i})
    ensures SuitesEnded(s0, z, done + {i}, saved)
  {
  }

  lemma {:induction false} VisitsComplete(s0: State, visits: seq<Visit>, env: Answers)
    requires Inv(s0) && Proper(s0, visits) && Thorough(s0, visits)
    ensures SuitesEnded(s0, VisitAll(Start(s0), visits, env).state, Visited(visits), env.saved)
    decreases |visits|
  {
    if visits != [] {
      var front, v := visits[..|visits| - 1], visits[|visits| - 1];
      VisitsComplete(s0, front, env);
      VisitsTerminate(s0, front, env);
      VisitsAreSafe(s0, front, env);
      VisitedFurther(visits);
      assert AllTests(s0, v) && OwnTests(s0, v);
      VisitEnds(s0, VisitAll(Start(s0), front, env), FirstEnded(s0, front), v, Visited(front), env);
    }
  }

  lemma VisitEnds(s0: State, p: Progress, f: First, v: Visit, done: set<nat>, env: Answers)
    requires Inv(s0) && Safe(s0, p.state) && Terminating(s0, p, f, env) && SuitesEnded(s0, p.state, done, env.saved)
    requires done <= s0.running && v.suite in s0.running - done && v.suite in p.state.running
    requires forall t :: t in v.tests <==> InSuite(s0, v.suite, t)
    ensures SuitesEnded(s0, EndVisit(EndTests(p, v.suite, v.tests, env), v.suite, env).state, done + {v.suite}, env.saved)
  {
    var q := EndTests(p, v.suite, v.tests, env);
    EndTestsIsSafe(s0, p, v.suite, v.tests, env);
    EndTestsFrame(s0, p, v.suite, v.tests, env);
    EndTestsTerminates(s0, p, f, v.suite, v.tests, env);
    SuiteEmptied(s0, q.state, v.suite, v.tests);
    FewerActive(s0, p.state, q.state, done, env.saved);
    EmptySuiteEnds(s0, q, v.suite, done, env);
  }

  lemma EmptySuiteEnds(s0: State, q: Progress, i: nat, done: set<nat>, env: Answers)
    requires Inv(s0) && Inv(q.state) && q.reply == Done && OnlyEnded(s0, q.state) && SuitesEnded(s0, q.state, done, env.saved)
    requires done <= s0.running && i in s0.running - done && i in q.state.running && q.state.suites[i].tests !! q.state.active
    ensures SuitesEnded(s0, EndVisit(q, i, env).state, done + {i}, env.saved)
  {
    SuiteCanEnd(q.state, i, env.saved(i), env.stuck);
    AddEnded(s0, q.state, EndVisit(q, i, env).state, done, i, env.saved);
  }

  lemma SuiteEmptied(s0: State, s: State, i: nat, tests: seq<nat>)
    requires OnlyEnded(s0, s) && i in s.suites && (forall t :: t in tests <==> InSuite(s0, i, t)) && forall t | t in tests :: t !in s.active
    ensures s.suites[i].tests !! s.active
  {
    forall t | t in s.suites[i].tests ensures t !in s.active {
      assert InSuite(s0, i, t);
    }
  }

  lemma FewerActive(s0: State, s: State, z: State, done: set<nat>, saved: nat -> bool)
    requires SuitesEnded(s0, s, done, saved) && z.running == s.running && z.results == s.results
    requires forall t | t in z.active :: t in s.active
    ensures SuitesEnded(s0, z, done, saved)
  {
  }

  /** No error is met and no test is left running. A suite stays behind exactly if it could not be saved, tests
      that had ended keep their records, and all others carry the one failed, timed-out result. */
  lemma TerminationComplete(s0: State, visits: seq<Visit>, env: Answers)
    requires Inv(s0) && Proper(s0, visits) && Full(s0, visits)
    ensures var p := VisitAll(Start(s0), visits, env); var s := p.state;
      && p.reply == Done && Follows(s0, s) && s.active == {} && s.cases.Keys == s0.cases.Keys
      && s.running == Unsaved(s0, env.saved, s0.running) && s.results == s0.results + (s0.running - s.running)
      && !p.result.pass && p.result.timeout
      && (forall t | t in s0.cases ::
            if t in s0.active then s.cases[t].result == p.result && s.cases[t].name == s0.cases[t].name
            else s.cases[t] == s0.cases[t])
      && (OwnershipOk(s0) ==> forall n: string :: !Owned(s, n))
  {
    VisitsAreSafe(s0, visits, env);
    VisitsTerminate(s0, visits, env);
    VisitsComplete(s0, visits, env);
    AllTestsEnded(s0, VisitAll(Start(s0), visits, env).state, env.saved);
    if FirstEnded(s0, visits).First? {
      SharedResultIsSpent(s0, FirstEnded(s0, visits), env);
    }
  }

  lemma AllTestsEnded(s0: State, s: State, saved: nat -> bool)
    requires Inv(s0) && s.active <= s0.active && SuitesEnded(s0, s, s0.running, saved)
    ensures s.active == {}
  {
    forall t | t in s0.active ensures t !in s.active {
      var i :| InSuite(s0, i, t);
    }
  }

  // Where the ranges of the terminated tests lead

  ghost predicate SelectsAt(log: string, r: LogRange, text: string) {
    0 <= r.begin <= r.end <= |log| && log[r.begin..r.end] == text
  }

  /** The write made for the first test that is ended is complete. */
  predicate FirstWriteComplete(s0: State, f: First, env: Answers) {
    f.First? && f.suite in s0.suites && s0.suites[f.suite].file == Open && env.io(f.test) == Complete
  }

  /** The log of suite `j`, as it was before, has the text at the place that the shared result names. */
  ghost predicate TextThere(s0: State, f: First, j: nat, env: Answers)
    requires f.First? && IsTest(s0, f)
  {
    var r := SharedResult(s0, f, env).log;
    r.Some? && j in s0.suites && SelectsAt(s0.suites[j].log, r.value, TERMINATED.details)
  }

  /** A write that was cut short, or went to a closed file, leaves a range that does not select the text: what
      it covers is empty or begins with the header. */
  lemma PartialRange(s0: State, f: First, env: Answers)
    requires Inv(s0) && s0.logDir && f.First? && IsTest(s0, f) && !FirstWriteComplete(s0, f, env)
    ensures var r := SharedResult(s0, f, env).log;
      r.Some? && !SelectsAt(LogAfter(s0, f, f.suite, env), r.value, TERMINATED.details)
  {
    var suite, block := s0.suites[f.suite], DetailsBlock(s0.cases[f.test].name, TERMINATED.details);
    var n := Accepted(suite.file, env.io(f.test), |block|);
    var log := suite.log + block[..n];
    assert log[suite.offset..suite.offset + n] == block[..n];
    assert n > 0 ==> block[..n][0] == '-' != TERMINATED.details[0];
  }

  lemma SharedRangeSelects(s0: State, p: Progress, f: First, env: Answers, j: nat, t: nat)
    requires Inv(s0) && s0.logDir && Terminating(s0, p, f, env) && f.First?
    requires InSuite(s0, j, t) && t in s0.active && t !in p.state.active
    ensures Selects(p.state, j, t, TERMINATED.details)
       <==> if j == f.suite then FirstWriteComplete(s0, f, env) else TextThere(s0, f, j, env)
  {
    if FirstWriteComplete(s0, f, env) {
      SharedRange(s0, f, env);
    } else {
      PartialRange(s0, f, env);
    }
  }

  /** The text is written once, for the test that is ended first. The range of any test ended here selects the
      text in its own suite's log exactly if, for a test of the same suite, that write was complete, and for
      another, its suite's log, which is unchanged, has that very text at that place. */
  lemma TerminatedRangesExactly(s0: State, visits: seq<Visit>, env: Answers, j: nat, t: nat)
    requires Inv(s0) && Proper(s0, visits) && Full(s0, visits) && s0.logDir && InSuite(s0, j, t) && t in s0.active
    ensures var f, s := FirstEnded(s0, visits), VisitAll(Start(s0), visits, env).state;
      && f.First? && IsTest(s0, f)
      && Selects(s, j, t, TERMINATED.details) == if j == f.suite then FirstWriteComplete(s0, f, env) else TextThere(s0, f, j, env)
  {
    VisitsTerminate(s0, visits, env);
    TerminationComplete(s0, visits, env);
    SharedRangeSelects(s0, VisitAll(Start(s0), visits, env), FirstEnded(s0, visits), env, j, t);
  }

  /** A test of a suite whose log is empty ends up with a range beyond the end of that log, if a test of another
      suite is ended first. */
  lemma RangeInEmptyLog(s0: State, visits: seq<Visit>, env: Answers, j: nat, t: nat)
    requires Inv(s0) && Proper(s0, visits) && Full(s0, visits) && InSuite(s0, j, t) && t in s0.active
    requires FirstWriteComplete(s0, FirstEnded(s0, visits), env) && j != FirstEnded(s0, visits).suite && s0.suites[j].log == ""
    ensures Misplaced(VisitAll(Start(s0), visits, env).state, j, t)
  {
    VisitsTerminate(s0, visits, env);
    TerminationComplete(s0, visits, env);
    SharedRange(s0, FirstEnded(s0, visits), env);
  }

  /** Two suites with a running test each, every answer a good one: the test of the suite gone through second has
      a range that is not in its suite's log. */
  lemma SharedResultMisplacesRange() returns (s: State, visits: seq<Visit>, env: Answers)
    ensures s == Run(Init(true, 1), [StartSuite("a", true), StartSuite("b", true), StartTest(0, "x"), StartTest(1, "y")])
    ensures Proper(s, visits) && Full(s, visits) && visits == [Visit(0, [1]), Visit(1, [2])]
    ensures (forall t :: env.io(t) == Complete) && (forall i :: env.saved(i)) && env.refused == {} && env.stuck == {}
    ensures Misplaced(VisitAll(Start(s), visits, env).state, 1, 2)
  {
    visits, env := [Visit(0, [1]), Visit(1, [2])], Answers(t => Complete, {}, i => true, {});
    s := TwoRunningTests();
    InBothSuites(s, visits);
    RangeInEmptyLog(s, visits, env, 1, 2);
  }

  lemma InBothSuites(s: State, visits: seq<Visit>)
    requires s.suites == map[0 := SuiteRec("a", {1}, Open, 0, ""), 1 := SuiteRec("b", {2}, Open, 0, "")]
    requires s.running == {0, 1} && s.active == {1, 2} && visits == [Visit(0, [1]), Visit(1, [2])]
    ensures Proper(s, visits) && Full(s, visits) && FirstEnded(s, visits) == First(0, 1) && InSuite(s, 1, 2)
  {
    var v, w := visits[0], visits[1];
    assert v.suite in Visited(visits) && w.suite in Visited(visits);
    assert visits[..1] == [v] && [v][..0] == [] && [1][..0] == [] && [2][..0] == [];
    assert FirstEnded(s, [v]) == FirstIn(s, NotYet, 0, [1]) == First(0, 1);
    assert FirstEnded(s, visits) == FirstIn(s, First(0, 1), 1, [2]) == First(0, 1);
  }

  lemma TwoRunningTests() returns (s: State)
    ensures s == Run(Init(true, 1), [StartSuite("a", true), StartSuite("b", true), StartTest(0, "x"), StartTest(1, "y")])
    ensures Inv(s) && s.logDir && s.running == {0, 1} && s.active == {1, 2}
    ensures s.suites == map[0 := SuiteRec("a", {1}, Open, 0, ""), 1 := SuiteRec("b", {2}, Open, 0, "")]
  {
    var es := [StartSuite("a", true), StartSuite("b", true), StartTest(0, "x"), StartTest(1, "y")];
    var z := Init(true, 1);
    RunKeepsInv(z, es);
    RunOfThree(z, es[0], es[1], es[2]);
    assert es[..3] == [es[0], es[1], es[2]];
    s := StartBoth(z, "a", "b", "x", "y");
  }

  /** Two suites with a test each, started one after the other. */
  lemma StartBoth(z: State, a: string, b: string, x: string, y: string) returns (s: State)
    requires z == Init(true, 1)
    ensures s == Next(Next(Next(Next(z, StartSuite(a, true)), StartSuite(b, true)), StartTest(0, x)), StartTest(1, y))
    ensures s.logDir && s.running == {0, 1} && s.active == {1, 2}
    ensures s.suites == map[0 := SuiteRec(a, {1}, Open, 0, ""), 1 := SuiteRec(b, {2}, Open, 0, "")]
  {
    var s1 := Next(z, StartSuite(a, true));
    assert s1.suites == map[0 := SuiteRec(a, {}, Open, 0, "")] && s1.suiteCounter == 1 && s1.caseCounter == 0;
    var s2 := Next(s1, StartSuite(b, true));
    assert s2.suites == map[0 := SuiteRec(a, {}, Open, 0, ""), 1 := SuiteRec(b, {}, Open, 0, "")];
    assert s2.running == {0, 1} && s2.active == {} && s2.caseCounter == 0;
    assert s2.suites[0].tests + {1} == {1} && s2.suites[1].tests + {2} == {2};
    var s3 := Next(s2, StartTest(0, x));
    assert s3.suites == map[0 := SuiteRec(a, {1}, Open, 0, ""), 1 := SuiteRec(b, {}, Open, 0, "")];
    s := Next(s3, StartTest(1, y));
  }

  lemma SharedRange(s0: State, f: First, env: Answers)
    requires Inv(s0) && f.First? && IsTest(s0, f) && s0.suites[f.suite].file == Open && env.io(f.test) == Complete
    ensures var r := DetailsRange(s0.suites[f.suite], s0.cases[f.test].name, TERMINATED.details, Complete);
      SharedResult(s0, f, env).log == Some(r) && SelectsAt(LogAfter(s0, f, f.suite, env), r, TERMINATED.details)
  {
    var suite, block := s0.suites[f.suite], DetailsBlock(s0.cases[f.test].name, TERMINATED.details);
    assert block[..|block|] == block;
    assert suite.log + block == suite.log + Header(s0.cases[f.test].name) + TERMINATED.details + FOOTER;
  }
}
