/** What every reachable state of the test manager satisfies, and what a test keeps once it has ended. */
module ManagerInvariants {
  import opened Wrappers
  import opened Records
  import opened ManagerSpec

  ghost predicate InSuite(s: State, i: nat, t: nat) { i in s.suites && t in s.suites[i].tests }

  /** Running suites and results split the ids handed out so far. */
  ghost predicate SuitesPartitioned(s: State) {
    && s.running !! s.results
    && s.running + s.results == s.suites.Keys
    && (forall i: nat :: i in s.suites <==> i < s.suiteCounter)
  }

  /** Test ids are 1..caseCounter, each in exactly one suite; a running test's suite is running. */
  ghost predicate TestsPartitioned(s: State) {
    && (forall t: nat :: t in s.cases <==> 1 <= t <= s.caseCounter)
    && s.active <= s.cases.Keys
    && (forall t | t in s.cases :: exists i: nat :: InSuite(s, i, t))
    && (forall i: nat, t: nat | InSuite(s, i, t) :: t in s.cases)
    && (forall i: nat, j: nat, t: nat | InSuite(s, i, t) && InSuite(s, j, t) :: i == j)
    && (forall i: nat, t: nat | InSuite(s, i, t) && t in s.active :: i in s.running)
  }

  /** The write offset of a suite is the size of its details file; only a log directory gives it one. */
  ghost predicate DetailsTracked(s: State) {
    forall i | i in s.suites ::
      && s.suites[i].offset == |s.suites[i].log|
      && (s.suites[i].file == NoFile <==> !s.logDir)
  }

  ghost predicate Inv(s: State) {
    SuitesPartitioned(s) && TestsPartitioned(s) && DetailsTracked(s) && s.networks.Keys <= s.running
  }

  lemma StartTestKeepsInv(s: State, i: nat, name: string)
    requires Inv(s)
    ensures Inv(ApplyStartTest(s, i, name).state)
  {
    var s' := ApplyStartTest(s, i, name).state;
    if s' != s {
      var id := s.caseCounter + 1;
      forall j, t | InSuite(s', j, t)
        ensures if t == id then j == i else InSuite(s, j, t)
      {
        if j != i { assert InSuite(s, j, t); }
      }
      assert InSuite(s', i, id);
      forall t | t in s'.cases
        ensures exists j :: InSuite(s', j, t)
      {
        if t != id {
          var j :| InSuite(s, j, t);
          assert InSuite(s', j, t);
        }
      }
    }
  }

  /** A step that leaves the test sets of all suites as they are and adds no test. */
  lemma SameTestsKeepsPartition(s: State, s': State)
    requires TestsPartitioned(s)
    requires s'.caseCounter == s.caseCounter && s'.cases.Keys == s.cases.Keys
    requires s'.active <= s.active && s.suites.Keys <= s'.suites.Keys
    requires forall i | i in s'.suites ::
      if i in s.suites then s'.suites[i].tests == s.suites[i].tests else s'.suites[i].tests == {}
    requires forall i: nat, t: nat | InSuite(s, i, t) && t in s'.active :: i in s'.running
    ensures TestsPartitioned(s')
  {
    forall i: nat, t: nat | InSuite(s', i, t) ensures InSuite(s, i, t) {}
    forall t | t in s'.cases
      ensures exists i :: InSuite(s', i, t)
    {
      var i :| InSuite(s, i, t);
      assert InSuite(s', i, t);
    }
  }

  lemma EndSuiteKeepsInv(s: State, i: nat, saved: bool, stuck: set<string>)
    requires Inv(s)
    ensures Inv(ApplyEndSuite(s, i, saved, stuck).state)
  {
    var s' := ApplyEndSuite(s, i, saved, stuck).state;
    if s' != s {
      SameTestsKeepsPartition(s, s');
    }
  }

  lemma EndTestKeepsTests(s: State, i: nat, t: nat, r: Option<TestResult>, io: WriteOutcome, refused: set<string>)
    requires DetailsTracked(s)
    ensures var z := ApplyEndTest(s, i, t, r, io, refused).state;
      && z == s.(suites := z.suites, cases := z.cases, active := z.active, world := z.world)
      && z.cases.Keys == s.cases.Keys && z.active <= s.active && z.suites.Keys == s.suites.Keys
      && (forall j | j in s.suites :: z.suites[j].tests == s.suites[j].tests) && DetailsTracked(z)
  {
  }

  lemma EndTestKeepsInv(s: State, i: nat, t: nat, r: Option<TestResult>, io: WriteOutcome, refused: set<string>)
    requires Inv(s)
    ensures Inv(ApplyEndTest(s, i, t, r, io, refused).state)
  {
    EndTestKeepsTests(s, i, t, r, io, refused);
    SameTestsKeepsPartition(s, ApplyEndTest(s, i, t, r, io, refused).state);
  }

  lemma StartSuiteKeepsInv(s: State, name: string, created: bool)
    requires Inv(s)
    ensures Inv(ApplyStartSuite(s, name, created).state)
  {
    SameTestsKeepsPartition(s, ApplyStartSuite(s, name, created).state);
  }

  /** A step that only touches client records, flags, networks of running suites or the world. */
  lemma QuietStepKeepsInv(s: State, s': State)
    requires Inv(s)
    requires s' == s.(cases := s'.cases, networks := s'.networks, world := s'.world)
    requires s'.cases.Keys == s.cases.Keys && s'.networks.Keys <= s.running
    ensures Inv(s')
  {
    SameTestsKeepsPartition(s, s');
  }

  /** All events but the starts and ends of suites and tests. */
  predicate QuietEvent(e: Event) { !e.StartSuite? && !e.EndSuite? && !e.StartTest? && !e.EndTest? }

  lemma QuietEventsKeepStructure(s: State, e: Event)
    requires QuietEvent(e)
    ensures var z := Next(s, e);
      && z == s.(cases := z.cases, networks := z.networks, world := z.world)
      && z.cases.Keys == s.cases.Keys && z.networks.Keys <= s.networks.Keys + s.running
  {
  }

  lemma StepKeepsInv(s: State, e: Event)
    requires Inv(s)
    ensures Inv(Next(s, e))
  {
    match e
    case StartSuite(name, created) => StartSuiteKeepsInv(s, name, created);
    case StartTest(i, name) => StartTestKeepsInv(s, i, name);
    case EndSuite(i, saved, stuck) => EndSuiteKeepsInv(s, i, saved, stuck);
    case EndTest(i, t, r, io, refused) => EndTestKeepsInv(s, i, t, r, io, refused);
    case _ =>
      QuietEventsKeepStructure(s, e);
      QuietStepKeepsInv(s, Next(s, e));
  }

  /** The structural invariant over all interleavings of manager calls and all outcomes of them. */
  lemma {:induction false} RunKeepsInv(s: State, es: seq<Event>)
    requires Inv(s)
    ensures Inv(Run(s, es))
    decreases |es|
  {
    if es != [] {
      RunKeepsInv(s, es[..|es| - 1]);
      StepKeepsInv(Run(s, es[..|es| - 1]), es[|es| - 1]);
    }
  }

  ghost predicate Reachable(s: State) { exists logDir, pid :: Follows(Init(logDir, pid), s) }

  lemma ReachableInv(s: State)
    requires Reachable(s)
    ensures s.running !! s.results
    ensures forall i: nat :: i in s.running + s.results <==> i < s.suiteCounter
    ensures forall t: nat | t in s.cases :: exists i: nat :: InSuite(s, i, t)
    ensures forall t: nat :: t in s.cases <==> 1 <= t <= s.caseCounter
    ensures forall i: nat, j: nat, t: nat | InSuite(s, i, t) && InSuite(s, j, t) :: i == j && 1 <= t <= s.caseCounter
    ensures forall i: nat, t: nat | InSuite(s, i, t) && i in s.results :: s.Ended(t)
    ensures Inv(s)
  {
    var logDir, pid :| Follows(Init(logDir, pid), s);
    var es :| s == Run(Init(logDir, pid), es);
    RunKeepsInv(Init(logDir, pid), es);
  }

  lemma {:induction false} RunConcat(s: State, xs: seq<Event>, ys: seq<Event>)
    ensures Run(s, xs + ys) == Run(Run(s, xs), ys)
    decreases |ys|
  {
    if ys == [] {
      assert xs + ys == xs;
    } else {
      RunConcat(s, xs, ys[..|ys| - 1]);
      assert (xs + ys)[..|xs + ys| - 1] == xs + ys[..|ys| - 1];
    }
  }

  /** Some run of manager calls leads from one state to the other. */
  ghost predicate Follows(s: State, z: State) { exists es :: z == Run(s, es) }

  lemma FollowsOn(s: State, y: State, e: Event)
    requires Follows(s, y)
    ensures Follows(s, Next(y, e))
  {
    var es :| y == Run(s, es);
    assert (es + [e])[..|es|] == es;
    assert Next(y, e) == Run(s, es + [e]);
  }

  // Ended tests

  lemma StepKeepsEnded(s: State, e: Event, t: nat)
    requires Inv(s) && s.Ended(t)
    ensures Next(s, e).Ended(t) && Next(s, e).cases[t] == s.cases[t]
  {
  }

  /** The record of an ended test, its result, clients and multi-test flag, never changes again. */
  lemma {:induction false} EndedNeverChanges(s: State, es: seq<Event>, t: nat)
    requires Inv(s) && s.Ended(t)
    ensures Run(s, es).Ended(t) && Run(s, es).cases[t] == s.cases[t]
    decreases |es|
  {
    if es != [] {
      var front := es[..|es| - 1];
      EndedNeverChanges(s, front, t);
      RunKeepsInv(s, front);
      StepKeepsEnded(Run(s, front), es[|es| - 1], t);
    }
  }

  ghost predicate Targets(e: Event, t: nat) {
    (e.EndTest? || e.Register? || e.Stop? || e.Mark?) && e.test == t
  }

  /** Every later call on an ended test is rejected and leaves all records as they were; a container
      launched for a registration that comes too late is the only thing that may remain of it. */
  lemma {:induction false} EndedRejectsCalls(s: State, es: seq<Event>, t: nat, e: Event)
    requires Inv(s) && s.Ended(t) && Targets(e, t)
    ensures var z := Run(s, es);
      Apply(z, e).reply.Rejected? && Next(z, e).(world := z.world) == z
      && (Next(z, e) == z || (e.Register? && e.info.waiting))
  {
    EndedNeverChanges(s, es, t);
  }
}
