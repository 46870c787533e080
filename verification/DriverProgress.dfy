/** How the manager's state grows while a simulator runs tests of one suite. */
module DriverProgress {
  import opened Wrappers
  import opened Records
  import opened ManagerSpec
  import opened ManagerInvariants
  import opened DetailsLog
  import opened Scripts
  import opened Api

  /** The text recorded for a test, inline or as a range of the suite's details log. */
  ghost predicate DetailsAre(s: State, i: nat, t: nat, text: string)
    requires t in s.cases
  {
    if s.cases[t].result.log.None? then s.cases[t].result.details == text else Selects(s, i, t, text)
  }

  /** Test `t` has ended with the given verdict; the text is on record too if no write was cut short. */
  ghost predicate HasVerdict(s: State, i: nat, t: nat, v: Verdict, full: bool) {
    && s.Ended(t) && s.cases[t].name == v.name
    && s.cases[t].result.pass == v.pass && !s.cases[t].result.timeout
    && (full ==> DetailsAre(s, i, t, v.details))
  }

  /** The suite is running and its details file, if it has one, can be written. */
  ghost predicate Ready(s: State, i: nat) {
    Inv(s) && i in s.running && s.suites[i].file != Closed
  }

  /** Of all suites only `i` has changed, and its log was only appended to. */
  ghost predicate SuitesExtended(s: State, z: State, i: nat) {
    && z.suites.Keys == s.suites.Keys && i in s.suites && s.suites[i].log <= z.suites[i].log
    && (forall j | j in s.suites && j != i :: z.suites[j] == s.suites[j])
  }

  /** No record that existed has changed except the client records of the running test `own`. */
  ghost predicate CasesExtended(s: State, z: State, own: nat) {
    && s.caseCounter <= z.caseCounter
    && (forall t | t in s.cases && t != own :: t in z.cases && z.cases[t] == s.cases[t])
    && (own in s.cases ==> own in z.cases && z.cases[own] == s.cases[own].(clients := z.cases[own].clients))
  }

  ghost predicate SameRunning(s: State, z: State) {
    z.logDir == s.logDir && z.running == s.running && z.results == s.results && z.active == s.active
  }

  ghost predicate Extended(s: State, z: State, i: nat, own: nat) {
    Ready(z, i) && SameRunning(s, z) && SuitesExtended(s, z, i) && CasesExtended(s, z, own)
  }

  /** The k-th test added after `base` belongs to the suite and has the k-th verdict. */
  ghost predicate AddedAt(base: nat, z: State, i: nat, vs: seq<Verdict>, k: nat, full: bool) {
    k < |vs| && InSuite(z, i, base + 1 + k) && HasVerdict(z, i, base + 1 + k, vs[k], full)
  }

  /** The new tests are those of `vs`, in order, and each has its verdict. */
  ghost predicate Added(base: nat, z: State, i: nat, vs: seq<Verdict>, full: bool) {
    z.caseCounter == base + |vs| && forall k: nat | k < |vs| :: AddedAt(base, z, i, vs, k, full)
  }

  ghost predicate Grew(s: State, z: State, i: nat, vs: seq<Verdict>, own: nat, full: bool) {
    Extended(s, z, i, own) && Added(s.caseCounter, z, i, vs, full)
  }

  lemma VerdictStays(y: State, z: State, i: nat, t: nat, v: Verdict, own: nat, full: bool)
    requires Extended(y, z, i, own) && Inv(y) && t != own && InSuite(y, i, t) && HasVerdict(y, i, t, v, full)
    ensures InSuite(z, i, t) && HasVerdict(z, i, t, v, full)
  {
    var j :| InSuite(z, j, t);
    assert j != i ==> InSuite(y, j, t);
    if full && y.cases[t].result.log.Some? {
      var r := y.cases[t].result.log.value;
      assert z.suites[i].log[r.begin..r.end] == y.suites[i].log[r.begin..r.end];
    }
  }

  lemma SuitesExtendedFurther(s: State, y: State, z: State, i: nat)
    requires SuitesExtended(s, y, i) && SuitesExtended(y, z, i)
    ensures SuitesExtended(s, z, i)
  {
  }

  lemma AddedFurther(y: State, z: State, i: nat, base: nat, vs: seq<Verdict>, ws: seq<Verdict>, own: nat, full: bool)
    requires Ready(y, i) && Added(base, y, i, vs, full) && Added(base + |vs|, z, i, ws, full)
    requires Extended(y, z, i, own) && own <= base
    ensures Added(base, z, i, vs + ws, full)
  {
    forall k: nat | k < |vs + ws| ensures AddedAt(base, z, i, vs + ws, k, full) {
      if k < |vs| {
        AddedAtStays(y, z, i, base, vs, k, own, full);
      } else {
        assert AddedAt(base + |vs|, z, i, ws, k - |vs|, full);
      }
    }
  }

  lemma AddedAtStays(y: State, z: State, i: nat, base: nat, vs: seq<Verdict>, k: nat, own: nat, full: bool)
    requires Inv(y) && Added(base, y, i, vs, full) && Extended(y, z, i, own) && own <= base && k < |vs|
    ensures AddedAt(base, z, i, vs, k, full)
  {
    assert AddedAt(base, y, i, vs, k, full);
    VerdictStays(y, z, i, base + 1 + k, vs[k], own, full);
  }

  /** Growth adds up. */
  lemma GrewFurther(s: State, y: State, z: State, i: nat, vs: seq<Verdict>, ws: seq<Verdict>, own: nat, full: bool)
    requires Grew(s, y, i, vs, own, full) && Grew(y, z, i, ws, own, full) && own <= s.caseCounter
    ensures Grew(s, z, i, vs + ws, own, full)
  {
    SuitesExtendedFurther(s, y, z, i);
    AddedFurther(y, z, i, s.caseCounter, vs, ws, own, full);
  }

  lemma GrewNothing(s: State, i: nat, own: nat, full: bool)
    requires Ready(s, i)
    ensures Grew(s, s, i, [], own, full)
  {
  }

  lemma GrewForAny(s: State, z: State, i: nat, vs: seq<Verdict>, own: nat, full: bool)
    requires Grew(s, z, i, vs, 0, full) && Inv(s)
    ensures Grew(s, z, i, vs, own, full)
  {
  }

  lemma RegisterFrame(s: State, e: Event)
    requires e.Register? && s.active <= s.cases.Keys
    ensures var z := Next(s, e);
      && z.suites == s.suites && z.caseCounter == s.caseCounter && SameRunning(s, z) && z.cases.Keys == s.cases.Keys
      && CasesExtended(s, z, e.test)
  {
  }

  /** Starting a client adds no test and changes the test's own record alone. */
  lemma ClientStarted(s: State, i: nat, own: nat, e: Event, full: bool)
    requires Ready(s, i) && e.Register? && e.test == own
    ensures Grew(s, Next(s, e), i, [], own, full)
  {
    StepKeepsInv(s, e);
    RegisterFrame(s, e);
  }

  /** In `z` the test `id` has just been started, and nothing else has changed since `s`. */
  ghost predicate TestOpened(s: State, z: State, i: nat, id: nat, name: string) {
    && InSuite(z, i, id) && z.caseCounter == id == s.caseCounter + 1 && id !in s.active && id !in s.cases
    && SuitesExtended(s, z, i) && CasesExtended(s, z, id) && SameRunning(s.(active := s.active + {id}), z)
    && id in z.cases && z.cases[id].name == name && id in z.active
  }

  lemma TestStarted(s: State, i: nat, name: string)
    requires Ready(s, i)
    ensures Ready(Next(s, StartTest(i, name)), i) && TestOpened(s, Next(s, StartTest(i, name)), i, s.caseCounter + 1, name)
  {
    StepKeepsInv(s, StartTest(i, name));
  }

  /** In `z` the test `t` has just ended, and nothing else has changed since `y` but the suite's log. */
  ghost predicate TestClosed(y: State, z: State, i: nat, t: nat, v: Verdict, full: bool) {
    && InSuite(z, i, t) && HasVerdict(z, i, t, v, full)
    && z.caseCounter == y.caseCounter && SameRunning(y.(active := y.active - {t}), z)
    && SuitesExtended(y, z, i) && z.suites[i].tests == y.suites[i].tests
    && (forall u | u in y.cases && u != t :: u in z.cases && z.cases[u] == y.cases[u])
  }

  /** The end of a test puts its verdict on record. */
  lemma VerdictRecorded(s: State, e: Event)
    requires Inv(s) && e.EndTest? && e.suite in s.running && e.test in s.active && InSuite(s, e.suite, e.test) && e.result.Some?
    requires !e.result.value.timeout && e.result.value.log.None? && s.suites[e.suite].file != Closed
    ensures var r := e.result.value;
      HasVerdict(Next(s, e), e.suite, e.test, Verdict(s.cases[e.test].name, r.pass, r.details), e.io == Complete)
  {
    if Logs(s, e) {
      EndTestLogs(s, e);
    }
  }

  lemma EndTestClosesFrame(s: State, e: Event)
    requires Inv(s) && e.EndTest? && e.suite in s.running && e.test in s.active && e.result.Some?
    ensures var z := Next(s, e); var i := e.suite;
      && i in z.suites && z.suites[i].file == s.suites[i].file && z.suites[i].tests == s.suites[i].tests
      && z.caseCounter == s.caseCounter && SameRunning(s.(active := s.active - {e.test}), z) && SuitesExtended(s, z, i)
      && (forall u | u in s.cases && u != e.test :: u in z.cases && z.cases[u] == s.cases[u])
  {
  }

  lemma TestEnded(y: State, e: Event, name: string, full: bool)
    requires e.EndTest? && Ready(y, e.suite) && e.test in y.active && InSuite(y, e.suite, e.test) && y.cases[e.test].name == name
    requires e.result.Some? && !e.result.value.timeout && e.result.value.log.None? && (full ==> e.io == Complete)
    ensures Ready(Next(y, e), e.suite)
    ensures TestClosed(y, Next(y, e), e.suite, e.test, Verdict(name, e.result.value.pass, e.result.value.details), full)
  {
    StepKeepsInv(y, e);
    VerdictRecorded(y, e);
    EndTestClosesFrame(y, e);
  }

  /** A test with its subtests: `s` before it starts, `y` just before the call `e` that ends it. */
  lemma TestCompleted(s: State, y: State, i: nat, name: string, subs: seq<Verdict>, own: nat, e: Event, full: bool)
    requires Ready(s, i) && own <= s.caseCounter && Grew(Next(s, StartTest(i, name)), y, i, subs, s.caseCounter + 1, full)
    requires e.EndTest? && e.suite == i && e.test == s.caseCounter + 1 && (full ==> e.io == Complete)
    requires e.result.Some? && !e.result.value.timeout && e.result.value.log.None?
    ensures Grew(s, Next(y, e), i, [Verdict(name, e.result.value.pass, e.result.value.details)] + subs, own, full)
  {
    var id, v := s.caseCounter + 1, Verdict(name, e.result.value.pass, e.result.value.details);
    var started := Next(s, StartTest(i, name));
    TestStarted(s, i, name);
    StaysInSuite(started, y, i, id);
    TestEnded(y, e, name, full);
    CompletedFrame(s, started, y, Next(y, e), i, id, name, v, own, full);
    AddedAround(y, Next(y, e), i, v, subs, id, full);
  }

  lemma CompletedFrame(s: State, started: State, y: State, z: State, i: nat, id: nat, name: string, v: Verdict, own: nat, full: bool)
    requires TestOpened(s, started, i, id, name) && TestClosed(y, z, i, id, v, full) && own < id
    requires SuitesExtended(started, y, i) && CasesExtended(started, y, id) && SameRunning(started, y)
    ensures SameRunning(s, z) && SuitesExtended(s, z, i) && CasesExtended(s, z, own)
  {
  }

  lemma AddedAround(y: State, z: State, i: nat, v: Verdict, subs: seq<Verdict>, id: nat, full: bool)
    requires id > 0 && Added(id, y, i, subs, full) && TestClosed(y, z, i, id, v, full)
    ensures Added(id - 1, z, i, [v] + subs, full)
  {
    var base, vs := id - 1, [v] + subs;
    forall k: nat | k < |vs| ensures AddedAt(base, z, i, vs, k, full) {
      if k > 0 {
        assert AddedAt(id, y, i, subs, k - 1, full);
        EndedElsewhere(y, z, i, id + k, subs[k - 1], full);
      }
    }
  }

  lemma StaysInSuite(s: State, z: State, i: nat, t: nat)
    requires Extended(s, z, i, t) && Inv(s) && InSuite(s, i, t)
    ensures InSuite(z, i, t)
  {
    var j :| InSuite(z, j, t);
    assert j != i ==> InSuite(s, j, t);
  }

  lemma EndedElsewhere(y: State, z: State, i: nat, t: nat, v: Verdict, full: bool)
    requires InSuite(y, i, t) && HasVerdict(y, i, t, v, full) && i in z.suites
    requires t in z.cases && z.cases[t] == y.cases[t] && z.active <= y.active
    requires y.suites[i].log <= z.suites[i].log && y.suites[i].tests <= z.suites[i].tests
    ensures InSuite(z, i, t) && HasVerdict(z, i, t, v, full)
  {
  }

  // A whole suite

  /** The suite that was started in state `s0` has, by state `z`, exactly the tests of `vs`, all ended with
      these verdicts. If it could be ended it is a result and has left no network in the map. Nothing
      recorded before has changed, and whatever else was running still is. */
  ghost predicate SuiteOnRecord(s0: State, z: State, vs: seq<Verdict>, ended: bool, full: bool) {
    var i := s0.suiteCounter;
    && Added(s0.caseCounter, z, i, vs, full) && i in z.suites
    && z.suites[i].tests == (set t | t in z.cases && s0.caseCounter < t)
    && z.active == s0.active
    && z.running == s0.running + (if ended then {} else {i})
    && z.results == s0.results + (if ended then {i} else {})
    && (ended ==> i !in z.networks)
    && (forall j | j in s0.suites :: j in z.suites && z.suites[j] == s0.suites[j])
    && (forall t | t in s0.cases :: t in z.cases && z.cases[t] == s0.cases[t])
  }

  /** In `s1` the suite has just been opened and has no tests yet. */
  ghost predicate Opened(s0: State, s1: State) {
    var i := s0.suiteCounter;
    && Ready(s1, i) && i !in s0.suites && s1.suites == s0.suites[i := s1.suites[i]] && s1.suites[i].tests == {}
    && s1.cases == s0.cases && s1.caseCounter == s0.caseCounter && s1.active == s0.active
    && s1.running == s0.running + {i} && s1.results == s0.results && s1.logDir == s0.logDir
  }

  lemma SuiteStarted(s: State, name: string, created: bool)
    requires Inv(s) && (created || !s.logDir)
    ensures Opened(s, ApplyStartSuite(s, name, created).state)
  {
    StartSuiteKeepsInv(s, name, created);
  }

  /** The tests of a suite that started out empty are those added since, all of them ended. */
  lemma NewTestsAreTheSuites(s: State, y: State, i: nat, vs: seq<Verdict>, full: bool)
    requires Ready(s, i) && s.suites[i].tests == {} && Grew(s, y, i, vs, 0, full)
    ensures y.suites[i].tests == set t | t in y.cases && s.caseCounter < t
    ensures y.suites[i].tests !! y.active
  {
    forall t: nat | t in s.cases ensures t !in y.suites[i].tests {
      var j :| InSuite(s, j, t);
      assert InSuite(y, j, t) && j != i;
      assert t in y.suites[i].tests ==> InSuite(y, i, t);
    }
    forall t: nat | t in y.cases && s.caseCounter < t ensures t in y.suites[i].tests && t !in y.active {
      assert AddedAt(s.caseCounter, y, i, vs, t - s.caseCounter - 1, full);
    }
    forall t | t in y.suites[i].tests ensures t in y.cases && s.caseCounter < t {
      assert InSuite(y, i, t);
    }
  }

  /** Ending the suite in `y` left all but its place, its open file and the networks as they were. */
  ghost predicate EndedFrom(y: State, z: State, i: nat, ended: bool) {
    && z.cases == y.cases && z.active == y.active && z.caseCounter == y.caseCounter
    && i in y.suites && z.suites == y.suites[i := CloseDetails(y.suites[i])]
    && z.running == (if ended then y.running - {i} else y.running)
    && z.results == (if ended then y.results + {i} else y.results) && (ended ==> i !in z.networks)
  }

  lemma EndSuiteFrame(y: State, i: nat, saved: bool, stuck: set<string>)
    requires Inv(y) && i in y.running && y.suites[i].tests !! y.active
    ensures var out := ApplyEndSuite(y, i, saved, stuck); var ended := saved || !y.logDir;
      (out.reply == Done <==> ended) && EndedFrom(y, out.state, i, ended)
  {
  }

  lemma VerdictsOutlast(y: State, z: State, i: nat, base: nat, vs: seq<Verdict>, full: bool)
    requires Added(base, y, i, vs, full) && i in y.suites && z.caseCounter == y.caseCounter
    requires z.cases == y.cases && z.active == y.active && z.suites == y.suites[i := CloseDetails(y.suites[i])]
    ensures Added(base, z, i, vs, full)
  {
    forall k: nat | k < |vs| ensures AddedAt(base, z, i, vs, k, full) {
      assert AddedAt(base, y, i, vs, k, full);
      EndedElsewhere(y, z, i, base + 1 + k, vs[k], full);
    }
  }

  lemma RecordComplete(s0: State, s1: State, y: State, z: State, vs: seq<Verdict>, ended: bool, full: bool)
    requires Inv(s0) && Opened(s0, s1) && Grew(s1, y, s0.suiteCounter, vs, 0, full)
    requires EndedFrom(y, z, s0.suiteCounter, ended)
    ensures SuiteOnRecord(s0, z, vs, ended, full)
  {
    NewTestsAreTheSuites(s1, y, s0.suiteCounter, vs, full);
    VerdictsOutlast(y, z, s0.suiteCounter, s0.caseCounter, vs, full);
    OnlyTheNewSuite(s0, s1, y, z, ended);
  }

  lemma OnlyTheNewSuite(s0: State, s1: State, y: State, z: State, ended: bool)
    requires SuitesPartitioned(s0) && Opened(s0, s1) && EndedFrom(y, z, s0.suiteCounter, ended)
    requires SameRunning(s1, y) && SuitesExtended(s1, y, s0.suiteCounter) && CasesExtended(s1, y, 0) && 0 !in s1.cases
    ensures var i := s0.suiteCounter;
      && z.active == s0.active && z.running == s0.running + (if ended then {} else {i})
      && z.results == s0.results + (if ended then {i} else {})
      && (forall j | j in s0.suites :: j in z.suites && z.suites[j] == s0.suites[j])
      && (forall t | t in s0.cases :: t in z.cases && z.cases[t] == s0.cases[t])
  {
    assert s0.running + {s0.suiteCounter} - {s0.suiteCounter} == s0.running;
  }

  lemma SuiteFinished(s0: State, s1: State, y: State, vs: seq<Verdict>, saved: bool, stuck: set<string>, full: bool)
    requires Inv(s0) && Opened(s0, s1) && Grew(s1, y, s0.suiteCounter, vs, 0, full)
    ensures var out := ApplyEndSuite(y, s0.suiteCounter, saved, stuck); var ended := saved || !s0.logDir;
      Inv(out.state) && (out.reply == Done <==> ended) && SuiteOnRecord(s0, out.state, vs, ended, full)
  {
    NewTestsAreTheSuites(s1, y, s0.suiteCounter, vs, full);
    EndSuiteKeepsInv(y, s0.suiteCounter, saved, stuck);
    EndSuiteFrame(y, s0.suiteCounter, saved, stuck);
    RecordComplete(s0, s1, y, ApplyEndSuite(y, s0.suiteCounter, saved, stuck).state, vs, saved || !s0.logDir, full);
  }
}
