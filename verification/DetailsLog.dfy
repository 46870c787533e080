/** The details log of a suite: what the ranges recorded with ended tests select from it. */
module DetailsLog {
  import opened Wrappers
  import opened Records
  import opened ManagerSpec
  import opened ManagerInvariants

  /** A call of EndTest that is accepted and goes through the details file. */
  ghost predicate Logs(s: State, e: Event) {
    && e.EndTest? && e.suite in s.running && e.test in s.active
    && e.result.Some? && e.result.value.details != "" && s.logDir
  }

  /** The whole block of that call reaches the file. */
  ghost predicate LogsAll(s: State, e: Event)
    requires Inv(s)
  {
    Logs(s, e) && s.suites[e.suite].file == Open && e.io == Complete
  }

  /** The range stored with test `t`, and whether it selects `text` from the log of suite `i`. */
  ghost predicate Selects(s: State, i: nat, t: nat, text: string) {
    && i in s.suites && t in s.cases && s.cases[t].result.log.Some?
    && var r := s.cases[t].result.log.value;
      0 <= r.begin <= r.end <= |s.suites[i].log| && s.suites[i].log[r.begin..r.end] == text
  }

  /** Of an accepted call, the range lies in what the call appended, and it selects the details
      themselves when the write was complete. */
  lemma EndTestLogs(s: State, e: Event)
    requires Inv(s) && Logs(s, e)
    ensures var (z, i) := (Next(s, e), e.suite);
      && i in z.suites && e.test in z.cases && z.cases[e.test].result.log.Some?
      && var r := z.cases[e.test].result.log.value;
        |s.suites[i].log| <= r.begin <= r.end <= |z.suites[i].log|
    ensures LogsAll(s, e) ==> Selects(Next(s, e), e.suite, e.test, e.result.value.details)
  {
  }

  /** Of the suites' logs and files, an EndTest changes those of the named suite and an EndSuite one file. */
  lemma EndTestSuites(s: State, i: nat, t: nat, r: Option<TestResult>, io: WriteOutcome, refused: set<string>)
    ensures var z := ApplyEndTest(s, i, t, r, io, refused).state;
      z.suites == s.suites
      || (i in s.suites && t in s.cases && r.Some? && z.suites == s.suites[i := AfterDetails(s.suites[i], s.cases[t].name, r.value, io)])
  {
  }

  lemma EndSuiteSuites(s: State, i: nat, saved: bool, stuck: set<string>)
    ensures var z := ApplyEndSuite(s, i, saved, stuck).state;
      z.suites == s.suites || (i in s.suites && z.suites == s.suites[i := CloseDetails(s.suites[i])])
  {
  }

  lemma StepGrowsLog(s: State, e: Event, i: nat)
    requires Inv(s) && i in s.suites
    ensures i in Next(s, e).suites && s.suites[i].log <= Next(s, e).suites[i].log
  {
    match e
    case EndTest(j, t, r, io, refused) => EndTestSuites(s, j, t, r, io, refused);
    case EndSuite(j, saved, stuck) => EndSuiteSuites(s, j, saved, stuck);
    case StartSuite(_, _) =>
    case StartTest(_, _) =>
    case _ => QuietEventsKeepStructure(s, e);
  }

  /** Details files are only ever appended to. */
  lemma {:induction false} LogOnlyGrows(s: State, es: seq<Event>, i: nat)
    requires Inv(s) && i in s.suites
    ensures i in Run(s, es).suites && s.suites[i].log <= Run(s, es).suites[i].log
    decreases |es|
  {
    if es != [] {
      LogOnlyGrows(s, es[..|es| - 1], i);
      RunKeepsInv(s, es[..|es| - 1]);
      StepGrowsLog(Run(s, es[..|es| - 1]), es[|es| - 1], i);
    }
  }

  lemma RunSplit(s: State, es: seq<Event>, p: nat)
    requires p < |es|
    ensures Run(s, es[..p + 1]) == Next(Run(s, es[..p]), es[p])
    ensures Run(s, es) == Run(Run(s, es[..p + 1]), es[p + 1..])
  {
    assert es[..p + 1][..p] == es[..p];
    assert es == es[..p + 1] + es[p + 1..];
    RunConcat(s, es[..p + 1], es[p + 1..]);
  }

  /** What the range of an ended test selects stays the same. */
  lemma SelectionStays(s: State, es: seq<Event>, i: nat, t: nat, text: string)
    requires Inv(s) && s.Ended(t) && Selects(s, i, t, text)
    ensures Selects(Run(s, es), i, t, text)
  {
    EndedNeverChanges(s, es, t);
    LogOnlyGrows(s, es, i);
    var r := s.cases[t].result.log.value;
    assert Run(s, es).suites[i].log[r.begin..r.end] == s.suites[i].log[r.begin..r.end];
  }

  /** A completely written text is still what its range selects at the end of any run. */
  lemma DetailsStaySelected(s: State, es: seq<Event>, p: nat)
    requires Inv(s) && p < |es| && Inv(Run(s, es[..p])) && LogsAll(Run(s, es[..p]), es[p])
    ensures Selects(Run(s, es), es[p].suite, es[p].test, es[p].result.value.details)
  {
    RunSplit(s, es, p);
    EndTestLogs(Run(s, es[..p]), es[p]);
    RunKeepsInv(s, es[..p + 1]);
    SelectionStays(Run(s, es[..p + 1]), es[p + 1..], es[p].suite, es[p].test, es[p].result.value.details);
  }

  /** The length of the details log of suite `i`. */
  ghost function LogLength(s: State, i: nat): nat {
    if i in s.suites then |s.suites[i].log| else 0
  }

  ghost predicate RangeWithin(s: State, t: nat, low: int, high: int) {
    && t in s.cases && s.cases[t].result.log.Some?
    && low <= s.cases[t].result.log.value.begin <= s.cases[t].result.log.value.end <= high
  }

  /** The range of a call, complete or cut short, stays between the log sizes before and after it. */
  lemma RangeStays(s: State, es: seq<Event>, p: nat)
    requires Inv(s) && p < |es| && Logs(Run(s, es[..p]), es[p])
    ensures RangeWithin(Run(s, es), es[p].test,
                        LogLength(Run(s, es[..p]), es[p].suite), LogLength(Run(s, es[..p + 1]), es[p].suite))
    ensures Run(s, es[..p + 1]).Ended(es[p].test)
  {
    RunKeepsInv(s, es[..p]);
    RunSplit(s, es, p);
    RangeRecorded(Run(s, es[..p]), es[p], es[p + 1..]);
  }

  lemma RangeRecorded(s: State, e: Event, es: seq<Event>)
    requires Inv(s) && Logs(s, e)
    ensures Next(s, e).Ended(e.test)
    ensures RangeWithin(Run(Next(s, e), es), e.test, LogLength(s, e.suite), LogLength(Next(s, e), e.suite))
  {
    EndTestLogs(s, e);
    StepKeepsInv(s, e);
    EndedNeverChanges(Next(s, e), es, e.test);
  }

  lemma LogLengthGrows(s: State, es: seq<Event>, p: nat, q: nat, i: nat)
    requires Inv(s) && p <= q <= |es|
    ensures LogLength(Run(s, es[..p]), i) <= LogLength(Run(s, es[..q]), i)
  {
    assert es[..q] == es[..p] + es[p..q];
    RunConcat(s, es[..p], es[p..q]);
    RunKeepsInv(s, es[..p]);
    if i in Run(s, es[..p]).suites {
      LogOnlyGrows(Run(s, es[..p]), es[p..q], i);
    }
  }

  lemma RangeBelow(s: State, es: seq<Event>, p: nat, q: nat)
    requires Inv(s) && p < q <= |es| && Logs(Run(s, es[..p]), es[p])
    ensures RangeWithin(Run(s, es), es[p].test, 0, LogLength(Run(s, es[..q]), es[p].suite))
  {
    RangeStays(s, es, p);
    LogLengthGrows(s, es, p + 1, q, es[p].suite);
  }

  lemma RangeAbove(s: State, es: seq<Event>, p: nat)
    requires Inv(s) && p < |es| && Logs(Run(s, es[..p]), es[p])
    ensures RangeWithin(Run(s, es), es[p].test, LogLength(Run(s, es[..p]), es[p].suite),
                        LogLength(Run(s, es), es[p].suite))
  {
    RangeStays(s, es, p);
    LogLengthGrows(s, es, p + 1, |es|, es[p].suite);
    assert es[..|es|] == es;
  }

  /** Of two calls on one suite, complete or cut short, the earlier range ends before the later one
      begins, and both are still recorded and lie inside the log at the end of the run. */
  lemma DetailsRangesOrdered(s: State, es: seq<Event>, p: nat, q: nat)
    requires Inv(s) && p < q < |es| && Logs(Run(s, es[..p]), es[p]) && Logs(Run(s, es[..q]), es[q])
    requires es[p].suite == es[q].suite
    ensures var m := LogLength(Run(s, es[..q]), es[q].suite);
      RangeWithin(Run(s, es), es[p].test, 0, m)
      && RangeWithin(Run(s, es), es[q].test, m, LogLength(Run(s, es), es[q].suite))
  {
    RangeBelow(s, es, p, q);
    RangeAbove(s, es, q);
  }

  /** No test is ended twice, so the two calls above always concern different tests. */
  lemma EndedOnlyOnce(s: State, es: seq<Event>, p: nat, q: nat)
    requires Inv(s) && p < q < |es| && Logs(Run(s, es[..p]), es[p]) && Logs(Run(s, es[..q]), es[q])
    ensures es[p].test != es[q].test
  {
    RangeStays(s, es, p);
    StillEnded(s, es, p + 1, q, es[p].test);
  }

  lemma StillEnded(s: State, es: seq<Event>, p: nat, q: nat, t: nat)
    requires Inv(s) && p <= q <= |es| && Run(s, es[..p]).Ended(t)
    ensures Run(s, es[..q]).Ended(t)
  {
    assert es[..q] == es[..p] + es[p..q];
    RunConcat(s, es[..p], es[p..q]);
    RunKeepsInv(s, es[..p]);
    EndedNeverChanges(Run(s, es[..p]), es[p..q], t);
  }

  // A details file that was closed by a failed save

  /** The text handed in with a test is on record, inline or as a range of the named suite's log. */
  ghost predicate TextKept(s: State, i: nat, t: nat, text: string) {
    t in s.cases && (s.cases[t].result.details == text || Selects(s, i, t, text))
  }

  lemma StepKeepsClosed(s: State, e: Event, i: nat)
    requires Inv(s) && i in s.suites && s.suites[i].file == Closed
    ensures var z := Next(s, e);
      i in z.suites && z.suites[i].file == Closed && z.suites[i].log == s.suites[i].log && z.suites[i].offset == s.suites[i].offset
  {
    match e
    case EndTest(j, t, r, io, refused) => EndTestSuites(s, j, t, r, io, refused);
    case EndSuite(j, saved, stuck) => EndSuiteSuites(s, j, saved, stuck);
    case StartSuite(_, _) =>
    case StartTest(_, _) =>
    case _ => QuietEventsKeepStructure(s, e);
  }

  /** Once closed, the details file of a suite stays closed and takes nothing more. */
  lemma {:induction false} ClosedStaysClosed(s: State, es: seq<Event>, i: nat)
    requires Inv(s) && i in s.suites && s.suites[i].file == Closed
    ensures var z := Run(s, es); i in z.suites && z.suites[i].file == Closed && z.suites[i].log == s.suites[i].log
    decreases |es|
  {
    if es != [] {
      ClosedStaysClosed(s, es[..|es| - 1], i);
      RunKeepsInv(s, es[..|es| - 1]);
      StepKeepsClosed(Run(s, es[..|es| - 1]), es[|es| - 1], i);
    }
  }

  /** An accepted call that reports a text and whose write, if it comes to one, would be complete. */
  ghost predicate Reports(s: State, e: Event) {
    && e.EndTest? && Apply(s, e).reply == Done && e.io == Complete
    && e.result.value.details != "" && e.result.value.log.None?
  }

  lemma ReportKept(s: State, e: Event)
    requires Inv(s) && Reports(s, e)
    ensures TextKept(Next(s, e), e.suite, e.test, e.result.value.details) <==> s.suites[e.suite].file != Closed
  {
    if Logs(s, e) {
      EndTestLogs(s, e);
    }
  }

  /** At the end of any run, the text of such a call is on record exactly if the details file of the named
      suite had not been closed by a failed save. */
  lemma TextKeptExactly(s: State, es: seq<Event>, p: nat)
    requires Inv(s) && p < |es| && Reports(Run(s, es[..p]), es[p])
    ensures es[p].suite in Run(s, es[..p]).suites
    ensures TextKept(Run(s, es), es[p].suite, es[p].test, es[p].result.value.details)
       <==> Run(s, es[..p]).suites[es[p].suite].file != Closed
  {
    RunKeepsInv(s, es[..p]);
    RunSplit(s, es, p);
    ReportKept(Run(s, es[..p]), es[p]);
    ReportKeptOn(Run(s, es[..p]), es[p], es[p + 1..]);
  }

  lemma ReportKeptOn(s: State, e: Event, es: seq<Event>)
    requires Inv(s) && Reports(s, e)
    ensures var text := e.result.value.details;
      TextKept(Run(Next(s, e), es), e.suite, e.test, text) <==> TextKept(Next(s, e), e.suite, e.test, text)
  {
    StepKeepsInv(s, e);
    if Logs(s, e) {
      EndTestLogs(s, e);
    }
    KeptStays(Next(s, e), es, e.suite, e.test, e.result.value.details);
  }

  /** What the record of an ended test selects is settled when it ends, if its range lies inside the log. */
  lemma KeptStays(s: State, es: seq<Event>, i: nat, t: nat, text: string)
    requires Inv(s) && s.Ended(t) && i in s.suites
    requires s.cases[t].result.log.Some? ==> RangeWithin(s, t, 0, LogLength(s, i))
    ensures TextKept(Run(s, es), i, t, text) <==> TextKept(s, i, t, text)
  {
    EndedNeverChanges(s, es, t);
    LogOnlyGrows(s, es, i);
    if s.cases[t].result.log.Some? {
      var r := s.cases[t].result.log.value;
      assert Run(s, es).suites[i].log[r.begin..r.end] == s.suites[i].log[r.begin..r.end];
    }
  }

  /** A test that ends after a failed save loses its text although no write to an open file was cut short. */
  lemma ClosedFileLosesText() returns (es: seq<Event>)
    ensures var z := Run(Init(true, 1), es); z.Ended(1) && !TextKept(z, 0, 1, "d")
    ensures es == [StartSuite("a", true), EndSuite(0, false, {}), StartTest(0, "x"),
                   EndTest(0, 1, Some(TestResult(true, false, "d", None)), Complete, {})]
  {
    var e1, e2, e3 := StartSuite("a", true), EndSuite(0, false, {}), StartTest(0, "x");
    var e4 := EndTest(0, 1, Some(TestResult(true, false, "d", None)), Complete, {});
    es := [e1, e2, e3, e4];
    var z := Init(true, 1);
    RunOfThree(z, e1, e2, e3);
    assert es[..3] == [e1, e2, e3];
    RunKeepsInv(z, es[..3]);
    ClosedSuiteTakesTest(z, e1, e2, e3);
    LosesText(Run(z, es[..3]), e4);
  }

  lemma LosesText(s: State, e: Event)
    requires Inv(s) && 0 in s.running && 1 in s.active && s.suites[0].file == Closed
    requires e == EndTest(0, 1, Some(TestResult(true, false, "d", None)), Complete, {})
    ensures Next(s, e).Ended(1) && !TextKept(Next(s, e), 0, 1, "d")
  {
    ReportKept(s, e);
  }

  lemma ClosedSuiteTakesTest(z: State, e1: Event, e2: Event, e3: Event)
    requires z == Init(true, 1) && e1 == StartSuite("a", true) && e2 == EndSuite(0, false, {}) && e3 == StartTest(0, "x")
    ensures var s := Next(Next(Next(z, e1), e2), e3);
      s.running == {0} && s.active == {1} && 1 in s.cases && 0 in s.suites && s.suites[0].file == Closed
  {
    var s1 := Next(z, e1);
    assert s1.suites == map[0 := SuiteRec("a", {}, Open, 0, "")];
    assert Next(s1, e2).suites == map[0 := SuiteRec("a", {}, Closed, 0, "")];
  }

  lemma RunOfThree(s: State, e1: Event, e2: Event, e3: Event)
    ensures Run(s, [e1, e2, e3]) == Next(Next(Next(s, e1), e2), e3)
  {
    assert [e1, e2, e3][..2] == [e1, e2] && [e1, e2][..1] == [e1] && [e1][..0] == [];
    assert Run(s, [e1]) == Next(s, e1);
    assert Run(s, [e1, e2]) == Next(Next(s, e1), e2);
  }

  // A call that names another suite than the test's own

  /** A complete block reaches the log of the test's own suite exactly when the call names that suite. */
  lemma DetailsReachOwnSuite(s: State, e: Event, home: nat)
    requires Inv(s) && LogsAll(s, e) && InSuite(s, home, e.test)
    ensures home in Next(s, e).suites
    ensures Next(s, e).suites[home].log
              == s.suites[home].log + DetailsBlock(s.cases[e.test].name, e.result.value.details)
            <==> e.suite == home
  {
  }

  /** The suite named in the call decides where the text goes. Neither the manager nor the API checks
      that the test belongs to it, so a call naming another running suite leaves the test with a range
      that does not even lie inside its own suite's log. */
  lemma WrongSuiteMisplacesDetails() returns (es: seq<Event>)
    ensures es == [StartSuite("a", true), StartSuite("b", true), StartTest(0, "x"),
                   EndTest(1, 1, Some(TestResult(true, false, "d", None)), Complete, {})]
    ensures var before := Run(Init(true, 1), es[..3]); 1 in before.running && 1 in before.active  // what the API asks
    ensures Misplaced(Run(Init(true, 1), es), 0, 1)
  {
    var e1, e2, e3 := StartSuite("a", true), StartSuite("b", true), StartTest(0, "x");
    var e4 := EndTest(1, 1, Some(TestResult(true, false, "d", None)), Complete, {});
    es := [e1, e2, e3, e4];
    var z := Init(true, 1);
    RunOfThree(z, e1, e2, e3);
    assert es[..3] == [e1, e2, e3];
    var s1 := Next(z, e1);
    var s2 := Next(s1, e2);
    assert s1.suites == map[0 := SuiteRec("a", {}, Open, 0, "")];
    assert s2.suites == map[0 := SuiteRec("a", {}, Open, 0, ""), 1 := SuiteRec("b", {}, Open, 0, "")];
    MisplacedByWrongSuite(Next(s2, e3), e4);
  }

  /** Test `t` of suite `i` has ended with a range that starts beyond the end of the suite's log. */
  ghost predicate Misplaced(s: State, i: nat, t: nat) {
    && InSuite(s, i, t) && s.Ended(t) && s.cases[t].result.log.Some?
    && s.cases[t].result.log.value.begin > |s.suites[i].log|
  }

  lemma MisplacedByWrongSuite(s: State, e: Event)
    requires e == EndTest(1, 1, Some(TestResult(true, false, "d", None)), Complete, {})
    requires s.running == {0, 1} && s.active == {1} && s.cases.Keys == {1} && s.cases[1].name == "x"
    requires InSuite(s, 0, 1) && s.suites[0].log == "" && 1 in s.suites
    requires s.suites[1].file == Open && s.suites[1].offset == 0
    ensures Misplaced(Next(s, e), 0, 1)
  {
  }
}
