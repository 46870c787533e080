/** What running tests does, as functions on the manager's state, and the manager calls it consists of. */
module Driver {
  import opened Wrappers
  import opened Records
  import opened ManagerSpec
  import opened ManagerInvariants
  import opened ClientWindows
  import opened Ownership
  import opened Api
  import opened Scripts

  /** The suite under way, what becomes of the details written for each test, and the containers that the
      backend fails to delete. */
  datatype Env = Env(host: Host, suite: string, i: nat, io: nat -> WriteOutcome, refused: set<string>)

  /** A state and the manager calls made so far. */
  datatype Out = Out(state: State, events: seq<Event>)

  function Do(o: Out, e: Event): Out { Out(Next(o.state, e), o.events + [e]) }

  /** The content of a T. */
  datatype Local = Local(id: nat, pass: bool, details: string)

  /** `up` says that the test goes on. */
  datatype Step = Step(out: Out, local: Local, up: bool)

  datatype Result = Result(out: Out, failed: bool)

  function AfterStart(env: Env, o: Out, t: Local, start: Start): Step {
    var admitted := Admits(o.state, env.i, t.id) && start.client in Names(env.host.clientTypes) && start.launch.Ran?;
    var o' := if admitted then Do(o, Registration(o.state, t.id, start)) else o;
    if admitted && start.launch.up then Step(o', t, true)
    else Step(o', Local(t.id, false, t.details + start.complaint), false)
  }

  function Registration(s: State, t: nat, start: Start): Event
    requires start.launch.Ran?
  {
    Register(t, start.launch.id, OwnerRecord(s.world, start.client, start.launch.id, start.launch.up))
  }

  function AfterStarts(env: Env, o: Out, t: Local, starts: seq<Start>): Step
    decreases |starts|
  {
    if starts == [] then Step(o, t, true)
    else
      var before := AfterStarts(env, o, t, starts[..|starts| - 1]);
      if !before.up then before else AfterStart(env, before.out, before.local, starts[|starts| - 1])
  }

  function AfterCall(env: Env, o: Out, t: Local, a: Action): Step
    decreases a, 2
  {
    match a
    case Log(text) => Step(o, t.(details := t.details + text), true)
    case Fail => Step(o, t.(pass := false), true)
    case FailNow => Step(o, t.(pass := false), false)
    case Panic(text) => Step(o, Local(t.id, false, t.details + text), false)
    case StartClient(start) => AfterStart(env, o, t, start)
    case Sub(test) => Step(AfterSpec(env, o, test).out, t, true)
  }

  /** After those of the first `k` calls of a body that are made. */
  function AfterCalls(env: Env, o: Out, t: Local, body: seq<Action>, k: nat): Step
    requires k <= |body|
    decreases body, 0, k
  {
    if k == 0 then Step(o, t, true)
    else
      var before := AfterCalls(env, o, t, body, k - 1);
      if !before.up then before else AfterCall(env, before.out, before.local, body[k - 1])
  }

  function AfterBody(env: Env, o: Out, t: Local, starts: seq<Start>, body: seq<Action>): Step
    decreases body, 1
  {
    var started := AfterStarts(env, o, t, starts);
    if !started.up then started else AfterCalls(env, started.out, started.local, body, |body|)
  }

  function AfterTest(env: Env, o: Out, name: string, always: bool, starts: seq<Start>, body: seq<Action>): Result
    decreases body, 3
  {
    if !always && !env.host.matches(env.suite, name) then Result(o, false)
    else if env.i !in o.state.running || name == "" then Result(o, true)
    else Result(AfterRegistered(env, Do(o, StartTest(env.i, name)), o.state.caseCounter + 1, starts, body), false)
  }

  function AfterRegistered(env: Env, o: Out, id: nat, starts: seq<Start>, body: seq<Action>): Out
    decreases body, 2
  {
    var done := AfterBody(env, o, Local(id, true, ""), starts, body);
    Do(done.out, Report(env, id, done.local))
  }

  function Report(env: Env, id: nat, t: Local): Event {
    EndTest(env.i, id, Some(TestResult(t.pass, false, t.details, None)), env.io(id), env.refused)
  }

  function AfterSpec(env: Env, o: Out, test: AnyTest): Result
    decreases test, 1
  {
    match test
    case TestSpec(name, always, body) => AfterTest(env, o, name, always, [], body)
    case ClientTestSpec(_, role, _, _, _) => AfterClients(env, o, test, |Matching(env.host.clientTypes, role)|)
    case NetworkTestSpec(name, role, always, launches, body) =>
      AfterTest(env, o, name, always, NetworkStarts(env.host, role, launches), body)
  }

  /** After the test was run for the first `k` clients, or up to the first that failed to be registered. */
  function AfterClients(env: Env, o: Out, test: AnyTest, k: nat): Result
    requires test.ClientTestSpec? && k <= |Matching(env.host.clientTypes, test.role)|
    decreases test, 0, k
  {
    if k == 0 then Result(o, false)
    else
      var before := AfterClients(env, o, test, k - 1);
      if before.failed then before
      else
        var client := Matching(env.host.clientTypes, test.role)[k - 1];
        match ScriptFor(test, k - 1)
        case ClientScript(launch, complaint, body) =>
          AfterTest(env, before.out, ClientTestName(test.name, client), test.alwaysRun, [Start(client, launch, complaint)], body)
  }

  function AfterTests(env: Env, o: Out, tests: seq<AnyTest>): Result
    decreases |tests|
  {
    if tests == [] then Result(o, false)
    else
      var before := AfterTests(env, o, tests[..|tests| - 1]);
      if before.failed then before else AfterSpec(env, before.out, tests[|tests| - 1])
  }

  function AfterOpening(env: Env, s: State, tests: seq<AnyTest>, created: bool): Result {
    AfterTests(env, Do(Out(s, []), StartSuite(env.suite, created)), tests)
  }

  /** A suite that is let through and can be started, from its start to its end. */
  function AfterSuite(env: Env, s: State, tests: seq<AnyTest>, created: bool, saved: bool, stuck: set<string>): Result {
    var ran := AfterOpening(env, s, tests, created);
    Result(Do(ran.out, EndSuite(env.i, saved, stuck)), ran.failed)
  }

  // Whatever ends a loop early is the last that happens

  lemma {:induction false} StartsStop(env: Env, o: Out, t: Local, starts: seq<Start>, k: nat)
    requires k <= |starts| && !AfterStarts(env, o, t, starts[..k]).up
    ensures AfterStarts(env, o, t, starts) == AfterStarts(env, o, t, starts[..k])
    decreases |starts|
  {
    if k == |starts| {
      assert starts[..k] == starts;
    } else {
      assert starts[..|starts| - 1][..k] == starts[..k];
      StartsStop(env, o, t, starts[..|starts| - 1], k);
    }
  }

  lemma {:induction false} CallsStop(env: Env, o: Out, t: Local, body: seq<Action>, k: nat, m: nat)
    requires k <= m <= |body| && !AfterCalls(env, o, t, body, k).up
    ensures AfterCalls(env, o, t, body, m) == AfterCalls(env, o, t, body, k)
    decreases m
  {
    if k < m {
      CallsStop(env, o, t, body, k, m - 1);
    }
  }

  lemma {:induction false} ClientsStop(env: Env, o: Out, test: AnyTest, k: nat, m: nat)
    requires test.ClientTestSpec? && k <= m <= |Matching(env.host.clientTypes, test.role)| && AfterClients(env, o, test, k).failed
    ensures AfterClients(env, o, test, m) == AfterClients(env, o, test, k)
    decreases m
  {
    if k < m {
      ClientsStop(env, o, test, k, m - 1);
    }
  }

  lemma {:induction false} TestsStop(env: Env, o: Out, tests: seq<AnyTest>, k: nat)
    requires k <= |tests| && AfterTests(env, o, tests[..k]).failed
    ensures AfterTests(env, o, tests) == AfterTests(env, o, tests[..k])
    decreases |tests|
  {
    if k == |tests| {
      assert tests[..k] == tests;
    } else {
      assert tests[..|tests| - 1][..k] == tests[..k];
      TestsStop(env, o, tests[..|tests| - 1], k);
    }
  }

  // The calls that running tests consists of

  /** Clients are registered under their own ids with running tests, their windows begin inside their logs,
      and the deletions that are refused are those of the run. */
  ghost predicate DriverStep(s: State, e: Event, refused: set<string>) {
    match e
    case StartSuite(_, _) => true
    case EndSuite(_, _, _) => true
    case StartTest(_, _) => true
    case EndTest(_, _, _, _, r) => r == refused
    case Register(t, node, info) => t in s.active && info.id == node && FairWindow(s, e)
    case _ => false
  }

  ghost predicate DriverRun(s: State, es: seq<Event>, refused: set<string>) {
    forall k | 0 <= k < |es| :: DriverStep(Run(s, es[..k]), es[k], refused)
  }

  ghost predicate Traced(s0: State, o: Out, refused: set<string>) {
    o.state == Run(s0, o.events) && DriverRun(s0, o.events, refused)
  }

  lemma DoKeepsTrace(s0: State, o: Out, e: Event, refused: set<string>)
    requires Traced(s0, o, refused) && DriverStep(o.state, e, refused)
    ensures Traced(s0, Do(o, e), refused)
  {
    var es := o.events + [e];
    assert es[..|o.events|] == o.events;
    forall k | 0 <= k < |es| ensures DriverStep(Run(s0, es[..k]), es[k], refused) {
      if k < |o.events| {
        assert es[..k] == o.events[..k];
      }
    }
  }

  lemma StartKeepsTrace(s0: State, env: Env, o: Out, t: Local, start: Start)
    requires Traced(s0, o, env.refused)
    ensures Traced(s0, AfterStart(env, o, t, start).out, env.refused)
  {
    if Admits(o.state, env.i, t.id) && start.launch.Ran? {
      DoKeepsTrace(s0, o, Registration(o.state, t.id, start), env.refused);
    }
  }

  lemma {:induction false} StartsKeepTrace(s0: State, env: Env, o: Out, t: Local, starts: seq<Start>)
    requires Traced(s0, o, env.refused)
    ensures Traced(s0, AfterStarts(env, o, t, starts).out, env.refused)
    decreases |starts|
  {
    if starts != [] {
      StartsKeepTrace(s0, env, o, t, starts[..|starts| - 1]);
      var before := AfterStarts(env, o, t, starts[..|starts| - 1]);
      StartKeepsTrace(s0, env, before.out, before.local, starts[|starts| - 1]);
    }
  }

  lemma {:induction false} CallKeepsTrace(s0: State, env: Env, o: Out, t: Local, a: Action)
    requires Traced(s0, o, env.refused)
    ensures Traced(s0, AfterCall(env, o, t, a).out, env.refused)
    decreases a, 2
  {
    match a
    case StartClient(start) => StartKeepsTrace(s0, env, o, t, start);
    case Sub(test) => SpecKeepsTrace(s0, env, o, test);
    case _ =>
  }

  lemma {:induction false} CallsKeepTrace(s0: State, env: Env, o: Out, t: Local, body: seq<Action>, k: nat)
    requires Traced(s0, o, env.refused) && k <= |body|
    ensures Traced(s0, AfterCalls(env, o, t, body, k).out, env.refused)
    decreases body, 0, k
  {
    if k > 0 {
      CallsKeepTrace(s0, env, o, t, body, k - 1);
      var before := AfterCalls(env, o, t, body, k - 1);
      CallKeepsTrace(s0, env, before.out, before.local, body[k - 1]);
    }
  }

  lemma {:induction false} RegisteredKeepsTrace(s0: State, env: Env, o: Out, id: nat, starts: seq<Start>, body: seq<Action>)
    requires Traced(s0, o, env.refused)
    ensures Traced(s0, AfterRegistered(env, o, id, starts, body), env.refused)
    decreases body, 2
  {
    var t := Local(id, true, "");
    StartsKeepTrace(s0, env, o, t, starts);
    var started := AfterStarts(env, o, t, starts);
    if started.up {
      CallsKeepTrace(s0, env, started.out, started.local, body, |body|);
    }
    var done := AfterBody(env, o, t, starts, body);
    DoKeepsTrace(s0, done.out, Report(env, id, done.local), env.refused);
  }

  lemma {:induction false} TestKeepsTrace(s0: State, env: Env, o: Out, name: string, always: bool, starts: seq<Start>, body: seq<Action>)
    requires Traced(s0, o, env.refused)
    ensures Traced(s0, AfterTest(env, o, name, always, starts, body).out, env.refused)
    decreases body, 3
  {
    DoKeepsTrace(s0, o, StartTest(env.i, name), env.refused);
    RegisteredKeepsTrace(s0, env, Do(o, StartTest(env.i, name)), o.state.caseCounter + 1, starts, body);
  }

  lemma {:induction false} SpecKeepsTrace(s0: State, env: Env, o: Out, test: AnyTest)
    requires Traced(s0, o, env.refused)
    ensures Traced(s0, AfterSpec(env, o, test).out, env.refused)
    decreases test, 1
  {
    match test
    case TestSpec(name, always, body) => TestKeepsTrace(s0, env, o, name, always, [], body);
    case ClientTestSpec(_, role, _, _, _) => ClientsKeepTrace(s0, env, o, test, |Matching(env.host.clientTypes, role)|);
    case NetworkTestSpec(name, role, always, launches, body) =>
      TestKeepsTrace(s0, env, o, name, always, NetworkStarts(env.host, role, launches), body);
  }

  lemma {:induction false} ClientsKeepTrace(s0: State, env: Env, o: Out, test: AnyTest, k: nat)
    requires Traced(s0, o, env.refused) && test.ClientTestSpec? && k <= |Matching(env.host.clientTypes, test.role)|
    ensures Traced(s0, AfterClients(env, o, test, k).out, env.refused)
    decreases test, 0, k
  {
    if k > 0 {
      ClientsKeepTrace(s0, env, o, test, k - 1);
      var before := AfterClients(env, o, test, k - 1);
      var client := Matching(env.host.clientTypes, test.role)[k - 1];
      match ScriptFor(test, k - 1)
      case ClientScript(launch, complaint, body) =>
        TestKeepsTrace(s0, env, before.out, ClientTestName(test.name, client), test.alwaysRun, [Start(client, launch, complaint)], body);
    }
  }

  lemma {:induction false} TestsKeepTrace(s0: State, env: Env, o: Out, tests: seq<AnyTest>)
    requires Traced(s0, o, env.refused)
    ensures Traced(s0, AfterTests(env, o, tests).out, env.refused)
    decreases |tests|
  {
    if tests != [] {
      TestsKeepTrace(s0, env, o, tests[..|tests| - 1]);
      SpecKeepsTrace(s0, env, AfterTests(env, o, tests[..|tests| - 1]).out, tests[|tests| - 1]);
    }
  }

  /** Running a suite is a run of manager calls. */
  lemma SuiteIsRun(env: Env, s: State, tests: seq<AnyTest>, created: bool, saved: bool, stuck: set<string>)
    ensures Traced(s, AfterSuite(env, s, tests, created, saved, stuck).out, env.refused)
  {
    var o := Do(Out(s, []), StartSuite(env.suite, created));
    assert Run(s, []) == s;
    DoKeepsTrace(s, Out(s, []), StartSuite(env.suite, created), env.refused);
    TestsKeepTrace(s, env, o, tests);
    DoKeepsTrace(s, AfterTests(env, o, tests).out, EndSuite(env.i, saved, stuck), env.refused);
  }
}
