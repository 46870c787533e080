/** What running tests leaves on record is what Scripts reads off the test bodies. */
module DriverVerdicts {
  import opened Wrappers
  import opened Records
  import opened ManagerSpec
  import opened ManagerInvariants
  import opened ClientWindows
  import opened Api
  import opened Scripts
  import opened Driver
  import opened DriverProgress

  ghost predicate WritesComplete(env: Env) { forall t :: env.io(t) == Complete }

  lemma StartGrew(env: Env, o: Out, t: Local, start: Start)
    requires Ready(o.state, env.i) && t.id in o.state.active
    ensures var z := AfterStart(env, o, t, start);
      && Grew(o.state, z.out.state, env.i, [], t.id, WritesComplete(env)) && (z.up <==> Starts(env.host, start))
      && z.local == Local(t.id, t.pass && z.up, t.details + if z.up then "" else start.complaint)
  {
    if start.client in Names(env.host.clientTypes) && start.launch.Ran? {
      var e := Registration(o.state, t.id, start);
      assert AfterStart(env, o, t, start).out.state == Next(o.state, e);
      ClientStarted(o.state, env.i, t.id, e, WritesComplete(env));
    } else {
      assert AfterStart(env, o, t, start).out == o;
      GrewNothing(o.state, env.i, t.id, WritesComplete(env));
    }
  }

  lemma StartGrewFurther(env: Env, s: State, o: Out, t: Local, start: Start)
    requires Grew(s, o.state, env.i, [], t.id, WritesComplete(env)) && t.id in s.active && t.id <= s.caseCounter
    ensures var z := AfterStart(env, o, t, start);
      && Grew(s, z.out.state, env.i, [], t.id, WritesComplete(env)) && (z.up <==> Starts(env.host, start))
      && z.local == Local(t.id, t.pass && z.up, t.details + if z.up then "" else start.complaint)
  {
    StartGrew(env, o, t, start);
    GrewFurther(s, o.state, AfterStart(env, o, t, start).out.state, env.i, [], [], t.id, WritesComplete(env));
  }

  lemma {:induction false} StartsGrew(env: Env, o: Out, t: Local, starts: seq<Start>)
    requires Ready(o.state, env.i) && t.id in o.state.active && t.id <= o.state.caseCounter
    ensures var z := AfterStarts(env, o, t, starts);
      && Grew(o.state, z.out.state, env.i, [], t.id, WritesComplete(env)) && (z.up <==> AllStart(env.host, starts))
      && z.local == Local(t.id, t.pass && z.up, t.details + if z.up then "" else Complaint(env.host, starts))
    decreases |starts|
  {
    if starts == [] {
      GrewNothing(o.state, env.i, t.id, WritesComplete(env));
    } else {
      var front, last := starts[..|starts| - 1], starts[|starts| - 1];
      StartsGrew(env, o, t, front);
      OneMoreStart(env.host, starts);
      var before := AfterStarts(env, o, t, front);
      assert t.details + "" == t.details;
      if before.up {
        StartGrewFurther(env, o.state, before.out, before.local, last);
      }
    }
  }

  lemma OneMoreStart(h: Host, starts: seq<Start>)
    requires starts != []
    ensures var front, last := starts[..|starts| - 1], starts[|starts| - 1];
      AllStart(h, starts) <==> AllStart(h, front) && Starts(h, last)
  {
    assert starts == starts[..|starts| - 1] + [starts[|starts| - 1]];
  }

  lemma {:induction false} CallGrew(env: Env, o: Out, t: Local, a: Action)
    requires Ready(o.state, env.i) && t.id in o.state.active && t.id <= o.state.caseCounter
    ensures var z := AfterCall(env, o, t, a); var h := env.host;
      && Grew(o.state, z.out.state, env.i, ActionVerdicts(h, env.suite, a), t.id, WritesComplete(env))
      && (z.up <==> !Stopping(h, a)) && z.local == Local(t.id, t.pass && !Failing(h, a), t.details + TextOf(h, a))
    decreases a, 3
  {
    match a
    case StartClient(start) =>
      assert AfterCall(env, o, t, a) == AfterStart(env, o, t, start);
      StartGrew(env, o, t, start);
    case Sub(test) =>
      assert AfterCall(env, o, t, a).out == AfterSpec(env, o, test).out;
      SubGrew(env, o, t, test);
    case _ =>
      assert AfterCall(env, o, t, a).out == o;
      GrewNothing(o.state, env.i, t.id, WritesComplete(env));
  }

  lemma {:induction false} SubGrew(env: Env, o: Out, t: Local, test: AnyTest)
    requires Ready(o.state, env.i) && t.id in o.state.active
    ensures Grew(o.state, AfterSpec(env, o, test).out.state, env.i, TestVerdicts(env.host, env.suite, test).all, t.id, WritesComplete(env))
    decreases test, 2
  {
    SpecGrew(env, o, test);
    GrewForAny(o.state, AfterSpec(env, o, test).out.state, env.i, TestVerdicts(env.host, env.suite, test).all, t.id, WritesComplete(env));
  }

  lemma {:induction false} CallGrewFurther(env: Env, s: State, o: Out, t: Local, a: Action, vs: seq<Verdict>)
    requires Grew(s, o.state, env.i, vs, t.id, WritesComplete(env)) && t.id in s.active && t.id <= s.caseCounter
    ensures var z := AfterCall(env, o, t, a); var h := env.host;
      && Grew(s, z.out.state, env.i, vs + ActionVerdicts(h, env.suite, a), t.id, WritesComplete(env))
      && (z.up <==> !Stopping(h, a)) && z.local == Local(t.id, t.pass && !Failing(h, a), t.details + TextOf(h, a))
    decreases a, 4
  {
    CallGrew(env, o, t, a);
    GrewFurther(s, o.state, AfterCall(env, o, t, a).out.state, env.i, vs, ActionVerdicts(env.host, env.suite, a), t.id, WritesComplete(env));
  }

  /** In `z` the first `k` calls of a body, as far as they are reached, have been made from `o` on. */
  ghost predicate CallsMade(env: Env, o: Out, t: Local, body: seq<Action>, k: nat, z: Step)
    requires k <= |body|
  {
    && Grew(o.state, z.out.state, env.i, SubVerdicts(env.host, env.suite, body, k), t.id, WritesComplete(env))
    && (z.up <==> Reached(env.host, body, k))
    && z.local == Local(t.id, t.pass && Clean(env.host, body, k), t.details + Logged(env.host, body, k))
  }

  lemma NoCallMade(env: Env, o: Out, t: Local, body: seq<Action>)
    requires Ready(o.state, env.i)
    ensures CallsMade(env, o, t, body, 0, AfterCalls(env, o, t, body, 0))
  {
    GrewNothing(o.state, env.i, t.id, WritesComplete(env));
    assert t.details + "" == t.details;
  }

  lemma NoMoreCallMade(env: Env, o: Out, t: Local, body: seq<Action>, k: nat)
    requires 0 < k <= |body| && CallsMade(env, o, t, body, k - 1, AfterCalls(env, o, t, body, k - 1))
    requires !AfterCalls(env, o, t, body, k - 1).up
    ensures CallsMade(env, o, t, body, k, AfterCalls(env, o, t, body, k))
  {
    var vs, text := SubVerdicts(env.host, env.suite, body, k - 1), Logged(env.host, body, k - 1);
    assert vs + [] == vs && text + "" == text;
  }

  lemma {:induction false} OneMoreCallMade(env: Env, o: Out, t: Local, body: seq<Action>, k: nat)
    requires t.id in o.state.active && t.id <= o.state.caseCounter
    requires 0 < k <= |body| && CallsMade(env, o, t, body, k - 1, AfterCalls(env, o, t, body, k - 1))
    requires AfterCalls(env, o, t, body, k - 1).up
    ensures CallsMade(env, o, t, body, k, AfterCalls(env, o, t, body, k))
    decreases body, 0, k
  {
    var h, a, text := env.host, body[k - 1], Logged(env.host, body, k - 1);
    var before := AfterCalls(env, o, t, body, k - 1);
    assert AfterCalls(env, o, t, body, k) == AfterCall(env, before.out, before.local, a);
    CallGrewFurther(env, o.state, before.out, before.local, a, SubVerdicts(h, env.suite, body, k - 1));
    OneMoreCall(h, env.suite, body, k);
    assert t.details + text + TextOf(h, a) == t.details + (text + TextOf(h, a));
  }

  /** What one more call that is reached adds to the reading of a body. */
  lemma OneMoreCall(h: Host, suite: string, body: seq<Action>, k: nat)
    requires 0 < k <= |body| && Reached(h, body, k - 1)
    ensures var a := body[k - 1];
      && SubVerdicts(h, suite, body, k) == SubVerdicts(h, suite, body, k - 1) + ActionVerdicts(h, suite, a)
      && Logged(h, body, k) == Logged(h, body, k - 1) + TextOf(h, a)
      && (Clean(h, body, k) <==> Clean(h, body, k - 1) && !Failing(h, a)) && (Reached(h, body, k) <==> !Stopping(h, a))
  {
  }

  lemma {:induction false} CallsGrew(env: Env, o: Out, t: Local, body: seq<Action>, k: nat)
    requires Ready(o.state, env.i) && t.id in o.state.active && t.id <= o.state.caseCounter && k <= |body|
    ensures CallsMade(env, o, t, body, k, AfterCalls(env, o, t, body, k))
    decreases body, 0, k + 1
  {
    if k == 0 {
      NoCallMade(env, o, t, body);
    } else {
      CallsGrew(env, o, t, body, k - 1);
      if AfterCalls(env, o, t, body, k - 1).up {
        OneMoreCallMade(env, o, t, body, k);
      } else {
        NoMoreCallMade(env, o, t, body, k);
      }
    }
  }

  lemma {:induction false} BodyGrew(env: Env, o: Out, id: nat, starts: seq<Start>, body: seq<Action>)
    requires Ready(o.state, env.i) && id in o.state.active && id <= o.state.caseCounter
    ensures var z := AfterBody(env, o, Local(id, true, ""), starts, body); var h := env.host;
      && Grew(o.state, z.out.state, env.i, BodyVerdicts(h, env.suite, starts, body), id, WritesComplete(env))
      && z.local == Local(id, Passes(h, starts, body), if AllStart(h, starts) then Logged(h, body, |body|) else Complaint(h, starts))
    decreases body, 2
  {
    var t := Local(id, true, "");
    StartsGrew(env, o, t, starts);
    var started := AfterStarts(env, o, t, starts);
    CleanMeansNoFailure(env.host, body, |body|);
    if started.up {
      assert started.local == t;
      assert AfterBody(env, o, t, starts, body) == AfterCalls(env, started.out, t, body, |body|);
      CallsGrewAfter(env, o, started.out, t, body);
    } else {
      assert AfterBody(env, o, t, starts, body) == started;
    }
  }

  lemma {:induction false} CallsGrewAfter(env: Env, o: Out, started: Out, t: Local, body: seq<Action>)
    requires Grew(o.state, started.state, env.i, [], t.id, WritesComplete(env))
    requires t.id in o.state.active && t.id <= o.state.caseCounter && t.pass && t.details == ""
    ensures var z := AfterCalls(env, started, t, body, |body|);
      && Grew(o.state, z.out.state, env.i, SubVerdicts(env.host, env.suite, body, |body|), t.id, WritesComplete(env))
      && z.local == Local(t.id, Clean(env.host, body, |body|), Logged(env.host, body, |body|))
    decreases body, 1
  {
    var vs := SubVerdicts(env.host, env.suite, body, |body|);
    CallsGrew(env, started, t, body, |body|);
    GrewFurther(o.state, started.state, AfterCalls(env, started, t, body, |body|).out.state, env.i, [], vs, t.id, WritesComplete(env));
    assert [] + vs == vs;
  }

  /** A registered test. */
  lemma {:induction false} RegisteredGrew(env: Env, o: Out, name: string, starts: seq<Start>, body: seq<Action>)
    requires Ready(o.state, env.i)
    ensures var z := AfterRegistered(env, Do(o, StartTest(env.i, name)), o.state.caseCounter + 1, starts, body);
      Grew(o.state, z.state, env.i, OwnVerdicts(env.host, env.suite, name, starts, body), 0, WritesComplete(env))
    decreases body, 3
  {
    var id, o1 := o.state.caseCounter + 1, Do(o, StartTest(env.i, name));
    TestStarted(o.state, env.i, name);
    BodyGrew(env, o1, id, starts, body);
    var done := AfterBody(env, o1, Local(id, true, ""), starts, body);
    var subs := BodyVerdicts(env.host, env.suite, starts, body);
    assert AfterRegistered(env, o1, id, starts, body) == Do(done.out, Report(env, id, done.local));
    assert OwnVerdicts(env.host, env.suite, name, starts, body) == [Verdict(name, done.local.pass, done.local.details)] + subs;
    ReportGrew(env, o, done, name, subs);
  }

  lemma ReportGrew(env: Env, o: Out, done: Step, name: string, subs: seq<Verdict>)
    requires Ready(o.state, env.i)
    requires Grew(Do(o, StartTest(env.i, name)).state, done.out.state, env.i, subs, o.state.caseCounter + 1, WritesComplete(env))
    ensures Grew(o.state, Do(done.out, Report(env, o.state.caseCounter + 1, done.local)).state, env.i,
                 [Verdict(name, done.local.pass, done.local.details)] + subs, 0, WritesComplete(env))
  {
    TestCompleted(o.state, done.out.state, env.i, name, subs, 0, Report(env, o.state.caseCounter + 1, done.local), WritesComplete(env));
  }

  lemma {:induction false} TestGrew(env: Env, o: Out, name: string, always: bool, starts: seq<Start>, body: seq<Action>)
    requires Ready(o.state, env.i)
    ensures var z := AfterTest(env, o, name, always, starts, body);
      var vs := RunVerdicts(env.host, env.suite, name, always, starts, body);
      Grew(o.state, z.out.state, env.i, vs.all, 0, WritesComplete(env)) && z.failed == vs.failed
    decreases body, 4
  {
    if (always || env.host.matches(env.suite, name)) && name != "" {
      RegisteredGrew(env, o, name, starts, body);
    } else {
      GrewNothing(o.state, env.i, 0, WritesComplete(env));
    }
  }

  lemma {:induction false} SpecGrew(env: Env, o: Out, test: AnyTest)
    requires Ready(o.state, env.i)
    ensures var z := AfterSpec(env, o, test); var vs := TestVerdicts(env.host, env.suite, test);
      Grew(o.state, z.out.state, env.i, vs.all, 0, WritesComplete(env)) && z.failed == vs.failed
    decreases test, 1
  {
    match test
    case TestSpec(name, always, body) => TestGrew(env, o, name, always, [], body);
    case ClientTestSpec(_, role, _, _, _) => ClientsGrew(env, o, test, |Matching(env.host.clientTypes, role)|);
    case NetworkTestSpec(name, role, always, launches, body) =>
      TestGrew(env, o, name, always, NetworkStarts(env.host, role, launches), body);
  }

  lemma {:induction false} ClientsGrew(env: Env, o: Out, test: AnyTest, k: nat)
    requires Ready(o.state, env.i) && test.ClientTestSpec? && k <= |Matching(env.host.clientTypes, test.role)|
    ensures var z := AfterClients(env, o, test, k); var vs := ClientVerdicts(env.host, env.suite, test, k);
      Grew(o.state, z.out.state, env.i, vs.all, 0, WritesComplete(env)) && z.failed == vs.failed
    decreases test, 0, k
  {
    GrewNothing(o.state, env.i, 0, WritesComplete(env));
    if k > 0 {
      ClientsGrew(env, o, test, k - 1);
      var before := AfterClients(env, o, test, k - 1);
      if !before.failed {
        var client := Matching(env.host.clientTypes, test.role)[k - 1];
        var name := ClientTestName(test.name, client);
        match ScriptFor(test, k - 1)
        case ClientScript(launch, complaint, body) =>
          TestGrew(env, before.out, name, test.alwaysRun, [Start(client, launch, complaint)], body);
          GrewFurther(o.state, before.out.state, AfterClients(env, o, test, k).out.state, env.i,
                      ClientVerdicts(env.host, env.suite, test, k - 1).all,
                      ScriptVerdicts(env.host, env.suite, name, client, test, k - 1).all, 0, WritesComplete(env));
      }
    }
  }

  lemma {:induction false} TestsGrew(env: Env, o: Out, tests: seq<AnyTest>)
    requires Ready(o.state, env.i)
    ensures var z := AfterTests(env, o, tests); var vs := SuiteVerdicts(env.host, env.suite, tests);
      Grew(o.state, z.out.state, env.i, vs.all, 0, WritesComplete(env)) && z.failed == vs.failed
    decreases |tests|
  {
    GrewNothing(o.state, env.i, 0, WritesComplete(env));
    if tests != [] {
      var front, last := tests[..|tests| - 1], tests[|tests| - 1];
      TestsGrew(env, o, front);
      var before := AfterTests(env, o, front);
      if !before.failed {
        SpecGrew(env, before.out, last);
        GrewFurther(o.state, before.out.state, AfterTests(env, o, tests).out.state, env.i,
                    SuiteVerdicts(env.host, env.suite, front).all, TestVerdicts(env.host, env.suite, last).all, 0, WritesComplete(env));
      }
    }
  }

  /** A suite that can be started ends, unless it cannot be saved, with its tests on record. */
  lemma SuiteOnRecordAfter(env: Env, s: State, tests: seq<AnyTest>, created: bool, saved: bool, stuck: set<string>)
    requires Inv(s) && env.i == s.suiteCounter && (created || !s.logDir)
    ensures var z := AfterSuite(env, s, tests, created, saved, stuck); var vs := SuiteVerdicts(env.host, env.suite, tests);
      && Inv(z.out.state) && z.failed == vs.failed
      && (Apply(AfterOpening(env, s, tests, created).out.state, EndSuite(env.i, saved, stuck)).reply == Done <==> saved || !s.logDir)
      && SuiteOnRecord(s, z.out.state, vs.all, saved || !s.logDir, WritesComplete(env))
  {
    var o := Do(Out(s, []), StartSuite(env.suite, created));
    var ran := AfterTests(env, o, tests);
    SuiteStarted(s, env.suite, created);
    assert Opened(s, o.state);
    TestsGrew(env, o, tests);
    EndingFinishes(env, s, o.state, ran.out, SuiteVerdicts(env.host, env.suite, tests).all, saved, stuck);
  }

  lemma EndingFinishes(env: Env, s: State, s1: State, o: Out, vs: seq<Verdict>, saved: bool, stuck: set<string>)
    requires Inv(s) && env.i == s.suiteCounter && Opened(s, s1) && Grew(s1, o.state, env.i, vs, 0, WritesComplete(env))
    ensures var z := Do(o, EndSuite(env.i, saved, stuck)).state;
      Inv(z) && (Apply(o.state, EndSuite(env.i, saved, stuck)).reply == Done <==> saved || !s.logDir)
      && SuiteOnRecord(s, z, vs, saved || !s.logDir, WritesComplete(env))
  {
    SuiteFinished(s, s1, o.state, vs, saved, stuck, WritesComplete(env));
  }
}
