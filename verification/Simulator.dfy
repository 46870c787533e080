/** Running suites of tests against the API (xrplsim/testapi.go). Every method is proved to do what the function
    of Driver for it says; what a suite run leaves on record is proved to be what Scripts reads off the bodies. */
module Simulator {
  import opened Wrappers
  import opened Records
  import opened ManagerSpec
  import opened ManagerInvariants
  import opened Manager
  import opened ClientWindows
  import opened Ownership
  import opened Api
  import opened Scripts
  import opened Driver
  import opened DriverProgress
  import opened DriverVerdicts
  import opened DriverContainers

  /** A running test. */
  class T {
    const id: nat
    var pass: bool
    var details: string

    constructor (id: nat)
      ensures View() == Local(id, true, "")
    {
      this.id, pass, details := id, true, "";
    }

    function View(): Local
      reads this
    {
      Local(id, pass, details)
    }

    method Logf(text: string)
      modifies `details
      ensures details == old(details) + text
    {
      details := details + text;
    }

    method Fail()
      modifies `pass
      ensures !pass
    {
      pass := false;
    }
  }

  class Simulation {
    const api: SimApi
    const tm: TestManager
    const host: Host
    const io: nat -> WriteOutcome    // what becomes of the details written for each test
    const refused: set<string>       // containers that the backend fails to delete

    ghost predicate Valid()
      reads tm
    {
      api.tm == tm && api.clients == Names(host.clientTypes) && tm.Valid()
    }

    function EnvOf(i: nat, suite: string): Env { Env(host, suite, i, io, refused) }

    constructor (api: SimApi, host: Host, io: nat -> WriteOutcome, refused: set<string>)
      requires api.clients == Names(host.clientTypes) && api.tm.Valid()
      ensures Valid() && tm == api.tm && this.host == host && this.io == io && this.refused == refused
    {
      this.api, tm, this.host, this.io, this.refused := api, api.tm, host, io, refused;
    }

    /** Starts a client for a test, which fails at once when the client does not come up. `o` and `out` are the
        state and the calls made so far, before and after. */
    method StartClient(i: nat, suite: string, t: T, start: Start, ghost o: Out) returns (up: bool, ghost out: Out)
      requires Valid() && o.state == tm.Snapshot()
      modifies tm, t
      ensures Valid() && out.state == tm.Snapshot()
      ensures Step(out, t.View(), up) == AfterStart(EnvOf(i, suite), o, old(t.View()), start)
    {
      var r := api.StartClient(i, t.id, start.client, start.launch);
      up, out := r.Accepted?, AfterStart(EnvOf(i, suite), o, t.View(), start).out;
      if !up {
        t.Logf(start.complaint);
        t.Fail();
      }
    }

    method StartClients(i: nat, suite: string, t: T, starts: seq<Start>, ghost o: Out) returns (up: bool, ghost out: Out)
      requires Valid() && o.state == tm.Snapshot()
      modifies tm, t
      ensures Valid() && out.state == tm.Snapshot()
      ensures Step(out, t.View(), up) == AfterStarts(EnvOf(i, suite), o, old(t.View()), starts)
    {
      ghost var env, t0 := EnvOf(i, suite), t.View();
      up, out := true, o;
      for k := 0 to |starts|
        invariant Valid() && up && out.state == tm.Snapshot()
        invariant Step(out, t.View(), up) == AfterStarts(env, o, t0, starts[..k])
      {
        assert starts[..k + 1][..k] == starts[..k];
        up, out := StartClient(i, suite, t, starts[k], out);
        if !up {
          StartsStop(env, o, t0, starts, k + 1);
          return;
        }
      }
      assert starts[..|starts|] == starts;
    }

    /** Interprets one call made by a test body; `up` says that the call returns. */
    method RunAction(i: nat, suite: string, t: T, a: Action, ghost o: Out) returns (up: bool, ghost out: Out)
      requires Valid() && o.state == tm.Snapshot()
      modifies tm, t
      ensures Valid() && out.state == tm.Snapshot()
      ensures Step(out, t.View(), up) == AfterCall(EnvOf(i, suite), o, old(t.View()), a)
      decreases a, 2
    {
      up, out := true, o;
      match a {
        case Log(text) => t.Logf(text);
        case Fail => t.Fail();
        case FailNow =>
          t.Fail();
          up := false;
        case Panic(text) =>
          t.Logf(text);
          t.Fail();
          up := false;
        case StartClient(start) =>
          up, out := StartClient(i, suite, t, start, o);
        case Sub(test) =>
          var failed;
          failed, out := RunSpec(i, suite, test, o);
      }
    }

    /** The body runs until it ends, panics or exits early. */
    method RunBody(i: nat, suite: string, t: T, body: seq<Action>, ghost o: Out) returns (up: bool, ghost out: Out)
      requires Valid() && o.state == tm.Snapshot()
      modifies tm, t
      ensures Valid() && out.state == tm.Snapshot()
      ensures Step(out, t.View(), up) == AfterCalls(EnvOf(i, suite), o, old(t.View()), body, |body|)
      decreases body, 0
    {
      ghost var env, t0 := EnvOf(i, suite), t.View();
      up, out := true, o;
      for k := 0 to |body|
        invariant Valid() && up && out.state == tm.Snapshot()
        invariant Step(out, t.View(), up) == AfterCalls(env, o, t0, body, k)
      {
        up, out := RunAction(i, suite, t, body[k], out);
        if !up {
          CallsStop(env, o, t0, body, k + 1, |body|);
          return;
        }
      }
    }

    /** Starts the clients of a test and, when they are up, runs its body. */
    method Perform(i: nat, suite: string, t: T, starts: seq<Start>, body: seq<Action>, ghost o: Out) returns (ghost out: Out)
      requires Valid() && o.state == tm.Snapshot()
      modifies tm, t
      ensures Valid() && out.state == tm.Snapshot()
      ensures var z := AfterBody(EnvOf(i, suite), o, old(t.View()), starts, body); out == z.out && t.View() == z.local
      decreases body, 1
    {
      var up;
      up, out := StartClients(i, suite, t, starts, o);
      if up {
        up, out := RunBody(i, suite, t, body, out);
      }
    }

    method Register(i: nat, name: string, ghost o: Out) returns (r: Response, ghost out: Out)
      requires Valid() && o.state == tm.Snapshot()
      modifies tm
      ensures Valid() && out.state == tm.Snapshot() && (r.Refused? <==> i !in o.state.running || name == "")
      ensures if r.Refused? then out == o else out == Do(o, StartTest(i, name)) && r.id == o.state.caseCounter + 1
    {
      r := api.StartTest(i, name);
      out := if r.Refused? then o else Do(o, StartTest(i, name));
    }

    /** Registers a test, runs it and reports its result. */
    method RunTest(i: nat, suite: string, name: string, always: bool, starts: seq<Start>, body: seq<Action>, ghost o: Out)
      returns (failed: bool, ghost out: Out)
      requires Valid() && o.state == tm.Snapshot()
      modifies tm
      ensures Valid() && out.state == tm.Snapshot()
      ensures Result(out, failed) == AfterTest(EnvOf(i, suite), o, name, always, starts, body)
      decreases body, 3
    {
      if !always && !host.matches(suite, name) {
        return false, o;
      }
      var r;
      r, out := Register(i, name, o);
      if r.Refused? {
        return true, out;
      }
      out := RunRegistered(i, suite, r.id, starts, body, out);
      failed := false;
    }

    /** A registered test, whose result is reported in any case. */
    method RunRegistered(i: nat, suite: string, id: nat, starts: seq<Start>, body: seq<Action>, ghost o: Out) returns (ghost out: Out)
      requires Valid() && o.state == tm.Snapshot()
      modifies tm
      ensures Valid() && out.state == tm.Snapshot()
      ensures out == AfterRegistered(EnvOf(i, suite), o, id, starts, body)
      decreases body, 2
    {
      var t := new T(id);
      out := Perform(i, suite, t, starts, body, o);
      var _ := api.EndTest(i, t.id, TestResult(t.pass, false, t.details, None), io(t.id), refused);
      out := Do(out, Report(EnvOf(i, suite), t.id, t.View()));
    }

    method RunSpec(i: nat, suite: string, spec: AnyTest, ghost o: Out) returns (failed: bool, ghost out: Out)
      requires Valid() && o.state == tm.Snapshot()
      modifies tm
      ensures Valid() && out.state == tm.Snapshot()
      ensures Result(out, failed) == AfterSpec(EnvOf(i, suite), o, spec)
      decreases spec, 1
    {
      match spec
      case TestSpec(name, always, body) =>
        failed, out := RunTest(i, suite, name, always, [], body, o);
      case ClientTestSpec(_, _, _, _, _) =>
        failed, out := RunForClients(i, suite, spec, o);
      case NetworkTestSpec(name, role, always, launches, body) =>
        var clients := MatchingClients(role);
        failed, out := RunTest(i, suite, name, always, StartsFor(clients, launches), body, o);
    }

    method RunForClients(i: nat, suite: string, spec: AnyTest, ghost o: Out) returns (failed: bool, ghost out: Out)
      requires Valid() && o.state == tm.Snapshot() && spec.ClientTestSpec?
      modifies tm
      ensures Valid() && out.state == tm.Snapshot()
      ensures Result(out, failed) == AfterClients(EnvOf(i, suite), o, spec, |Matching(host.clientTypes, spec.role)|)
      decreases spec, 0, 1
    {
      failed, out := false, o;
      var k := 0;
      for j := 0 to |host.clientTypes|
        invariant k == |Matching(host.clientTypes[..j], spec.role)| <= |Matching(host.clientTypes, spec.role)|
        invariant Valid() && !failed && out.state == tm.Snapshot()
        invariant Result(out, failed) == AfterClients(EnvOf(i, suite), o, spec, k)
      {
        NextMatching(host.clientTypes, spec.role, j);
        if spec.role != "" && spec.role !in host.clientTypes[j].roles {
          continue;
        }
        failed, out := RunForClient(i, suite, spec, host.clientTypes[j].name, k, o, out);
        k := k + 1;
        if failed {
          ClientsStop(EnvOf(i, suite), o, spec, k, |Matching(host.clientTypes, spec.role)|);
          return;
        }
      }
      assert host.clientTypes[..|host.clientTypes|] == host.clientTypes;
    }

    /** Runs the test for one client; `before` is what running it for the first `k` has come to. */
    method RunForClient(i: nat, suite: string, spec: AnyTest, client: string, k: nat, ghost o: Out, ghost before: Out)
      returns (failed: bool, ghost out: Out)
      requires Valid() && before.state == tm.Snapshot() && spec.ClientTestSpec?
      requires k < |Matching(host.clientTypes, spec.role)| && Matching(host.clientTypes, spec.role)[k] == client
      requires AfterClients(EnvOf(i, suite), o, spec, k) == Result(before, false)
      modifies tm
      ensures Valid() && out.state == tm.Snapshot()
      ensures Result(out, failed) == AfterClients(EnvOf(i, suite), o, spec, k + 1)
      decreases spec, 0, 0
    {
      match ScriptFor(spec, k)
      case ClientScript(launch, complaint, body) =>
        failed, out := RunTest(i, suite, ClientTestName(spec.name, client), spec.alwaysRun,
                               [Start(client, launch, complaint)], body, before);
    }

    /** The names of the client types that have the role, if one is given. */
    method MatchingClients(role: string) returns (clients: seq<string>)
      ensures clients == Matching(host.clientTypes, role)
    {
      clients := [];
      for j := 0 to |host.clientTypes|
        invariant clients == Matching(host.clientTypes[..j], role)
      {
        OneMoreMatching(host.clientTypes, role, j);
        if role != "" && role !in host.clientTypes[j].roles {
          continue;
        }
        clients := clients + [host.clientTypes[j].name];
      }
      assert host.clientTypes[..|host.clientTypes|] == host.clientTypes;
    }

    method RunTests(i: nat, suite: string, tests: seq<AnyTest>, ghost o: Out) returns (failed: bool, ghost out: Out)
      requires Valid() && o.state == tm.Snapshot()
      modifies tm
      ensures Valid() && out.state == tm.Snapshot()
      ensures Result(out, failed) == AfterTests(EnvOf(i, suite), o, tests)
    {
      failed, out := false, o;
      for k := 0 to |tests|
        invariant Valid() && !failed && out.state == tm.Snapshot()
        invariant Result(out, failed) == AfterTests(EnvOf(i, suite), o, tests[..k])
      {
        assert tests[..k + 1][..k] == tests[..k];
        failed, out := RunSpec(i, suite, tests[k], out);
        if failed {
          TestsStop(EnvOf(i, suite), o, tests, k + 1);
          return;
        }
      }
      assert tests[..|tests|] == tests;
    }

    /** Runs all tests of a suite. The suite is registered first and ended in any case; the response to
        ending it is not looked at by the program, `ended` tells it to the proof. `calls` are the manager
        calls that were made. */
    method RunSuite(suite: string, tests: seq<AnyTest>, created: bool, saved: bool, stuck: set<string>)
      returns (failed: bool, ended: bool, ghost calls: seq<Event>)
      requires Valid() && Inv(tm.Snapshot())
      modifies tm
      ensures Valid() && Inv(tm.Snapshot()) && tm.Snapshot() == Run(old(tm.Snapshot()), calls)
      ensures !host.matches(suite, "") ==> !failed && !ended && calls == [] && tm.Snapshot() == old(tm.Snapshot())
      ensures host.matches(suite, "") && (suite == "" || (tm.logDir && !created)) ==>
        failed && !ended && calls == [] && tm.Snapshot() == old(tm.Snapshot())
      ensures host.matches(suite, "") && suite != "" && (created || !tm.logDir) ==>
        && failed == SuiteVerdicts(host, suite, tests).failed
        && ended == (saved || !tm.logDir)
        && SuiteOnRecord(old(tm.Snapshot()), tm.Snapshot(), SuiteVerdicts(host, suite, tests).all, ended,
                         WritesComplete(EnvOf(old(tm.testSuiteCounter), suite)))
      ensures WindowsOk(old(tm.Snapshot())) ==> WindowsOk(tm.Snapshot())
      ensures OwnershipOk(old(tm.Snapshot())) && refused == {} && FreshIds(old(tm.Snapshot()), calls) ==>
        ContainersGone(old(tm.Snapshot()), tm.Snapshot(), calls)
    {
      ghost var s0 := tm.Snapshot();
      failed, ended, calls := false, false, [];
      NoCalls(s0);
      if !host.matches(suite, "") {
        return;
      }
      var r := api.StartSuite(suite, created);
      if r.Refused? {
        failed := true;
        return;
      }
      ghost var z := AfterSuite(EnvOf(r.id, suite), s0, tests, created, saved, stuck);
      failed, ended := RunStarted(r.id, suite, tests, saved, stuck, Do(Out(s0, []), StartSuite(suite, created)));
      SuiteOnRecordAfter(EnvOf(r.id, suite), s0, tests, created, saved, stuck);
      SuiteRunEffects(EnvOf(r.id, suite), s0, tests, created, saved, stuck);
      calls := z.out.events;
    }

    method RunStarted(i: nat, suite: string, tests: seq<AnyTest>, saved: bool, stuck: set<string>, ghost o: Out)
      returns (failed: bool, ended: bool)
      requires Valid() && o.state == tm.Snapshot()
      modifies tm
      ensures var ran := AfterTests(EnvOf(i, suite), o, tests); var e := EndSuite(i, saved, stuck);
        && Valid() && tm.Snapshot() == Do(ran.out, e).state && failed == ran.failed
        && (ended <==> Apply(ran.out.state, e).reply == Done)
    {
      ghost var out;
      failed, out := RunTests(i, suite, tests, o);
      var r := api.EndSuite(i, saved, stuck);
      ended := r.Accepted?;
    }
  }
}
