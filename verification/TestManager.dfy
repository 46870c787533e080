/** The test manager as the program keeps it: maps and counters updated in place, with loops where the
    source loops. Every method takes exactly one step of ManagerSpec.

    Suites and test cases are shared objects in the source; here `suites` and `cases` hold their present
    contents under their ids, and runningTestSuites, runningTestCases, results and a suite's test set
    refer to them by id, so that an update through one of them is seen through all. */
module Manager {
  import opened Wrappers
  import opened Records
  import opened ManagerSpec
  import opened ManagerInvariants
  import opened Ownership
  import opened Termination

  /** The same client records without their wait functions. */
  function Unheld(clients: map<string, ClientInfo>): map<string, ClientInfo> {
    map n | n in clients :: clients[n].(waiting := false)
  }

  lemma ReleasedInTwoPasses(clients: map<string, ClientInfo>, logDir: bool, w: World)
    ensures Unheld(CloseWindows(clients, logDir, w)) == Released(clients, logDir, w)
    ensures Holdings(CloseWindows(clients, logDir, w)) == Holdings(clients)
    ensures forall n :: Holders(CloseWindows(clients, logDir, w), n) == Holders(clients, n)
  {
    var closed := CloseWindows(clients, logDir, w);
    forall id ensures id in Holdings(clients) <==> id in Holdings(closed) {
      if id in Holdings(clients) {
        var n :| n in clients && clients[n].waiting && clients[n].id == id;
        assert closed[n].waiting && closed[n].id == id;
      }
    }
  }

  /** One backend call: deleting a container that is gone already fails and changes nothing. */
  function DeleteContainer(w: World, id: string, ok: bool): World {
    if ok && id in w.live then w.(live := w.live - {id}, removed := w.removed + {id}) else w
  }

  /** The containers held by those of the given records that lie under `names`. */
  ghost function HeldBy(clients: map<string, ClientInfo>, names: set<string>): set<string> {
    set n | n in names && n in clients && clients[n].waiting :: clients[n].id
  }

  lemma DeleteOne(w: World, clients: map<string, ClientInfo>, done: set<string>, n: string, refused: set<string>)
    requires n in clients
    ensures var before, id := Removed(w, HeldBy(clients, done) - refused), clients[n].id;
      Removed(w, HeldBy(clients, done + {n}) - refused)
      == if clients[n].waiting then DeleteContainer(before, id, id !in refused) else before
  {
  }

  /** Closes the log window of every client of an ending test. */
  method CaptureLogEnds(clients: map<string, ClientInfo>, logDir: bool, w: World) returns (r: map<string, ClientInfo>)
    ensures r == CloseWindows(clients, logDir, w)
  {
    r := clients;
    var todo := clients.Keys;
    while todo != {}
      invariant todo <= clients.Keys == r.Keys
      invariant forall n | n in r :: r[n] == if n in todo then clients[n] else CloseWindow(clients[n], logDir, w)
      decreases todo
    {
      var n :| n in todo;
      r := r[n := CloseWindow(r[n], logDir, w)];
      todo := todo - {n};
    }
  }

  /** The containers that are deleted when the given records are gone through in order. */
  function CallsFor(clients: map<string, ClientInfo>, order: seq<string>): seq<string>
    requires forall node | node in order :: node in clients
  {
    if order == [] then []
    else
      var c := clients[order[|order| - 1]];
      CallsFor(clients, order[..|order| - 1]) + if c.waiting then [c.id] else []
  }

  /** The order meets the records under `names`, each once. */
  ghost predicate Meets(order: seq<string>, names: set<string>) {
    (forall node :: node in order <==> node in names) && Distinct(order)
  }

  lemma MeetsOneMore(clients: map<string, ClientInfo>, order: seq<string>, names: set<string>, node: string)
    requires Meets(order, names) && names <= clients.Keys && node in clients && node !in names
    ensures Meets(order + [node], names + {node})
    ensures CallsFor(clients, order + [node]) == CallsFor(clients, order) + if clients[node].waiting then [clients[node].id] else []
  {
    assert (order + [node])[..|order|] == order;
  }

  ghost function HoldersIn(clients: map<string, ClientInfo>, order: seq<string>, n: string): set<string> {
    set node | node in order && node in Holders(clients, n)
  }

  lemma HoldersInOneMore(clients: map<string, ClientInfo>, order: seq<string>, last: string, n: string)
    requires last !in order
    ensures |HoldersIn(clients, order + [last], n)| == |HoldersIn(clients, order, n)| + if last in Holders(clients, n) then 1 else 0
  {
    assert HoldersIn(clients, order + [last], n)
      == HoldersIn(clients, order, n) + if last in Holders(clients, n) then {last} else {};
  }

  ghost predicate Distinct(order: seq<string>) { forall i, j | 0 <= i < j < |order| :: order[i] != order[j] }

  lemma DistinctFront(order: seq<string>)
    requires Distinct(order) && order != []
    ensures var front := order[..|order| - 1];
      Distinct(front) && order[|order| - 1] !in front && order == front + [order[|order| - 1]]
  {
  }

  /** When no record is met twice, each container is deleted once for each of the records that hold it. */
  lemma {:induction false} CallsCounted(clients: map<string, ClientInfo>, order: seq<string>, n: string)
    requires Distinct(order) && forall node | node in order :: node in clients
    ensures multiset(CallsFor(clients, order))[n] == |HoldersIn(clients, order, n)|
  {
    if order != [] {
      var front, last := order[..|order| - 1], order[|order| - 1];
      var call := if clients[last].waiting then [clients[last].id] else [];
      DistinctFront(order);
      CallsCounted(clients, front, n);
      HoldersInOneMore(clients, front, last, n);
      assert multiset(call)[n] == if last in Holders(clients, n) then 1 else 0;
      assert multiset(CallsFor(clients, front) + call)[n] == multiset(CallsFor(clients, front))[n] + multiset(call)[n];
    }
  }

  lemma AllCallsCounted(clients: map<string, ClientInfo>, order: seq<string>)
    requires Meets(order, clients.Keys)
    ensures forall n :: multiset(CallsFor(clients, order))[n] == |Holders(clients, n)|
    ensures HeldBy(clients, clients.Keys) == Holdings(clients)
  {
    forall n ensures multiset(CallsFor(clients, order))[n] == |Holders(clients, n)| {
      CallsCounted(clients, order, n);
      assert HoldersIn(clients, order, n) == Holders(clients, n);
    }
  }

  /** Gives up one record, deleting the container that it holds. */
  method StopOne(c: ClientInfo, w: World, refused: set<string>) returns (c': ClientInfo, w': World, calls: seq<string>)
    ensures c' == c.(waiting := false)
    ensures w' == if c.waiting then DeleteContainer(w, c.id, c.id !in refused) else w
    ensures calls == if c.waiting then [c.id] else []
  {
    c', w', calls := c, w, [];
    if c.waiting {
      w', calls := DeleteContainer(w, c.id, c.id !in refused), [c.id];
      c' := c.(waiting := false);
    }
  }

  /** Deletes the containers that an ending test holds. A refused deletion is ignored: the record is
      given up all the same. `calls` lists the containers that the backend was told to delete. */
  method StopClients(clients: map<string, ClientInfo>, w: World, refused: set<string>)
    returns (r: map<string, ClientInfo>, w': World, calls: seq<string>)
    ensures r == Unheld(clients)
    ensures w' == Removed(w, Holdings(clients) - refused)
    ensures forall n :: multiset(calls)[n] == |Holders(clients, n)|
  {
    r, w', calls := clients, w, [];
    var todo := clients.Keys;
    ghost var done: set<string> := {};
    ghost var order: seq<string> := [];
    while todo != {}
      invariant todo <= clients.Keys == r.Keys && done == clients.Keys - todo
      invariant forall n | n in r :: r[n] == if n in todo then clients[n] else clients[n].(waiting := false)
      invariant w' == Removed(w, HeldBy(clients, done) - refused)
      invariant Meets(order, done) && calls == CallsFor(clients, order)
      decreases todo
    {
      var node :| node in todo;
      DeleteOne(w, clients, done, node, refused);
      MeetsOneMore(clients, order, done, node);
      var c, call;
      c, w', call := StopOne(r[node], w', refused);
      r, calls := r[node := c], calls + call;
      todo, done, order := todo - {node}, done + {node}, order + [node];
    }
    assert done == clients.Keys;
    AllCallsCounted(clients, order);
  }

  /** The ids recorded under some of the names of a suite's networks. */
  ghost function Ids(networks: map<string, string>, names: set<string>): set<string> {
    set n | n in names && n in networks :: networks[n]
  }

  lemma PruneOne(nets: map<string, string>, all: map<string, string>, done: set<string>, name: string, stuck: set<string>)
    requires name in all
    ensures Ids(all, done + {name}) == Ids(all, done) + {all[name]}
    ensures nets - (Ids(all, done + {name}) - stuck)
      == if all[name] in stuck then nets - (Ids(all, done) - stuck) else nets - (Ids(all, done) - stuck) - {all[name]}
  {
  }

  class TestManager {
    const logDir: bool
    const pid: nat
    var suites: map<nat, SuiteRec>
    var cases: map<nat, CaseRec>
    var runningTestSuites: set<nat>
    var runningTestCases: set<nat>
    var results: set<nat>
    var testSuiteCounter: nat
    var testCaseCounter: nat
    var networks: map<nat, map<string, string>>
    var world: World  // the environment: client logs, containers, docker networks

    predicate Valid()
      reads this
    {
      runningTestSuites <= suites.Keys && runningTestCases <= cases.Keys
    }

    function Snapshot(): State
      reads this
    {
      State(logDir, pid, suites, cases, runningTestSuites, results, runningTestCases,
            testSuiteCounter, testCaseCounter, networks, world)
    }

    constructor (logDir: bool, pid: nat)
      ensures Valid() && Snapshot() == Init(logDir, pid)
    {
      this.logDir, this.pid := logDir, pid;
      suites, cases, networks := map[], map[], map[];
      runningTestSuites, runningTestCases, results := {}, {}, {};
      testSuiteCounter, testCaseCounter := 0, 0;
      world := World(map[], {}, {}, {}, map[]);
    }

    method StartTestSuite(name: string, created: bool) returns (reply: Reply)
      requires Valid()
      modifies this
      ensures Valid() && Outcome(Snapshot(), reply) == ApplyStartSuite(old(Snapshot()), name, created)
    {
      if logDir && !created {
        return Rejected(BackendFailure);
      }
      var id := testSuiteCounter;
      suites := suites[id := SuiteRec(name, {}, if logDir then Open else NoFile, 0, "")];
      runningTestSuites := runningTestSuites + {id};
      testSuiteCounter := testSuiteCounter + 1;
      return NewId(id);
    }

    method StartTest(suiteID: nat, name: string) returns (reply: Reply)
      requires Valid()
      modifies this
      ensures Valid() && Outcome(Snapshot(), reply) == ApplyStartTest(old(Snapshot()), suiteID, name)
    {
      if suiteID !in runningTestSuites {
        return Rejected(NoSuchTestSuite);
      }
      testCaseCounter := testCaseCounter + 1;
      var id := testCaseCounter;
      cases := cases[id := CaseRec(name, NO_RESULT, map[], false)];
      suites := suites[suiteID := suites[suiteID].(tests := suites[suiteID].tests + {id})];
      runningTestCases := runningTestCases + {id};
      return NewId(id);
    }

    /** `left` is what the call leaves in the caller's result object, `calls` the containers that the backend
        was told to delete. */
    method EndTest(suiteID: nat, testID: nat, result: Option<TestResult>, io: WriteOutcome, refused: set<string>)
      returns (reply: Reply, left: Option<TestResult>, ghost calls: seq<string>)
      requires Valid()
      modifies this
      ensures Valid()
      ensures Outcome(Snapshot(), reply) == ApplyEndTest(old(Snapshot()), suiteID, testID, result, io, refused)
      ensures left == if reply.Done? then Some(cases[testID].result) else result
      ensures if reply.Done? then forall n :: multiset(calls)[n] == |Holders(old(cases)[testID].clients, n)| else calls == []
      ensures reply.Done? ==> runningTestCases == old(runningTestCases) - {testID}
      ensures runningTestSuites == old(runningTestSuites) && results == old(results)
    {
      left := result;
      if suiteID !in runningTestSuites || testID !in runningTestCases {
        return Rejected(NoSuchTestCase), left, [];
      }
      if result.None? {
        return Rejected(NoSummaryResult), left, [];
      }
      var r := RecordResult(suiteID, testID, result.value, io);
      var clients := CaptureLogEnds(cases[testID].clients, logDir, world);
      clients, world, calls := StopClients(clients, world, refused);
      ReleasedInTwoPasses(old(cases)[testID].clients, logDir, old(world));
      cases := cases[testID := cases[testID].(clients := clients)];
      runningTestCases := runningTestCases - {testID};
      reply, left := Done, Some(r);
      assert cases == ApplyEndTest(old(Snapshot()), suiteID, testID, result, io, refused).state.cases;
      assert world == ApplyEndTest(old(Snapshot()), suiteID, testID, result, io, refused).state.world;
    }

    method RecordResult(i: nat, t: nat, result: TestResult, io: WriteOutcome) returns (r: TestResult)
      requires i in suites && t in cases
      modifies `suites, `cases
      ensures r == Recorded(old(suites)[i], old(cases)[t].name, result, io)
      ensures cases == old(cases)[t := old(cases)[t].(result := r)]
      ensures suites == old(suites)[i := AfterDetails(old(suites)[i], old(cases)[t].name, result, io)]
    {
      r := result;
      if r.details != "" && suites[i].file != NoFile {
        var offsets := WriteTestDetails(i, cases[t].name, r, io);
        r := r.(details := "", log := Some(offsets));
      }
      cases := cases[t := cases[t].(result := r)];
    }

    method WriteTestDetails(i: nat, caseName: string, r: TestResult, io: WriteOutcome) returns (offsets: LogRange)
      requires i in suites && LogsDetails(suites[i], r)
      modifies `suites
      ensures suites == old(suites)[i := AfterDetails(old(suites)[i], caseName, r, io)]
      ensures offsets == DetailsRange(old(suites)[i], caseName, r.details, io)
    {
      var suite := suites[i];
      var begin, header, block := suite.offset, Header(caseName), DetailsBlock(caseName, r.details);
      var n := Accepted(suite.file, io, |block|);
      suites := suites[i := suite.(offset := begin + n, log := suite.log + block[..n])];
      if WriteFails(suite.file, io) {
        offsets := LogRange(begin, begin + n);
      } else {
        offsets := LogRange(begin + |header|, begin + |header| + |r.details|);
      }
    }

    method RegisterNode(testID: nat, nodeID: string, info: ClientInfo) returns (reply: Reply)
      requires Valid()
      modifies this
      ensures Valid() && Outcome(Snapshot(), reply) == ApplyRegister(old(Snapshot()), testID, nodeID, info)
    {
      if info.waiting {
        world := world.(launched := world.launched + {info.id}, live := world.live + {info.id});
      }
      if testID !in runningTestCases {
        return Rejected(NoSuchTestCase);
      }
      cases := cases[testID := cases[testID].(clients := cases[testID].clients[nodeID := info])];
      return Done;
    }

    method GetNodeInfo(testID: nat, nodeID: string) returns (info: Option<ClientInfo>)
      requires Valid()
      ensures info.Some? <==> testID in runningTestCases && nodeID in cases[testID].clients
      ensures info.Some? ==> info.value == cases[testID].clients[nodeID]
    {
      if testID !in runningTestCases || nodeID !in cases[testID].clients {
        return None;
      }
      return Some(cases[testID].clients[nodeID]);
    }

    method StopNode(testID: nat, nodeID: string, removed: bool) returns (reply: Reply)
      requires Valid()
      modifies this
      ensures Valid() && Outcome(Snapshot(), reply) == ApplyStop(old(Snapshot()), testID, nodeID, removed)
    {
      if testID !in runningTestCases || nodeID !in cases[testID].clients {
        return Rejected(NoSuchNode);
      }
      var info := cases[testID].clients[nodeID];
      if info.waiting {
        if !removed {
          return Rejected(BackendFailure);
        }
        world := Removed(world, {info.id});
        var clients := cases[testID].clients[nodeID := info.(waiting := false)];
        cases := cases[testID := cases[testID].(clients := clients)];
      }
      return Done;
    }

    method SetMultiTestContext(testID: nat) returns (reply: Reply)
      requires Valid()
      modifies this
      ensures Valid() && Outcome(Snapshot(), reply) == ApplyMark(old(Snapshot()), testID)
    {
      if testID !in runningTestCases {
        return Rejected(NoSuchTestCase);
      }
      cases := cases[testID := cases[testID].(multi := true)];
      return Done;
    }

    method CreateNetwork(suiteID: nat, name: string, answer: Option<string>) returns (reply: Reply)
      requires Valid()
      modifies this
      ensures Valid() && Outcome(Snapshot(), reply) == ApplyCreateNetwork(old(Snapshot()), suiteID, name, answer)
    {
      if suiteID !in runningTestSuites {
        return Rejected(NoSuchTestSuite);
      }
      if answer.None? {
        return Rejected(BackendFailure);
      }
      world := world.(nets := world.nets[answer.value := UniqueName(pid, suiteID, name)]);
      if suiteID !in networks {
        networks := networks[suiteID := map[]];
      }
      networks := networks[suiteID := networks[suiteID][name := answer.value]];
      return Done;
    }

    method RemoveNetwork(suiteID: nat, name: string, removed: bool) returns (reply: Reply)
      requires Valid()
      modifies `networks, `world
      ensures Valid() && Outcome(Snapshot(), reply) == ApplyRemoveNetwork(old(Snapshot()), suiteID, name, removed)
    {
      if suiteID !in networks || name !in networks[suiteID] {
        return Rejected(NetworkNotFound);
      }
      if !removed {
        return Rejected(BackendFailure);
      }
      world := world.(nets := world.nets - {networks[suiteID][name]});
      networks := networks[suiteID := networks[suiteID] - {name}];
      return Done;
    }

    /** Removes the networks of a suite; those the backend refuses to remove are forgotten as well. */
    method PruneNetworks(suiteID: nat, stuck: set<string>) returns (errs: seq<Error>)
      requires Valid()
      modifies `networks, `world
      ensures Valid() && networks == old(networks) - {suiteID}
      ensures world == old(world).(nets := old(world).nets
        - (ManagerSpec.Networks(old(Snapshot()), suiteID).Values - stuck))
      ensures errs == [] <==> ManagerSpec.Networks(old(Snapshot()), suiteID).Values !! stuck
    {
      errs := [];
      if suiteID in networks {
        var all := networks[suiteID];
        var todo := all.Keys;
        ghost var done: set<string> := {};
        while todo != {}
          invariant Valid() && todo <= all.Keys && done == all.Keys - todo
          invariant suiteID in networks && networks == old(networks)[suiteID := networks[suiteID]]
          invariant forall n | n in todo :: n in networks[suiteID] && networks[suiteID][n] == all[n]
          invariant world == old(world).(nets := world.nets)
          invariant world.nets == old(world).nets - (Ids(all, done) - stuck)
          invariant errs == [] <==> Ids(all, done) !! stuck
          decreases todo
        {
          var name :| name in todo;
          PruneOne(old(world).nets, all, done, name, stuck);
          var reply := RemoveNetwork(suiteID, name, all[name] !in stuck);
          if reply.Rejected? {
            errs := errs + [reply.error];
          }
          todo, done := todo - {name}, done + {name};
        }
        assert Ids(all, done) == all.Values;
      }
      networks := networks - {suiteID};
    }

    method EndTestSuite(suiteID: nat, saved: bool, stuck: set<string>) returns (reply: Reply)
      requires Valid()
      modifies this
      ensures Valid() && Outcome(Snapshot(), reply) == ApplyEndSuite(old(Snapshot()), suiteID, saved, stuck)
    {
      if suiteID !in runningTestSuites {
        return Rejected(NoSuchTestSuite);
      }
      var todo := suites[suiteID].tests;
      while todo != {}
        invariant todo <= suites[suiteID].tests
        invariant suites[suiteID].tests - todo !! runningTestCases
        decreases todo
      {
        var k :| k in todo;
        if k in runningTestCases {
          return Rejected(TestSuiteRunning);
        }
        todo := todo - {k};
      }
      if suites[suiteID].file == Open {
        suites := suites[suiteID := suites[suiteID].(file := Closed)];
      }
      if logDir && !saved {
        assert suites == old(suites)[suiteID := CloseDetails(old(suites)[suiteID])];
        return Rejected(BackendFailure);
      }
      var errs := PruneNetworks(suiteID, stuck);
      runningTestSuites := runningTestSuites - {suiteID};
      results := results + {suiteID};
      assert suites == old(suites)[suiteID := CloseDetails(old(suites)[suiteID])];
      return Done;
    }

    /** Ends the running tests of one suite, all with the one result object; the first error ends the loop.
        `order` is the order in which the tests are met. */
    method EndRunningTests(suiteID: nat, result: TestResult, env: Answers)
      returns (reply: Reply, r: TestResult, ghost order: seq<nat>)
      requires Valid() && suiteID in suites
      modifies this
      ensures Valid()
      ensures Progress(Snapshot(), r, reply) == EndTests(Progress(old(Snapshot()), result, Done), suiteID, order, env)
      ensures forall t | t in order :: t in old(suites)[suiteID].tests
      ensures reply.Done? || reply.Rejected?
      ensures reply.Done? ==> forall t | t in old(suites)[suiteID].tests :: t in order
    {
      reply, r, order := Done, result, [];
      var todo := suites[suiteID].tests;
      while todo != {}
        invariant Valid() && reply == Done && todo <= old(suites)[suiteID].tests
        invariant Progress(Snapshot(), r, reply) == EndTests(Progress(old(Snapshot()), result, Done), suiteID, order, env)
        invariant forall t :: t in order <==> t in old(suites)[suiteID].tests - todo
        decreases todo
      {
        var testID :| testID in todo;
        todo := todo - {testID};
        assert (order + [testID])[..|order|] == order;
        order := order + [testID];
        if testID in runningTestCases {
          var left;
          ghost var calls;
          reply, left, calls := EndTest(suiteID, testID, Some(r), env.io(testID), env.refused);
          r := left.value;
          if reply.Rejected? {
            return;
          }
        }
      }
    }

    /** Forces the end of everything that runs. The first error met is returned, but none is ever met; that a
        suite cannot be ended is not looked at. `visits` is the order in which suites and tests are met. */
    method Terminate(env: Answers) returns (reply: Reply, ghost visits: seq<Visit>)
      requires Valid() && Inv(Snapshot())
      modifies this
      ensures Valid() && reply == Done
      ensures Proper(old(Snapshot()), visits) && Full(old(Snapshot()), visits)
      ensures Snapshot() == VisitAll(Start(old(Snapshot())), visits, env).state
      ensures Follows(old(Snapshot()), Snapshot())
      ensures runningTestCases == {}
      ensures runningTestSuites == Unsaved(old(Snapshot()), env.saved, old(runningTestSuites))
      ensures results == old(results) + (old(runningTestSuites) - runningTestSuites)
      ensures cases.Keys == old(cases).Keys
      ensures forall t | t in cases && t !in old(runningTestCases) :: cases[t] == old(cases)[t]
      ensures forall t | t in old(runningTestCases) ::
        t in cases && !cases[t].result.pass && cases[t].result.timeout
      ensures forall t, u | t in old(runningTestCases) && u in old(runningTestCases) ::
        t in cases && u in cases && cases[t].result == cases[u].result
      ensures OwnershipOk(old(Snapshot())) ==> forall n: string :: !Owned(Snapshot(), n)
    {
      ghost var s0 := Snapshot();
      var shared;
      reply, shared, visits := EndAll(env);
      VisitsTerminate(s0, visits, env);
      TerminationComplete(s0, visits, env);
    }

    /** The loop of Terminate, with its early return on an error. */
    method EndAll(env: Answers) returns (reply: Reply, r: TestResult, ghost visits: seq<Visit>)
      requires Valid() && Inv(Snapshot())
      modifies this
      ensures Valid() && Proper(old(Snapshot()), visits) && (reply.Done? ==> Full(old(Snapshot()), visits))
      ensures Progress(Snapshot(), r, reply) == VisitAll(Start(old(Snapshot())), visits, env)
    {
      ghost var s0 := Snapshot();
      reply, r, visits := Done, TERMINATED, [];
      var todo := runningTestSuites;
      while todo != {}
        invariant Valid() && reply == Done && todo <= s0.running
        invariant Proper(s0, visits) && Thorough(s0, visits) && Visited(visits) == s0.running - todo
        invariant Progress(Snapshot(), r, reply) == VisitAll(Start(s0), visits, env)
        decreases todo
      {
        var suiteID :| suiteID in todo;
        todo := todo - {suiteID};
        TestsStay(s0, visits, env, suiteID);
        ghost var tests := suites[suiteID].tests;
        assert tests == s0.suites[suiteID].tests;
        ghost var v;
        reply, r, v := VisitSuite(suiteID, r, env);
        assert forall t | t in v.tests :: t in tests;
        OneMoreVisit(s0, visits, v);
        assert (visits + [v])[..|visits|] == visits;
        visits := visits + [v];
        if reply.Rejected? {
          return;
        }
      }
    }

    /** One iteration of it: the running tests of a suite, and then the suite. */
    method VisitSuite(suiteID: nat, result: TestResult, env: Answers)
      returns (reply: Reply, r: TestResult, ghost v: Visit)
      requires Valid() && suiteID in suites
      modifies this
      ensures Valid() && v.suite == suiteID
      ensures Progress(Snapshot(), r, reply)
        == EndVisit(EndTests(Progress(old(Snapshot()), result, Done), suiteID, v.tests, env), suiteID, env)
      ensures forall t | t in v.tests :: t in old(suites)[suiteID].tests
      ensures reply.Done? || reply.Rejected?
      ensures reply.Done? ==> forall t | t in old(suites)[suiteID].tests :: t in v.tests
    {
      ghost var order;
      reply, r, order := EndRunningTests(suiteID, result, env);
      v := Visit(suiteID, order);
      if reply.Rejected? {
        return;
      }
      var _ := EndTestSuite(suiteID, env.saved(suiteID), env.stuck);
    }
  }
}
