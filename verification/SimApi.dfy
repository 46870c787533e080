/** The handlers of the simulation API that drive the manager (internal/libhive/api.go). */
module Api {
  import opened Wrappers
  import opened Records
  import opened ManagerSpec
  import opened ManagerInvariants
  import opened Ownership
  import opened ClientWindows
  import opened DetailsLog
  import opened Manager
  import opened Text

  /** What a client of the API learns from a response. */
  datatype Response = Accepted(id: nat) | Refused

  /** What launching a container came to. Without an id it was never created or never ran; a container
      that ran but did not come up has been deleted again and has no wait function. */
  datatype Launch = NeverRan | Ran(id: string, up: bool)

  /** A client's name as a directory name. */
  function SafeDir(client: string): string { seq(|client|, k requires 0 <= k < |client| => if client[k] == '/' then '_' else client[k]) }

  function LogPath(client: string, id: string): string {
    if client == "" then "client-" + id + ".log" else SafeDir(client) + "/client-" + id + ".log"
  }

  /** Different containers get different log files, whatever their clients are called. */
  lemma LogPathTellsContainers(client: string, id: string, other: string, id': string)
    requires LogPath(client, id) == LogPath(other, id') && '/' !in id && '/' !in id'
    ensures id == id'
  {
    var file, file' := "client-" + id + ".log", "client-" + id' + ".log";
    FileOf(client, id);
    FileOf(other, id');
    assert id == file[7..|file| - 4] && id' == file'[7..|file'| - 4];
    if client != "" && other != "" {
      LastSeparatorSplits(SafeDir(client), file, SafeDir(other), file', '/');
    }
  }

  lemma FileOf(client: string, id: string)
    requires '/' !in id
    ensures var file := "client-" + id + ".log";
      '/' !in file && LogPath(client, id) == (if client == "" then file else SafeDir(client) + ['/'] + file)
      && ('/' in LogPath(client, id) <==> client != "")
  {
    var file := "client-" + id + ".log";
    if client != "" {
      assert SafeDir(client) + "/client-" + id + ".log" == SafeDir(client) + ['/'] + file;
      assert (SafeDir(client) + ['/'] + file)[|SafeDir(client)|] == '/';
    }
  }

  function OwnerRecord(w: World, client: string, id: string, up: bool): ClientInfo {
    ClientInfo(id, client, LogPath(client, id), Some(LogRange(w.Size(LogPath(client, id)), 0)), up)
  }

  /** The copy of a client record that another test gets. */
  function BorrowedRecord(w: World, info: ClientInfo): ClientInfo {
    var window := if info.logFile != "" then Some(LogRange(w.Size(info.logFile), 0)) else None;
    info.(logOffsets := window, waiting := false)
  }

  /** A client is recorded under its container's id and name, held exactly if it came up, and its window begins at
      the present size of its own log. */
  lemma StartedClientRecord(w: World, client: string, id: string, up: bool)
    ensures var r := OwnerRecord(w, client, id, up);
      && r.id == id && r.name == client && r.waiting == up && r.logFile == LogPath(client, id)
      && r.logOffsets == Some(LogRange(w.Size(r.logFile), 0))
  {
  }

  /** requestSuiteAndTest: both must be running. That the test is one of the suite's is not asked. */
  predicate Admits(s: State, i: nat, t: nat) { i in s.running && t in s.active }

  class SimApi {
    const tm: TestManager
    const clients: set<string>

    constructor (tm: TestManager, clients: set<string>)
      ensures this.tm == tm && this.clients == clients
    {
      this.tm, this.clients := tm, clients;
    }

    method StartSuite(name: string, created: bool) returns (r: Response)
      requires tm.Valid()
      modifies tm
      ensures tm.Valid()
      ensures name == "" ==> r == Refused && tm.Snapshot() == old(tm.Snapshot())
      ensures name != "" ==> tm.Snapshot() == ApplyStartSuite(old(tm.Snapshot()), name, created).state
      ensures r == (if name == "" || (tm.logDir && !created) then Refused else Accepted(old(tm.testSuiteCounter)))
    {
      if name == "" {
        return Refused;
      }
      var reply := tm.StartTestSuite(name, created);
      return if reply.NewId? then Accepted(reply.id) else Refused;
    }

    method EndSuite(i: nat, saved: bool, stuck: set<string>) returns (r: Response)
      requires tm.Valid()
      modifies tm
      ensures tm.Valid() && tm.Snapshot() == ApplyEndSuite(old(tm.Snapshot()), i, saved, stuck).state
      ensures r.Accepted? <==> ApplyEndSuite(old(tm.Snapshot()), i, saved, stuck).reply == Done
    {
      if i !in tm.runningTestSuites {
        return Refused;
      }
      var reply := tm.EndTestSuite(i, saved, stuck);
      return if reply.Done? then Accepted(i) else Refused;
    }

    method StartTest(i: nat, name: string) returns (r: Response)
      requires tm.Valid()
      modifies tm
      ensures tm.Valid()
      ensures r.Refused? <==> i !in old(tm.runningTestSuites) || name == ""
      ensures r.Refused? ==> tm.Snapshot() == old(tm.Snapshot())
      ensures r.Accepted? ==> r.id == old(tm.testCaseCounter) + 1
      ensures r.Accepted? ==> tm.Snapshot() == ApplyStartTest(old(tm.Snapshot()), i, name).state
    {
      if i !in tm.runningTestSuites || name == "" {
        return Refused;
      }
      var reply := tm.StartTest(i, name);
      return Accepted(reply.id);
    }

    /** Every call carries its own result object, so nothing is shared between the tests ended this way. */
    method EndTest(i: nat, t: nat, result: TestResult, io: WriteOutcome, refused: set<string>) returns (r: Response)
      requires tm.Valid()
      modifies tm
      ensures tm.Valid() && (r.Accepted? <==> Admits(old(tm.Snapshot()), i, t))
      ensures tm.Snapshot() == ApplyEndTest(old(tm.Snapshot()), i, t, Some(result), io, refused).state
    {
      if i !in tm.runningTestSuites || t !in tm.runningTestCases {
        return Refused;
      }
      var _, _, _ := tm.EndTest(i, t, Some(result), io, refused);
      return Accepted(t);
    }

    method StopClient(i: nat, t: nat, node: string, removed: bool) returns (r: Response)
      requires tm.Valid()
      modifies tm
      ensures tm.Valid()
      ensures r.Accepted? <==> Admits(old(tm.Snapshot()), i, t) && ApplyStop(old(tm.Snapshot()), t, node, removed).reply == Done
      ensures tm.Snapshot() == if Admits(old(tm.Snapshot()), i, t)
        then ApplyStop(old(tm.Snapshot()), t, node, removed).state else old(tm.Snapshot())
    {
      if i !in tm.runningTestSuites || t !in tm.runningTestCases {
        return Refused;
      }
      var reply := tm.StopNode(t, node, removed);
      return if reply.Done? then Accepted(t) else Refused;
    }

    /** A started client belongs to the test it was started for, also when it failed to come up. */
    method StartClient(i: nat, t: nat, client: string, launch: Launch) returns (r: Response)
      requires tm.Valid()
      modifies tm
      ensures tm.Valid()
      ensures r.Accepted? <==> Admits(old(tm.Snapshot()), i, t) && client in clients && launch.Ran? && launch.up
      ensures var s := old(tm.Snapshot());
        if Admits(s, i, t) && client in clients && launch.Ran? then
          var e := Register(t, launch.id, OwnerRecord(s.world, client, launch.id, launch.up));
          tm.Snapshot() == Next(s, e) && FairWindow(s, e)
          && (launch.id !in s.world.launched ==> FreshOwner(s, e))
        else
          tm.Snapshot() == s
    {
      if i !in tm.runningTestSuites || t !in tm.runningTestCases || client !in clients || launch.NeverRan? {
        return Refused;
      }
      var _ := tm.RegisterNode(t, launch.id, OwnerRecord(tm.world, client, launch.id, launch.up));
      return if launch.up then Accepted(t) else Refused;
    }

    /** Lends a client of test `source` to test `target` of the same suite. */
    method RegisterMultiTestNode(i: nat, source: nat, node: string, target: nat) returns (r: Response)
      requires tm.Valid()
      modifies tm
      ensures tm.Valid()
      ensures var s := old(tm.Snapshot());
        if Lends(s, i, source, node, target) && target in s.active then
          var e := Register(target, node, BorrowedRecord(s.world, s.cases[source].clients[node]));
          r.Accepted? && tm.Snapshot() == Next(Next(s, e), Mark(source))
        else
          r.Refused? && tm.Snapshot() == s
    {
      if i !in tm.runningTestSuites || source !in tm.runningTestCases || target !in tm.suites[i].tests {
        return Refused;
      }
      var info := tm.GetNodeInfo(source, node);
      if info.None? {
        return Refused;
      }
      var reply := tm.RegisterNode(target, node, BorrowedRecord(tm.world, info.value));
      if reply.Rejected? {
        return Refused;
      }
      var _ := tm.SetMultiTestContext(source);
      return Accepted(target);
    }
  }

  ghost predicate Lends(s: State, i: nat, source: nat, node: string, target: nat) {
    && i in s.running && i in s.suites && target in s.suites[i].tests
    && source in s.active && source in s.cases && node in s.cases[source].clients
  }

  /** An accepted loan gives the target a copy of the record, which holds nothing and whose window begins at the
      present size of the log, sets the source's flag, and changes no other flag and no other record. */
  lemma LoanExactly(s: State, i: nat, source: nat, node: string, target: nat)
    requires Inv(s) && Lends(s, i, source, node, target) && target in s.active
    ensures var info := s.cases[source].clients[node];
      var z := Next(Next(s, Register(target, node, BorrowedRecord(s.world, info))), Mark(source));
      && z.cases.Keys == s.cases.Keys && z.cases[source].multi
      && (forall t | t in s.cases && t != source :: z.cases[t].multi == s.cases[t].multi)
      && (forall t | t in s.cases && t != source && t != target :: z.cases[t] == s.cases[t])
      && node in z.cases[target].clients
      && var copy := z.cases[target].clients[node];
        && !copy.waiting && copy.id == info.id && copy.name == info.name && copy.logFile == info.logFile
        && copy.logOffsets == (if info.logFile != "" then Some(LogRange(s.world.Size(info.logFile), 0)) else None)
  {
  }

  /** Lending hands out a proper window, and the container keeps its owner exactly when the target is
      not the owner itself; lending a client to its own owner leaves it alive with nobody to stop it. */
  lemma LendingKeepsOwnerUnlessTargetOwns(s: State, i: nat, source: nat, node: string, target: nat)
    requires Inv(s) && OwnershipOk(s) && Lends(s, i, source, node, target) && target in s.active
    ensures var info := s.cases[source].clients[node];
      var e := Register(target, node, BorrowedRecord(s.world, info));
      && FreshOwner(s, e) && FairWindow(s, e) && (info.logFile != "" ==> Borrows(s, e, info.logFile))
      && (Owned(Next(s, e), node) <==> Owned(s, node) && !s.Owns(target, node))
      && (Orphan(Next(s, e), node) <==> Orphan(s, node) || s.Owns(target, node))
  {
    var e := Register(target, node, BorrowedRecord(s.world, s.cases[source].clients[node]));
    OrphansExactly(s, e, node);
    forall t: nat ensures Next(s, e).Owns(t, node) <==> s.Owns(t, node) && t != target {}
    if s.Owns(target, node) {
      forall t: nat | s.Owns(t, node) ensures t == target {}
    }
  }

  /** A test that starts a client and lends it to itself: the container is left alive without an owner. */
  lemma LendingToOwnerOrphans() returns (s: State, e: Event)
    ensures s == Run(Init(true, 1), [StartSuite("a", true), StartTest(0, "x"),
                                     Register(1, "c", OwnerRecord(Init(true, 1).world, "client", "c", true))])
    ensures Lends(s, 0, 1, "c", 1) && e == Register(1, "c", BorrowedRecord(s.world, s.cases[1].clients["c"]))
    ensures Owned(s, "c") && Orphan(Next(s, e), "c")
  {
    var z, info := Init(true, 1), OwnerRecord(Init(true, 1).world, "client", "c", true);
    var e1, e2, e3 := StartSuite("a", true), StartTest(0, "x"), Register(1, "c", info);
    RunOfThree(z, e1, e2, e3);
    var s1 := Next(z, e1);
    assert s1.suites == map[0 := SuiteRec("a", {}, Open, 0, "")] && s1.caseCounter == 0;
    var s2 := Next(s1, e2);
    assert s2.cases == map[1 := CaseRec("x", NO_RESULT, map[], false)] && s2.active == {1} && 1 in s2.suites[0].tests;
    s := Next(s2, e3);
    assert s.cases[1].clients == map["c" := info] && s.Owns(1, "c");
    e := Register(1, "c", BorrowedRecord(s.world, info));
    forall t: nat ensures !Next(s, e).Owns(t, "c") {}
  }
}
