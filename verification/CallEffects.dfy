/** What each manager call answers and what it changes, told from the outside: in terms of what is on record before
    and after, with everything else as it was. */
module CallEffects {
  import opened Wrappers
  import opened Records
  import opened ManagerSpec
  import opened ManagerInvariants
  import opened DetailsLog

  // Networks

  ghost predicate SameNetworkEntry(s: State, z: State, i: nat, name: string) {
    && (z.HasNetwork(i, name) <==> s.HasNetwork(i, name))
    && (s.HasNetwork(i, name) ==> z.networks[i][name] == s.networks[i][name])
  }

  /** A network is created if and only if the suite runs and the backend answers. It is then on record with the id
      answered and alive under its unique name, and every other entry and network is as before. */
  lemma CreateNetworkExactly(s: State, i: nat, name: string, answer: Option<string>)
    ensures var out := Apply(s, CreateNetwork(i, name, answer)); var z := out.state;
      && (out.reply == Done <==> i in s.running && answer.Some?)
      && (out.reply == Rejected(NoSuchTestSuite) <==> i !in s.running)
      && z == s.(networks := z.networks, world := s.world.(nets := z.world.nets))
      && if out.reply != Done then z == s
         else var id := answer.value;
           && z.HasNetwork(i, name) && z.networks[i][name] == id
           && id in z.world.nets && z.world.nets[id] == UniqueName(s.pid, i, name)
           && (forall j: nat, other: string | j != i || other != name :: SameNetworkEntry(s, z, j, other))
           && (forall n | n != id :: (n in z.world.nets <==> n in s.world.nets))
           && (forall n | n != id && n in s.world.nets :: z.world.nets[n] == s.world.nets[n])
  {
  }

  /** A network is removed if and only if it is on record and its removal is not refused; exactly this entry and
      this network go. */
  lemma RemoveNetworkExactly(s: State, i: nat, name: string, removed: bool)
    ensures var out := Apply(s, RemoveNetwork(i, name, removed)); var z := out.state;
      && (out.reply == Done <==> s.HasNetwork(i, name) && removed)
      && (out.reply == Rejected(NetworkNotFound) <==> !s.HasNetwork(i, name))
      && z == s.(networks := z.networks, world := s.world.(nets := z.world.nets))
      && if out.reply != Done then z == s
         else var id := s.networks[i][name];
           && !z.HasNetwork(i, name)
           && (forall j: nat, other: string | j != i || other != name :: SameNetworkEntry(s, z, j, other))
           && (forall n :: n in z.world.nets <==> n in s.world.nets && n != id)
           && (forall n | n in z.world.nets :: z.world.nets[n] == s.world.nets[n])
  {
  }

  // Suites and tests

  /** A suite is started unless its details file cannot be created; it gets the next id and is on record with its
      name, without tests, with an empty details file exactly if there is a log directory. */
  lemma StartSuiteExactly(s: State, name: string, created: bool)
    ensures var out := Apply(s, StartSuite(name, created)); var z := out.state; var id := s.suiteCounter;
      && (out.reply == NewId(id) <==> created || !s.logDir)
      && if out.reply != NewId(id) then z == s && out.reply == Rejected(BackendFailure)
         else
           && z == s.(suites := z.suites, running := s.running + {id}, suiteCounter := id + 1)
           && z.suites.Keys == s.suites.Keys + {id} && (forall j | j in s.suites && j != id :: z.suites[j] == s.suites[j])
           && z.suites[id].name == name && z.suites[id].tests == {} && z.suites[id].log == "" && z.suites[id].offset == 0
           && (z.suites[id].file == Open <==> s.logDir) && (z.suites[id].file == NoFile <==> !s.logDir)
  {
  }

  /** A suite is ended if and only if it runs, none of its tests does, and its summary can be saved if there is a
      log directory. Then it is a result and has no networks on record; its tests, log and name stay. */
  lemma EndSuiteExactly(s: State, i: nat, saved: bool, stuck: set<string>)
    requires Inv(s)
    ensures var out := Apply(s, EndSuite(i, saved, stuck)); var z := out.state;
      && (out.reply == Done <==> i in s.running && (forall t | t in s.active :: !InSuite(s, i, t)) && (saved || !s.logDir))
      && (out.reply == Rejected(NoSuchTestSuite) <==> i !in s.running)
      && (out.reply == Rejected(TestSuiteRunning) <==> i in s.running && exists t :: t in s.active && InSuite(s, i, t))
      && z.cases == s.cases && z.active == s.active && z.suiteCounter == s.suiteCounter && z.caseCounter == s.caseCounter
      && z.suites.Keys == s.suites.Keys
      && (forall j | j in s.suites :: z.suites[j] == s.suites[j].(file := z.suites[j].file) && (j != i ==> z.suites[j] == s.suites[j]))
      && z.running == (if out.reply == Done then s.running - {i} else s.running)
      && z.results == (if out.reply == Done then s.results + {i} else s.results)
      && (forall j | j in s.networks :: if out.reply == Done && j == i then j !in z.networks else j in z.networks && z.networks[j] == s.networks[j])
  {
    if i in s.running && !(s.suites[i].tests !! s.active) {
      var t :| t in s.suites[i].tests && t in s.active;
      assert InSuite(s, i, t);
    }
  }

  /** A test is started if and only if its suite runs; it gets the next id and is on record in that suite, with its
      name and nothing else. */
  lemma StartTestExactly(s: State, i: nat, name: string)
    requires Inv(s)
    ensures var out := Apply(s, StartTest(i, name)); var z := out.state; var id := s.caseCounter + 1;
      && (out.reply == NewId(id) <==> i in s.running)
      && if i !in s.running then z == s && out.reply == Rejected(NoSuchTestSuite)
         else
           && z == s.(cases := z.cases, suites := z.suites, active := s.active + {id}, caseCounter := id)
           && z.cases.Keys == s.cases.Keys + {id} && (forall t | t in s.cases :: t != id && z.cases[t] == s.cases[t])
           && z.cases[id].name == name && z.cases[id].clients == map[] && !z.cases[id].multi
           && !z.cases[id].result.pass && !z.cases[id].result.timeout && z.cases[id].result.details == "" && z.cases[id].result.log.None?
           && z.suites.Keys == s.suites.Keys && (forall j | j in s.suites && j != i :: z.suites[j] == s.suites[j])
           && z.suites[i] == s.suites[i].(tests := s.suites[i].tests + {id})
  {
  }

  // Clients

  /** A client is registered if and only if the test runs; its record is the one handed in, and no other changes. */
  lemma RegisterExactly(s: State, t: nat, node: string, info: ClientInfo)
    requires Inv(s)
    ensures var out := Apply(s, Register(t, node, info)); var z := out.state;
      && (out.reply == Done <==> t in s.active) && (out.reply == Rejected(NoSuchTestCase) <==> t !in s.active)
      && z == s.(cases := z.cases, world := z.world) && z.cases.Keys == s.cases.Keys
      && (forall u | u in s.cases && (u != t || u !in s.active) :: z.cases[u] == s.cases[u])
      && (t in s.active ==>
            && z.cases[t] == s.cases[t].(clients := z.cases[t].clients)
            && node in z.cases[t].clients && z.cases[t].clients[node] == info
            && forall n | n != node :: SameClient(s, z, t, n))
  {
  }

  ghost predicate SameClient(s: State, z: State, t: nat, node: string)
    requires t in s.cases && t in z.cases
  {
    && (node in z.cases[t].clients <==> node in s.cases[t].clients)
    && (node in s.cases[t].clients ==> z.cases[t].clients[node] == s.cases[t].clients[node])
  }

  /** A stop is accepted if and only if the running test has the client and, where it owns it, the backend deletes
      it; the test then owns it no longer, and nothing else changes. */
  lemma StopExactly(s: State, t: nat, node: string, removed: bool)
    requires Inv(s)
    ensures var out := Apply(s, Stop(t, node, removed)); var z := out.state;
      && (out.reply == Done <==> t in s.active && node in s.cases[t].clients && (s.cases[t].clients[node].waiting ==> removed))
      && (out.reply == Rejected(NoSuchNode) <==> t !in s.active || node !in s.cases[t].clients)
      && z == s.(cases := z.cases, world := z.world) && z.cases.Keys == s.cases.Keys
      && (forall u | u in s.cases && u != t :: z.cases[u] == s.cases[u])
      && if out.reply != Done then z == s
         else
           && z.cases[t] == s.cases[t].(clients := z.cases[t].clients)
           && node in z.cases[t].clients && z.cases[t].clients[node] == s.cases[t].clients[node].(waiting := false)
           && (forall n | n != node :: SameClient(s, z, t, n))
           && z.world.live == (if s.cases[t].clients[node].waiting then s.world.live - {s.cases[t].clients[node].id} else s.world.live)
  {
  }

  /** Marking sets the flag of a running test, and of no other. */
  lemma MarkExactly(s: State, t: nat)
    requires Inv(s)
    ensures var out := Apply(s, Mark(t)); var z := out.state;
      && (out.reply == Done <==> t in s.active) && (out.reply == Rejected(NoSuchTestCase) <==> t !in s.active)
      && z == s.(cases := z.cases) && z.cases.Keys == s.cases.Keys
      && (t in s.active ==> z.cases[t].multi && z.cases[t] == s.cases[t].(multi := true))
      && forall u | u in s.cases && (u != t || t !in s.active) :: z.cases[u] == s.cases[u]
  {
  }

  // The end of a test

  /** A test is ended if and only if the suite named and the test run and there is a result. Every client record
      then holds no container, its window, if it has one and there is a log directory, ends at the present size
      of the client's log, and all else in the record is as it was. */
  lemma EndTestExactly(s: State, i: nat, t: nat, result: Option<TestResult>, io: WriteOutcome, refused: set<string>)
    requires Inv(s)
    ensures var out := Apply(s, EndTest(i, t, result, io, refused)); var z := out.state;
      && (out.reply == Done <==> i in s.running && t in s.active && result.Some?)
      && (out.reply == Rejected(NoSuchTestCase) <==> i !in s.running || t !in s.active)
      && (out.reply == Rejected(NoSummaryResult) <==> i in s.running && t in s.active && result.None?)
      && if out.reply != Done then z == s
         else
           && z == s.(suites := z.suites, cases := z.cases, active := s.active - {t}, world := z.world)
           && z.cases.Keys == s.cases.Keys && (forall u | u in s.cases && u != t :: z.cases[u] == s.cases[u])
           && z.cases[t] == s.cases[t].(result := z.cases[t].result, clients := z.cases[t].clients)
           && z.cases[t].result.pass == result.value.pass && z.cases[t].result.timeout == result.value.timeout
           && z.cases[t].clients.Keys == s.cases[t].clients.Keys
           && forall n | n in s.cases[t].clients ::
                var before, after := s.cases[t].clients[n], z.cases[t].clients[n];
                && after == before.(waiting := false, logOffsets := after.logOffsets)
                && if before.logOffsets.Some? && s.logDir
                   then after.logOffsets == Some(LogRange(before.logOffsets.value.begin, s.world.Size(before.logFile)))
                   else after.logOffsets == before.logOffsets
  {
  }

  /** What an accepted call leaves of the text. Without a log directory, or without a text, the result is recorded
      as it is. To an open file goes a header with the test's name, the text and two line ends, as far as the write
      gets; of a complete write the range is that of the text, of any other that of all bytes written. */
  lemma TextWritten(s: State, e: Event)
    requires Inv(s) && e.EndTest? && Apply(s, e).reply == Done
    ensures var z, r, suite := Next(s, e), e.result.value, s.suites[e.suite];
      var recorded, log := z.cases[e.test].result, z.suites[e.suite].log;
      if !s.logDir || r.details == "" then recorded == r && z.suites == s.suites
      else
        var block := "-- " + s.cases[e.test].name + "\n" + r.details + "\n\n";
        var n := if suite.file != Open then 0 else if e.io.Short? && e.io.n < |block| then e.io.n else |block|;
        var begin := |suite.log| + if suite.file == Open && e.io == Complete then |"-- " + s.cases[e.test].name + "\n"| else 0;
        var end := if suite.file == Open && e.io == Complete then begin + |r.details| else |suite.log| + n;
        && log == suite.log + block[..n] && recorded == r.(details := "", log := Some(LogRange(begin, end)))
        && z.suites == s.suites[e.suite := suite.(log := log, offset := |log|)]
  {
  }
}
