/** The docker networks of the suites: the manager's map against what the backend holds. */
module Networks {
  import opened Wrappers
  import opened Records
  import opened ManagerSpec
  import opened ManagerInvariants
  import opened Text

  /** Different suites, and different networks of one suite, get different names. */
  lemma UniqueNameInjective(pid: nat, i: nat, m: string, j: nat, n: string)
    requires UniqueName(pid, i, m) == UniqueName(pid, j, n)
    ensures i == j && m == n
  {
    var prefix := "hive_" + Decimal(pid) + "_";
    var x, y := Decimal(i) + "_" + m, Decimal(j) + "_" + n;
    assert UniqueName(pid, i, m) == prefix + x && UniqueName(pid, j, n) == prefix + y;
    assert x == (prefix + x)[|prefix|..] && y == (prefix + y)[|prefix|..];
    assert x == Decimal(i) + ['_'] + m && y == Decimal(j) + ['_'] + n;
    FirstSeparatorSplits(Decimal(i), m, Decimal(j), n, '_');
    DecimalInjective(i, j);
  }

  /** Different processes, too, get different names. */
  lemma UniqueNameTellsProcesses(p: nat, i: nat, m: string, q: nat, j: nat, n: string)
    requires UniqueName(p, i, m) == UniqueName(q, j, n)
    ensures p == q
  {
    var x, y := Decimal(i) + "_" + m, Decimal(j) + "_" + n;
    assert UniqueName(p, i, m) == "hive_" + (Decimal(p) + ['_'] + x) && UniqueName(q, j, n) == "hive_" + (Decimal(q) + ['_'] + y);
    assert Decimal(p) + ['_'] + x == UniqueName(p, i, m)[5..] && Decimal(q) + ['_'] + y == UniqueName(q, j, n)[5..];
    FirstSeparatorSplits(Decimal(p), x, Decimal(q), y, '_');
    DecimalInjective(p, q);
  }

  /** The backend refuses names in use and hands out new ids. */
  ghost predicate HonestBackend(s: State, e: Event) {
    e.CreateNetwork? && e.answer.Some? ==>
      e.answer.value !in s.world.nets && UniqueName(s.pid, e.suite, e.name) !in s.world.nets.Values
  }

  ghost predicate HonestRun(s: State, es: seq<Event>) {
    forall k | 0 <= k < |es| :: HonestBackend(Run(s, es[..k]), es[k])
  }

  /** Every network in the map is alive under its own name. */
  ghost predicate NetworksOk(s: State) {
    forall i: nat, name: string | s.HasNetwork(i, name) ::
      var id := s.networks[i][name];
      id in s.world.nets && s.world.nets[id] == UniqueName(s.pid, i, name)
  }

  /** Hence no two map entries share a backend network. */
  lemma MappedOnce(s: State, i: nat, m: string, j: nat, n: string)
    requires NetworksOk(s) && s.HasNetwork(i, m) && s.HasNetwork(j, n) && s.networks[i][m] == s.networks[j][n]
    ensures i == j && m == n
  {
    UniqueNameInjective(s.pid, i, m, j, n);
  }

  ghost predicate Mapped(s: State, id: string) {
    exists i: nat, name: string :: s.HasNetwork(i, name) && s.networks[i][name] == id
  }

  /** A live network that the manager has no record of. */
  ghost predicate Stranded(s: State, id: string) { id in s.world.nets && !Mapped(s, id) }

  ghost predicate InSuiteNetworks(s: State, i: nat, id: string) {
    exists name: string :: s.HasNetwork(i, name) && s.networks[i][name] == id
  }

  /** Ending a suite drops its records even of networks whose removal was refused. */
  ghost predicate Strands(s: State, e: Event, id: string) {
    e.EndSuite? && Apply(s, e).reply == Done && id in e.stuck && InSuiteNetworks(s, e.suite, id)
  }

  lemma EndSuiteNetworks(s: State, i: nat, saved: bool, stuck: set<string>, id: string)
    requires NetworksOk(s)
    ensures var z := ApplyEndSuite(s, i, saved, stuck).state;
      NetworksOk(z) && (Stranded(z, id) <==> Stranded(s, id) || Strands(s, EndSuite(i, saved, stuck), id))
  {
    var z := ApplyEndSuite(s, i, saved, stuck).state;
    if ApplyEndSuite(s, i, saved, stuck).reply == Done {
      forall j: nat, name: string ensures z.HasNetwork(j, name) <==> s.HasNetwork(j, name) && j != i {}
      forall j: nat, name: string | s.HasNetwork(j, name) && j != i
        ensures s.networks[j][name] !in ManagerSpec.Networks(s, i).Values
      {
        if s.networks[j][name] in ManagerSpec.Networks(s, i).Values {
          var m :| s.HasNetwork(i, m) && s.networks[i][m] == s.networks[j][name];
          MappedOnce(s, i, m, j, name);
        }
      }
      assert id in ManagerSpec.Networks(s, i).Values <==> InSuiteNetworks(s, i, id);
      assert Mapped(s, id) <==> Mapped(z, id) || InSuiteNetworks(s, i, id) by { SplitMapped(s, z, i, id); }
    } else {
      SameNetworks(s, z, id);
    }
  }

  lemma SplitMapped(s: State, z: State, i: nat, id: string)
    requires forall j: nat, name: string :: z.HasNetwork(j, name) <==> s.HasNetwork(j, name) && j != i
    requires forall j: nat, name: string | z.HasNetwork(j, name) ::
      s.HasNetwork(j, name) && z.networks[j][name] == s.networks[j][name]
    ensures Mapped(s, id) <==> Mapped(z, id) || InSuiteNetworks(s, i, id)
  {
  }

  lemma CreateNetworks(s: State, i: nat, name: string, answer: Option<string>, id: string)
    requires NetworksOk(s) && HonestBackend(s, CreateNetwork(i, name, answer))
    ensures var z := ApplyCreateNetwork(s, i, name, answer).state;
      NetworksOk(z) && (Stranded(z, id) <==> Stranded(s, id))
  {
    var z := ApplyCreateNetwork(s, i, name, answer).state;
    if i in s.running && answer.Some? {
      var created := answer.value;
      assert !s.HasNetwork(i, name);
      forall j: nat, n: string ensures z.HasNetwork(j, n) <==> s.HasNetwork(j, n) || (j == i && n == name) {}
      assert z.HasNetwork(i, name) && z.networks[i][name] == created;
      if Mapped(s, id) {
        var j, n :| s.HasNetwork(j, n) && s.networks[j][n] == id;
        assert z.HasNetwork(j, n) && z.networks[j][n] == id;
      }
    }
  }

  lemma RemoveNetworks(s: State, i: nat, name: string, removed: bool, id: string)
    requires NetworksOk(s)
    ensures var z := ApplyRemoveNetwork(s, i, name, removed).state;
      NetworksOk(z) && (Stranded(z, id) <==> Stranded(s, id))
  {
    var z := ApplyRemoveNetwork(s, i, name, removed).state;
    if s.HasNetwork(i, name) && removed {
      forall j: nat, n: string ensures z.HasNetwork(j, n) <==> s.HasNetwork(j, n) && !(j == i && n == name) {}
      forall j: nat, n: string | z.HasNetwork(j, n) ensures z.networks[j][n] != s.networks[i][name] {
        if s.networks[j][n] == s.networks[i][name] { MappedOnce(s, j, n, i, name); }
      }
      if Mapped(s, id) && id != s.networks[i][name] {
        var j, n :| s.HasNetwork(j, n) && s.networks[j][n] == id;
        assert z.HasNetwork(j, n) && z.networks[j][n] == id;
      }
    }
  }

  lemma SameNetworks(s: State, z: State, id: string)
    requires NetworksOk(s) && z.networks == s.networks && z.world.nets == s.world.nets && z.pid == s.pid
    ensures NetworksOk(z) && (Stranded(z, id) <==> Stranded(s, id))
  {
  }

  lemma OtherStepsKeepNetworks(s: State, e: Event)
    requires !e.EndSuite? && !e.CreateNetwork? && !e.RemoveNetwork?
    ensures var z := Next(s, e); z.networks == s.networks && z.world.nets == s.world.nets && z.pid == s.pid
  {
  }

  /** A refused removal while a suite ends is exactly what strands a network. */
  lemma StrandedExactly(s: State, e: Event, id: string)
    requires NetworksOk(s) && HonestBackend(s, e)
    ensures NetworksOk(Next(s, e))
    ensures Stranded(Next(s, e), id) <==> Stranded(s, id) || Strands(s, e, id)
  {
    match e
    case EndSuite(i, saved, stuck) => EndSuiteNetworks(s, i, saved, stuck, id);
    case CreateNetwork(i, name, answer) => CreateNetworks(s, i, name, answer, id);
    case RemoveNetwork(i, name, removed) => RemoveNetworks(s, i, name, removed, id);
    case _ =>
      OtherStepsKeepNetworks(s, e);
      SameNetworks(s, Next(s, e), id);
  }

  ghost predicate CleanRun(s: State, es: seq<Event>) {
    forall k, id | 0 <= k < |es| :: !Strands(Run(s, es[..k]), es[k], id)
  }

  lemma {:induction false} RunKeepsNetworks(s: State, es: seq<Event>, id: string)
    requires Inv(s) && NetworksOk(s) && HonestRun(s, es)
    ensures NetworksOk(Run(s, es))
    ensures CleanRun(s, es) && Stranded(Run(s, es), id) ==> Stranded(s, id)
    decreases |es|
  {
    if es != [] {
      var front := es[..|es| - 1];
      assert forall k | 0 <= k < |front| :: front[..k] == es[..k];
      FrontIsHonest(s, es);
      RunKeepsNetworks(s, front, id);
      StrandedExactly(Run(s, front), es[|es| - 1], id);
    }
  }

  lemma FrontIsHonest(s: State, es: seq<Event>)
    requires es != [] && HonestRun(s, es)
    ensures var front := es[..|es| - 1];
      HonestRun(s, front) && HonestBackend(Run(s, front), es[|es| - 1]) && (CleanRun(s, es) ==> CleanRun(s, front))
  {
    var front := es[..|es| - 1];
    forall k | 0 <= k < |front| ensures HonestBackend(Run(s, front[..k]), front[k]) {
      assert front[..k] == es[..k];
    }
    if CleanRun(s, es) {
      forall k, id | 0 <= k < |front| ensures !Strands(Run(s, front[..k]), front[k], id) {
        assert front[..k] == es[..k];
      }
    }
  }

  /** As long as no removal at the end of a suite is refused, the live networks are exactly those in
      the map, all of running suites; a suite that has ended has left none. */
  lemma LiveNetworksAreMapped(logDir: bool, pid: nat, es: seq<Event>)
    requires HonestRun(Init(logDir, pid), es) && CleanRun(Init(logDir, pid), es)
    ensures var z := Run(Init(logDir, pid), es);
      && (forall id :: id in z.world.nets <==> Mapped(z, id))
      && (forall i: nat, name: string | NameAlive(z, i, name) :: i in z.running)
  {
    var s0, z := Init(logDir, pid), Run(Init(logDir, pid), es);
    RunKeepsInv(s0, es);
    forall id ensures id in z.world.nets <==> Mapped(z, id) {
      RunKeepsNetworks(s0, es, id);
    }
    forall i: nat, name: string | NameAlive(z, i, name) ensures i in z.running {
      var id :| id in z.world.nets && z.world.nets[id] == UniqueName(z.pid, i, name);
      RunKeepsNetworks(s0, es, id);
      var j, n :| z.HasNetwork(j, n) && z.networks[j][n] == id;
      UniqueNameInjective(z.pid, i, name, j, n);
    }
  }

  /** A backend network that carries the name given to network `name` of suite `i`. */
  ghost predicate NameAlive(s: State, i: nat, name: string) {
    exists id :: id in s.world.nets && s.world.nets[id] == UniqueName(s.pid, i, name)
  }
}
