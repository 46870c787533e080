/** Who owns which client container, and what becomes of each container that was launched. */
module Ownership {
  import opened Wrappers
  import opened Records
  import opened ManagerSpec
  import opened ManagerInvariants

  /** The backend hands out a new id for every container, and a node is registered under its own id
      (internal/libhive/api.go:299-321, 469-480). */
  ghost predicate FreshOwner(s: State, e: Event) {
    e.Register? ==> e.info.id == e.node && (e.info.waiting ==> e.node !in s.world.launched)
  }

  ghost predicate FreshRun(s: State, es: seq<Event>) {
    forall k | 0 <= k < |es| :: FreshOwner(Run(s, es[..k]), es[k])
  }

  /** Every owning entry is held by a running test under the container's own id, no container has two
      owners, owned containers are alive, and every launched one is either alive or removed, never both. */
  ghost predicate OwnershipOk(s: State) {
    && (forall t: nat, n: string | t in s.cases && n in s.cases[t].clients :: s.cases[t].clients[n].id == n)
    && (forall t: nat, n: string | s.Owns(t, n) :: t in s.active && n in s.world.live)
    && (forall t: nat, u: nat, n: string | s.Owns(t, n) && s.Owns(u, n) :: t == u)
    && s.world.live !! s.world.removed && s.world.launched == s.world.live + s.world.removed
  }

  lemma HoldingsAreOwned(s: State, t: nat)
    requires OwnershipOk(s) && t in s.cases
    ensures forall n :: n in Holdings(s.cases[t].clients) <==> s.Owns(t, n)
  {
  }

  lemma EndTestKeepsOwnership(s: State, i: nat, t: nat, r: Option<TestResult>, io: WriteOutcome, refused: set<string>)
    requires Inv(s) && OwnershipOk(s)
    ensures OwnershipOk(ApplyEndTest(s, i, t, r, io, refused).state)
  {
    var z := ApplyEndTest(s, i, t, r, io, refused).state;
    if z != s {
      HoldingsAreOwned(s, t);
      forall u: nat, n: string | z.Owns(u, n) ensures s.Owns(u, n) && u != t {}
    }
  }

  lemma RegisterKeepsOwnership(s: State, t: nat, node: string, info: ClientInfo)
    requires Inv(s) && OwnershipOk(s) && FreshOwner(s, Register(t, node, info))
    ensures OwnershipOk(ApplyRegister(s, t, node, info).state)
  {
    var z := ApplyRegister(s, t, node, info).state;
    forall u: nat, n: string | z.Owns(u, n) ensures s.Owns(u, n) || (u == t && n == node && info.waiting) {}
  }

  lemma StopKeepsOwnership(s: State, t: nat, node: string, removed: bool)
    requires Inv(s) && OwnershipOk(s)
    ensures OwnershipOk(ApplyStop(s, t, node, removed).state)
  {
    var z := ApplyStop(s, t, node, removed).state;
    if t in s.active && s.Owns(t, node) && removed {
      forall u: nat, n: string | z.Owns(u, n) ensures s.Owns(u, n) && n != node {
        assert s.Owns(u, n);
        assert n == node ==> u == t;
      }
    }
  }

  /** A step that neither changes client records of existing tests nor containers. */
  ghost predicate Quiet(s: State, z: State) {
    && s.active <= z.active && s.cases.Keys <= z.cases.Keys
    && z.world == s.world.(sizes := z.world.sizes, nets := z.world.nets)
    && forall t | t in z.cases :: z.cases[t].clients == (if t in s.cases then s.cases[t].clients else map[])
  }

  lemma EndSuiteIsQuiet(s: State, i: nat, saved: bool, stuck: set<string>)
    ensures Quiet(s, ApplyEndSuite(s, i, saved, stuck).state)
  {
  }

  lemma StartTestIsQuiet(s: State, i: nat, name: string)
    requires Inv(s)
    ensures Quiet(s, ApplyStartTest(s, i, name).state)
  {
  }

  lemma NetworkStepsAreQuiet(s: State, e: Event)
    requires e.CreateNetwork? || e.RemoveNetwork?
    ensures Quiet(s, Next(s, e))
  {
  }

  lemma OtherStepsAreQuiet(s: State, e: Event)
    requires Inv(s) && !e.EndTest? && !e.Register? && !e.Stop?
    ensures Quiet(s, Next(s, e))
  {
    match e
    case EndSuite(i, saved, stuck) => EndSuiteIsQuiet(s, i, saved, stuck);
    case StartTest(i, name) => StartTestIsQuiet(s, i, name);
    case StartSuite(_, _) =>
    case Mark(_) =>
    case Grow(_, _) =>
    case _ => NetworkStepsAreQuiet(s, e);
  }

  lemma QuietStepKeepsOwnership(s: State, z: State)
    requires OwnershipOk(s) && Quiet(s, z)
    ensures OwnershipOk(z)
  {
    forall u: nat, n: string | z.Owns(u, n) ensures s.Owns(u, n) {}
  }

  lemma StepKeepsOwnership(s: State, e: Event)
    requires Inv(s) && OwnershipOk(s) && FreshOwner(s, e)
    ensures OwnershipOk(Next(s, e))
  {
    match e
    case EndTest(i, t, r, io, refused) => EndTestKeepsOwnership(s, i, t, r, io, refused);
    case Register(t, node, info) => RegisterKeepsOwnership(s, t, node, info);
    case Stop(t, node, removed) => StopKeepsOwnership(s, t, node, removed);
    case _ =>
      OtherStepsAreQuiet(s, e);
      QuietStepKeepsOwnership(s, Next(s, e));
  }

  lemma {:induction false} RunKeepsOwnership(s: State, es: seq<Event>)
    requires Inv(s) && OwnershipOk(s) && FreshRun(s, es)
    ensures OwnershipOk(Run(s, es))
    decreases |es|
  {
    if es != [] {
      var front := es[..|es| - 1];
      FrontIsFresh(s, es);
      RunKeepsOwnership(s, front);
      RunKeepsInv(s, front);
      StepKeepsOwnership(Run(s, front), es[|es| - 1]);
    }
  }

  lemma FrontIsFresh(s: State, es: seq<Event>)
    requires es != [] && FreshRun(s, es)
    ensures FreshRun(s, es[..|es| - 1]) && FreshOwner(Run(s, es[..|es| - 1]), es[|es| - 1])
  {
    var front := es[..|es| - 1];
    forall k | 0 <= k < |front| ensures FreshOwner(Run(s, front[..k]), front[k]) {
      assert front[..k] == es[..k];
    }
  }

  // Containers that are alive although no test is going to stop them

  ghost predicate Owned(s: State, n: string) { exists t: nat :: s.Owns(t, n) }

  ghost predicate Orphan(s: State, n: string) { n in s.world.live && !Owned(s, n) }

  /** The container `n` loses its owner in this step: its owning record is overwritten by another
      registration, its removal at the end of the test is refused, or its registration comes too late. */
  ghost predicate LosesOwner(s: State, e: Event, n: string) {
    match e
    case Register(t, node, info) => n == node && (if t in s.active then s.Owns(t, n) else info.waiting)
    case EndTest(i, t, r, _, refused) => Apply(s, e).reply == Done && s.Owns(t, n) && n in refused
    case _ => false
  }

  /** Exactly those steps make orphans, and nothing ever takes care of an orphan again. */
  lemma OrphansExactly(s: State, e: Event, n: string)
    requires Inv(s) && OwnershipOk(s) && FreshOwner(s, e)
    ensures Orphan(Next(s, e), n) <==> Orphan(s, n) || LosesOwner(s, e, n)
  {
    match e
    case EndTest(i, t, r, io, refused) => EndTestOrphans(s, i, t, r, io, refused, n);
    case Register(t, node, info) => RegisterOrphans(s, t, node, info, n);
    case Stop(t, node, removed) => StopOrphans(s, t, node, removed, n);
    case _ =>
      OtherStepsAreQuiet(s, e);
      QuietOrphans(s, Next(s, e), n);
  }

  lemma QuietOrphans(s: State, z: State, n: string)
    requires Quiet(s, z)
    ensures Orphan(z, n) <==> Orphan(s, n)
  {
    forall t: nat ensures z.Owns(t, n) <==> s.Owns(t, n) {}
  }

  lemma EndTestOrphans(s: State, i: nat, t: nat, r: Option<TestResult>, io: WriteOutcome, refused: set<string>, n: string)
    requires Inv(s) && OwnershipOk(s)
    ensures var e := EndTest(i, t, r, io, refused);
      Orphan(Next(s, e), n) <==> Orphan(s, n) || LosesOwner(s, e, n)
  {
    var z := ApplyEndTest(s, i, t, r, io, refused).state;
    if z != s {
      HoldingsAreOwned(s, t);
      forall u: nat ensures z.Owns(u, n) <==> s.Owns(u, n) && u != t {}
    }
  }

  lemma RegisterOrphans(s: State, t: nat, node: string, info: ClientInfo, n: string)
    requires Inv(s) && OwnershipOk(s) && FreshOwner(s, Register(t, node, info))
    ensures var e := Register(t, node, info);
      Orphan(Next(s, e), n) <==> Orphan(s, n) || LosesOwner(s, e, n)
  {
    var z := ApplyRegister(s, t, node, info).state;
    forall u: nat ensures z.Owns(u, n) <==>
        if u == t && n == node && t in s.active then info.waiting else s.Owns(u, n)
    {
    }
  }

  lemma StopOrphans(s: State, t: nat, node: string, removed: bool, n: string)
    requires Inv(s) && OwnershipOk(s)
    ensures Orphan(ApplyStop(s, t, node, removed).state, n) <==> Orphan(s, n)
  {
    var z := ApplyStop(s, t, node, removed).state;
    if t in s.active && s.Owns(t, node) && removed {
      forall u: nat ensures z.Owns(u, n) <==> s.Owns(u, n) && !(u == t && n == node) {}
    }
  }

  ghost predicate CarefulRun(s: State, es: seq<Event>) {
    forall k, n | 0 <= k < |es| :: !LosesOwner(Run(s, es[..k]), es[k], n)
  }

  lemma {:induction false} CarefulRunMakesNoOrphans(s: State, es: seq<Event>, n: string)
    requires Inv(s) && OwnershipOk(s) && FreshRun(s, es) && CarefulRun(s, es)
    ensures Orphan(Run(s, es), n) ==> Orphan(s, n)
    decreases |es|
  {
    if es != [] {
      var front := es[..|es| - 1];
      FrontIsFresh(s, es);
      forall k, m | 0 <= k < |front| ensures !LosesOwner(Run(s, front[..k]), front[k], m) {
        assert front[..k] == es[..k];
      }
      CarefulRunMakesNoOrphans(s, front, n);
      RunKeepsOwnership(s, front);
      RunKeepsInv(s, front);
      OrphansExactly(Run(s, front), es[|es| - 1], n);
    }
  }

  // Counting deletions

  /** The records among `clients` that hold container `n`; each of them costs a delete call when the test ends. */
  function Holders(clients: map<string, ClientInfo>, n: string): set<string> {
    set node | node in clients && clients[node].waiting && clients[node].id == n
  }

  /** The delete calls for container `n` that the backend carries out in a step. */
  ghost function Deletions(s: State, e: Event, n: string): nat {
    match e
    case EndTest(i, t, r, _, refused) =>
      if Apply(s, e).reply == Done && n !in refused then |Holders(s.cases[t].clients, n)| else 0
    case Stop(t, node, removed) =>
      if t in s.active && s.Owns(t, node) && s.cases[t].clients[node].id == n && removed then 1 else 0
    case _ => 0
  }

  ghost function DeletionsOver(s: State, es: seq<Event>, n: string): nat
    decreases |es|
  {
    if es == [] then 0
    else DeletionsOver(s, es[..|es| - 1], n) + Deletions(Run(s, es[..|es| - 1]), es[|es| - 1], n)
  }

  lemma HoldersOfOwned(s: State, t: nat, n: string)
    requires OwnershipOk(s) && t in s.cases
    ensures Holders(s.cases[t].clients, n) == if s.Owns(t, n) then {n} else {}
  {
  }

  /** The step deletes the container once if it was alive and goes, and otherwise not at all. */
  ghost predicate DeletesLive(s: State, e: Event, n: string) {
    var z := Next(s, e);
    var goes := n in s.world.live && n !in z.world.live;
    Deletions(s, e, n) == (if goes then 1 else 0) && (n in z.world.removed <==> n in s.world.removed || goes)
  }

  lemma EndTestDeletes(s: State, i: nat, t: nat, r: Option<TestResult>, io: WriteOutcome, refused: set<string>, n: string)
    requires OwnershipOk(s)
    ensures DeletesLive(s, EndTest(i, t, r, io, refused), n)
  {
    if t in s.cases {
      HoldersOfOwned(s, t, n);
      HoldingsAreOwned(s, t);
    }
  }

  lemma StopDeletes(s: State, t: nat, node: string, removed: bool, n: string)
    requires OwnershipOk(s)
    ensures DeletesLive(s, Stop(t, node, removed), n)
  {
  }

  /** Every delete call finds its container alive, and there is one for each container that goes. */
  lemma DeletionsExactly(s: State, e: Event, n: string)
    requires Inv(s) && OwnershipOk(s)
    ensures DeletesLive(s, e, n)
  {
    match e
    case EndTest(i, t, r, io, refused) => EndTestDeletes(s, i, t, r, io, refused, n);
    case Stop(t, node, removed) => StopDeletes(s, t, node, removed, n);
    case Register(t, node, info) =>
    case _ => OtherStepsAreQuiet(s, e);
  }

  /** Over any run, whatever the backend refuses, a container is deleted once if it is gone in the end and
      was there in the beginning or came later, and otherwise never. */
  lemma {:induction false} DeletedAtMostOnce(s: State, es: seq<Event>, n: string)
    requires Inv(s) && OwnershipOk(s) && FreshRun(s, es)
    ensures DeletionsOver(s, es, n) == if n in Run(s, es).world.removed && n !in s.world.removed then 1 else 0
    ensures n in s.world.removed ==> n in Run(s, es).world.removed
    decreases |es|
  {
    if es != [] {
      var front := es[..|es| - 1];
      FrontIsFresh(s, es);
      DeletedAtMostOnce(s, front, n);
      RunKeepsInv(s, front);
      RunKeepsOwnership(s, front);
      DeletionsExactly(Run(s, front), es[|es| - 1], n);
    }
  }

  /** From an empty manager, with a backend that always removes what a test ends with: once no test is
      running, every container ever launched is gone, and was deleted exactly once. */
  lemma EveryContainerDeletedOnce(logDir: bool, pid: nat, es: seq<Event>)
    requires FreshRun(Init(logDir, pid), es) && CarefulRun(Init(logDir, pid), es)
    requires Run(Init(logDir, pid), es).active == {}
    ensures var w := Run(Init(logDir, pid), es).world; w.live == {} && w.removed == w.launched
    ensures forall n :: DeletionsOver(Init(logDir, pid), es, n) == (if n in Run(Init(logDir, pid), es).world.launched then 1 else 0)
  {
    var s0, z := Init(logDir, pid), Run(Init(logDir, pid), es);
    RunKeepsInv(s0, es);
    RunKeepsOwnership(s0, es);
    forall n ensures n !in z.world.live {
      CarefulRunMakesNoOrphans(s0, es, n);
    }
    forall n ensures DeletionsOver(s0, es, n) == if n in z.world.launched then 1 else 0 {
      DeletedAtMostOnce(s0, es, n);
    }
  }

  /** A call through a borrower, that is, through an entry without wait function, removes nothing:
      stopping is a no-op and ending removes only what the ending test itself owns. */
  lemma BorrowersRemoveNothing(s: State, e: Event, n: string)
    requires Inv(s) && OwnershipOk(s) && (e.Stop? || e.EndTest?)
    ensures !s.Owns(e.test, n) ==> (n in Next(s, e).world.live <==> n in s.world.live)
    ensures e.Stop? && !s.Owns(e.test, e.node) ==> Next(s, e) == s
    ensures n in s.world.live && n !in Next(s, e).world.live ==> s.Owns(e.test, n) && e.test in s.active
  {
  }
}
