/** The run theorems about containers and client logs, applied to running a whole suite. */
module DriverContainers {
  import opened Wrappers
  import opened Records
  import opened ManagerSpec
  import opened ManagerInvariants
  import opened ClientWindows
  import opened Ownership
  import opened Scripts
  import opened Driver
  import opened DriverProgress
  import opened DriverVerdicts

  /** The backend never hands out a container id again. */
  ghost predicate FreshIds(s: State, es: seq<Event>) {
    forall k | 0 <= k < |es| && es[k].Register? :: es[k].node !in Run(s, es[..k]).world.launched
  }

  lemma DriverRunIsFair(s: State, es: seq<Event>, refused: set<string>)
    requires DriverRun(s, es, refused)
    ensures FairRun(s, es) && (FreshIds(s, es) ==> FreshRun(s, es))
  {
    forall k | 0 <= k < |es| ensures FairWindow(Run(s, es[..k]), es[k]) {
      assert DriverStep(Run(s, es[..k]), es[k], refused);
    }
    if FreshIds(s, es) {
      forall k | 0 <= k < |es| ensures FreshOwner(Run(s, es[..k]), es[k]) {
        assert DriverStep(Run(s, es[..k]), es[k], refused);
      }
    }
  }

  /** When the backend deletes what it is told to, no call of the run takes a container from its owner. */
  lemma DriverRunIsCareful(s: State, es: seq<Event>)
    requires Inv(s) && OwnershipOk(s) && DriverRun(s, es, {}) && FreshIds(s, es)
    ensures CarefulRun(s, es)
  {
    forall k, n | 0 <= k < |es| ensures !LosesOwner(Run(s, es[..k]), es[k], n) {
      assert DriverStep(Run(s, es[..k]), es[k], {});
      PrefixKeepsOwnership(s, es, k);
    }
  }

  lemma PrefixKeepsOwnership(s: State, es: seq<Event>, k: nat)
    requires Inv(s) && OwnershipOk(s) && DriverRun(s, es, {}) && FreshIds(s, es) && k <= |es|
    ensures OwnershipOk(Run(s, es[..k]))
  {
    var front := es[..k];
    DriverRunIsFair(s, es, {});
    forall j | 0 <= j < k ensures FreshOwner(Run(s, front[..j]), front[j]) {
      assert front[..j] == es[..j];
    }
    RunKeepsOwnership(s, front);
  }

  lemma {:induction false} OrphansStay(s: State, es: seq<Event>, n: string)
    requires Inv(s) && OwnershipOk(s) && FreshRun(s, es) && Orphan(s, n)
    ensures Orphan(Run(s, es), n)
    decreases |es|
  {
    if es != [] {
      var front := es[..|es| - 1];
      FrontIsFresh(s, es);
      OrphansStay(s, front, n);
      RunKeepsInv(s, front);
      RunKeepsOwnership(s, front);
      OrphansExactly(Run(s, front), es[|es| - 1], n);
    }
  }

  /** Between states with the same running tests and the same records of them, an owner stays an owner. */
  lemma SameOwners(s: State, z: State, n: string)
    requires OwnershipOk(s) && OwnershipOk(z) && z.active == s.active && s.active <= s.cases.Keys
    requires forall t | t in s.cases :: t in z.cases && z.cases[t] == s.cases[t]
    ensures Owned(z, n) <==> Owned(s, n)
  {
    if Owned(z, n) {
      var t: nat :| z.Owns(t, n);
      assert s.Owns(t, n);
    }
    if Owned(s, n) {
      var t: nat :| s.Owns(t, n);
      assert z.Owns(t, n);
    }
  }

  lemma LiveAsBefore(s: State, es: seq<Event>, n: string)
    requires Inv(s) && OwnershipOk(s) && FreshRun(s, es) && CarefulRun(s, es)
    requires var z := Run(s, es); z.active == s.active && forall t | t in s.cases :: t in z.cases && z.cases[t] == s.cases[t]
    ensures OwnershipOk(Run(s, es)) && (n in Run(s, es).world.live <==> n in s.world.live)
  {
    var z := Run(s, es);
    RunKeepsOwnership(s, es);
    SameOwners(s, z, n);
    CarefulRunMakesNoOrphans(s, es, n);
    if Orphan(s, n) {
      OrphansStay(s, es, n);
    }
  }

  /** Exactly the containers alive before are alive after, and each container launched in between was deleted
      exactly once, no other at all. */
  ghost predicate ContainersGone(s: State, z: State, calls: seq<Event>) {
    && OwnershipOk(z) && z.world.live == s.world.live && s.world.launched <= z.world.launched
    && forall n :: DeletionsOver(s, calls, n) == (if n in z.world.launched - s.world.launched then 1 else 0)
  }

  lemma SuiteLeavesNoContainers(env: Env, s: State, tests: seq<AnyTest>, created: bool, saved: bool, stuck: set<string>)
    requires Inv(s) && OwnershipOk(s) && env.i == s.suiteCounter && (created || !s.logDir) && env.refused == {}
    requires FreshIds(s, AfterSuite(env, s, tests, created, saved, stuck).out.events)
    ensures var o := AfterSuite(env, s, tests, created, saved, stuck).out; ContainersGone(s, o.state, o.events)
  {
    var o := AfterSuite(env, s, tests, created, saved, stuck).out;
    SuiteIsRun(env, s, tests, created, saved, stuck);
    SuiteOnRecordAfter(env, s, tests, created, saved, stuck);
    DriverRunIsFair(s, o.events, {});
    DriverRunIsCareful(s, o.events);
    RunKeepsOwnership(s, o.events);
    forall n ensures n in o.state.world.live <==> n in s.world.live {
      LiveAsBefore(s, o.events, n);
    }
    forall n ensures DeletionsOver(s, o.events, n) == (if n in o.state.world.removed && n !in s.world.removed then 1 else 0)
        && (n in s.world.removed ==> n in o.state.world.removed) {
      DeletedAtMostOnce(s, o.events, n);
    }
  }

  /** Whatever is refused or reused, running a suite is a run of manager calls and keeps all client windows proper. */
  lemma SuiteKeepsWindows(env: Env, s: State, tests: seq<AnyTest>, created: bool, saved: bool, stuck: set<string>)
    requires Inv(s)
    ensures var o := AfterSuite(env, s, tests, created, saved, stuck).out;
      o.state == Run(s, o.events) && (WindowsOk(s) ==> WindowsOk(o.state))
  {
    var o := AfterSuite(env, s, tests, created, saved, stuck).out;
    SuiteIsRun(env, s, tests, created, saved, stuck);
    DriverRunIsFair(s, o.events, env.refused);
    if WindowsOk(s) {
      RunKeepsWindows(s, o.events);
    }
  }

  lemma SuiteRunEffects(env: Env, s: State, tests: seq<AnyTest>, created: bool, saved: bool, stuck: set<string>)
    requires Inv(s) && env.i == s.suiteCounter && (created || !s.logDir)
    ensures var o := AfterSuite(env, s, tests, created, saved, stuck).out;
      && o.state == Run(s, o.events) && (WindowsOk(s) ==> WindowsOk(o.state))
      && (OwnershipOk(s) && env.refused == {} && FreshIds(s, o.events) ==> ContainersGone(s, o.state, o.events))
  {
    SuiteKeepsWindows(env, s, tests, created, saved, stuck);
    var o := AfterSuite(env, s, tests, created, saved, stuck).out;
    if OwnershipOk(s) && env.refused == {} && FreshIds(s, o.events) {
      SuiteLeavesNoContainers(env, s, tests, created, saved, stuck);
    }
  }

  lemma NoCalls(s: State)
    ensures s == Run(s, []) && (OwnershipOk(s) ==> ContainersGone(s, s, []))
  {
  }
}
