/** The byte windows that tests get into the log of a client they use. */
module ClientWindows {
  import opened Wrappers
  import opened Records
  import opened ManagerSpec
  import opened ManagerInvariants

  /** A registered window begins at a size the log already had (internal/libhive/api.go:301-309, 464-468). */
  ghost predicate FairWindow(s: State, e: Event) {
    e.Register? && e.info.logOffsets.Some? ==> e.info.logOffsets.value.begin <= s.world.Size(e.info.logFile)
  }

  ghost predicate FairRun(s: State, es: seq<Event>) {
    forall k | 0 <= k < |es| :: FairWindow(Run(s, es[..k]), es[k])
  }

  /** The window of one client record: it begins inside the log and, once closed, is a proper range of it. */
  ghost predicate WindowOk(c: ClientInfo, size: nat, closed: bool) {
    c.logOffsets.Some? ==>
      var w := c.logOffsets.value;
      w.begin <= size && (closed ==> w.begin <= w.end <= size)
  }

  ghost predicate HasClient(s: State, t: nat, node: string) { t in s.cases && node in s.cases[t].clients }

  ghost predicate WindowsOk(s: State) {
    forall t: nat, node: string | HasClient(s, t, node) ::
      var c := s.cases[t].clients[node];
      WindowOk(c, s.world.Size(c.logFile), s.logDir && t !in s.active)
  }

  /** A step that changes the clients of test `t` alone, and no log size. */
  lemma ClientChangeKeepsWindows(s: State, z: State, t: nat)
    requires WindowsOk(s) && z.cases.Keys == s.cases.Keys && z.world.sizes == s.world.sizes && z.logDir == s.logDir
    requires forall u | u in s.cases && u != t :: z.cases[u].clients == s.cases[u].clients && (u in z.active <==> u in s.active)
    requires forall node | HasClient(z, t, node) ::
      var c := z.cases[t].clients[node];
      WindowOk(c, z.world.Size(c.logFile), z.logDir && t !in z.active)
    ensures WindowsOk(z)
  {
  }

  lemma EndTestKeepsWindows(s: State, i: nat, t: nat, r: Option<TestResult>, io: WriteOutcome, refused: set<string>)
    requires Inv(s) && WindowsOk(s)
    ensures WindowsOk(ApplyEndTest(s, i, t, r, io, refused).state)
  {
    var z := ApplyEndTest(s, i, t, r, io, refused).state;
    if z != s {
      forall node | HasClient(z, t, node)
        ensures var c := z.cases[t].clients[node]; WindowOk(c, z.world.Size(c.logFile), z.logDir && t !in z.active)
      {
        assert HasClient(s, t, node);
      }
      ClientChangeKeepsWindows(s, z, t);
    }
  }

  lemma StartTestKeepsWindows(s: State, i: nat, name: string)
    requires Inv(s) && WindowsOk(s)
    ensures WindowsOk(ApplyStartTest(s, i, name).state)
  {
  }

  lemma RegisterKeepsWindows(s: State, t: nat, node: string, info: ClientInfo)
    requires Inv(s) && WindowsOk(s) && FairWindow(s, Register(t, node, info))
    ensures WindowsOk(ApplyRegister(s, t, node, info).state)
  {
    var z := ApplyRegister(s, t, node, info).state;
    if t in s.active {
      forall n | HasClient(z, t, n)
        ensures var c := z.cases[t].clients[n]; WindowOk(c, z.world.Size(c.logFile), z.logDir && t !in z.active)
      {
        if n != node { assert HasClient(s, t, n); }
      }
    }
    ClientChangeKeepsWindows(s, z, t);
  }

  lemma StopKeepsWindows(s: State, t: nat, node: string, removed: bool)
    requires Inv(s) && WindowsOk(s)
    ensures WindowsOk(ApplyStop(s, t, node, removed).state)
  {
  }

  lemma SameClientsKeepWindows(s: State, z: State)
    requires WindowsOk(s) && z.logDir == s.logDir && z.active == s.active && z.cases.Keys == s.cases.Keys
    requires forall t | t in s.cases :: z.cases[t].clients == s.cases[t].clients
    requires forall file :: s.world.Size(file) <= z.world.Size(file)
    ensures WindowsOk(z)
  {
  }

  lemma OtherStepsKeepClients(s: State, e: Event)
    requires !e.StartTest? && !e.EndTest? && !e.Register? && !e.Stop?
    ensures var z := Next(s, e);
      z.logDir == s.logDir && z.active == s.active && z.cases.Keys == s.cases.Keys
      && (forall t | t in s.cases :: z.cases[t].clients == s.cases[t].clients)
      && (forall file :: s.world.Size(file) <= z.world.Size(file))
  {
    match e
    case EndSuite(_, _, _) => EndSuiteKeepsClients(s, e);
    case StartSuite(_, _) =>
    case Grow(_, _) =>
    case Mark(_) =>
    case _ =>
  }

  lemma EndSuiteKeepsClients(s: State, e: Event)
    requires e.EndSuite?
    ensures var z := Next(s, e);
      z.logDir == s.logDir && z.active == s.active && z.cases == s.cases && z.world.sizes == s.world.sizes
  {
  }

  lemma StepKeepsWindows(s: State, e: Event)
    requires Inv(s) && WindowsOk(s) && FairWindow(s, e)
    ensures WindowsOk(Next(s, e))
  {
    match e
    case StartTest(i, name) => StartTestKeepsWindows(s, i, name);
    case EndTest(i, t, r, io, refused) => EndTestKeepsWindows(s, i, t, r, io, refused);
    case Register(t, node, info) => RegisterKeepsWindows(s, t, node, info);
    case Stop(t, node, removed) => StopKeepsWindows(s, t, node, removed);
    case _ =>
      OtherStepsKeepClients(s, e);
      SameClientsKeepWindows(s, Next(s, e));
  }

  /** For all interleavings, with logs that only grow: begin <= end <= log size for every client of every
      ended test, provided a log directory is set. */
  lemma {:induction false} RunKeepsWindows(s: State, es: seq<Event>)
    requires Inv(s) && WindowsOk(s) && FairRun(s, es)
    ensures WindowsOk(Run(s, es))
    decreases |es|
  {
    if es != [] {
      var front := es[..|es| - 1];
      forall k | 0 <= k < |front| ensures FairWindow(Run(s, front[..k]), front[k]) {
        assert front[..k] == es[..k];
      }
      RunKeepsWindows(s, front);
      RunKeepsInv(s, front);
      StepKeepsWindows(Run(s, front), es[|es| - 1]);
    }
  }

  lemma StepKeepsSizes(s: State, e: Event)
    ensures Next(s, e).logDir == s.logDir
    ensures !e.Grow? ==> Next(s, e).world.sizes == s.world.sizes
  {
    match e
    case EndTest(i, t, r, io, refused) =>
    case EndSuite(i, saved, stuck) =>
    case _ =>
  }

  lemma {:induction false} SizesOnlyGrow(s: State, es: seq<Event>, file: string)
    ensures s.world.Size(file) <= Run(s, es).world.Size(file)
    decreases |es|
  {
    if es != [] {
      SizesOnlyGrow(s, es[..|es| - 1], file);
      StepKeepsSizes(Run(s, es[..|es| - 1]), es[|es| - 1]);
    }
  }

  // Sharing one client between tests

  /** The registration that registerMultiTestNode makes: a copy without the wait function, whose window
      begins at the present size of the log (internal/libhive/api.go:461-480). */
  ghost predicate Borrows(s: State, e: Event, file: string) {
    && e.Register? && e.test in s.active && !e.info.waiting && e.info.logFile == file
    && e.info.logOffsets == Some(LogRange(s.world.Size(file), 0))
  }

  ghost predicate NotReregistered(es: seq<Event>, t: nat, node: string) {
    forall e | e in es :: !(e.Register? && e.test == t && e.node == node)
  }

  /** Test `t` has a window into `file` under `node` that begins at `begin`. */
  ghost predicate WindowFrom(s: State, t: nat, node: string, file: string, begin: int) {
    && HasClient(s, t, node)
    && var c := s.cases[t].clients[node];
      c.logFile == file && c.logOffsets.Some? && c.logOffsets.value.begin == begin
  }

  ghost function WindowEnd(s: State, t: nat, node: string): int
    requires HasClient(s, t, node) && s.cases[t].clients[node].logOffsets.Some?
  {
    s.cases[t].clients[node].logOffsets.value.end
  }

  lemma EndTestKeepsStart(s: State, e: Event, t: nat, node: string, file: string, begin: int)
    requires WindowFrom(s, t, node, file, begin) && e.EndTest?
    ensures WindowFrom(Next(s, e), t, node, file, begin)
  {
  }

  lemma StartTestKeepsStart(s: State, e: Event, t: nat, node: string, file: string, begin: int)
    requires Inv(s) && WindowFrom(s, t, node, file, begin) && e.StartTest?
    ensures WindowFrom(Next(s, e), t, node, file, begin)
  {
  }

  lemma RegisterKeepsStart(s: State, e: Event, t: nat, node: string, file: string, begin: int)
    requires WindowFrom(s, t, node, file, begin) && e.Register? && !(e.test == t && e.node == node)
    ensures WindowFrom(Next(s, e), t, node, file, begin)
  {
  }

  lemma StopKeepsStart(s: State, e: Event, t: nat, node: string, file: string, begin: int)
    requires WindowFrom(s, t, node, file, begin) && e.Stop?
    ensures WindowFrom(Next(s, e), t, node, file, begin)
  {
  }

  lemma StepKeepsStart(s: State, e: Event, t: nat, node: string, file: string, begin: int)
    requires Inv(s) && WindowFrom(s, t, node, file, begin)
    requires !(e.Register? && e.test == t && e.node == node)
    ensures WindowFrom(Next(s, e), t, node, file, begin)
  {
    match e
    case EndTest(_, _, _, _, _) => EndTestKeepsStart(s, e, t, node, file, begin);
    case StartTest(_, _) => StartTestKeepsStart(s, e, t, node, file, begin);
    case Register(_, _, _) => RegisterKeepsStart(s, e, t, node, file, begin);
    case Stop(_, _, _) => StopKeepsStart(s, e, t, node, file, begin);
    case _ => OtherStepsKeepClients(s, e);
  }

  lemma {:induction false} RunKeepsStart(s: State, es: seq<Event>, t: nat, node: string, file: string, begin: int)
    requires Inv(s) && WindowFrom(s, t, node, file, begin) && NotReregistered(es, t, node)
    ensures WindowFrom(Run(s, es), t, node, file, begin)
    decreases |es|
  {
    if es != [] {
      var front := es[..|es| - 1];
      RunKeepsStart(s, front, t, node, file, begin);
      RunKeepsInv(s, front);
      StepKeepsStart(Run(s, front), es[|es| - 1], t, node, file, begin);
    }
  }

  lemma EndingClosesWindow(s: State, e: Event, t: nat, node: string, file: string, begin: int)
    requires Inv(s) && s.logDir && t in s.active && Next(s, e).Ended(t) && WindowFrom(s, t, node, file, begin)
    ensures WindowFrom(Next(s, e), t, node, file, begin) && WindowEnd(Next(s, e), t, node) == s.world.Size(file)
  {
  }

  /** A window is closed no earlier than the log size of any moment at which its test was running. */
  lemma {:induction false} ClosedAfter(s: State, es: seq<Event>, t: nat, node: string, file: string, begin: int)
    requires Inv(s) && s.logDir && t in s.active && Run(s, es).Ended(t)
    requires WindowFrom(s, t, node, file, begin) && NotReregistered(es, t, node)
    ensures WindowFrom(Run(s, es), t, node, file, begin) && s.world.Size(file) <= WindowEnd(Run(s, es), t, node)
    decreases |es|
  {
    var front, last := es[..|es| - 1], es[|es| - 1];
    var z := Run(s, front);
    RunKeepsInv(s, front);
    RunKeepsStart(s, front, t, node, file, begin);
    LogDirStays(s, front);
    if t in z.active {
      EndingClosesWindow(z, last, t, node, file, begin);
      SizesOnlyGrow(s, front, file);
    } else {
      ClosedAfter(s, front, t, node, file, begin);
      StepKeepsEnded(z, last, t);
    }
  }

  lemma {:induction false} LogDirStays(s: State, es: seq<Event>)
    ensures Run(s, es).logDir == s.logDir
    decreases |es|
  {
    if es != [] {
      LogDirStays(s, es[..|es| - 1]);
      StepKeepsSizes(Run(s, es[..|es| - 1]), es[|es| - 1]);
    }
  }

  /** A test that borrows a client after another user of it has ended gets a window that starts where
      the other one's has ended, or later; both are still recorded so after any further run. */
  lemma BorrowersInOrder(s: State, t: nat, node: string, file: string, begin: int,
                         es: seq<Event>, e: Event, es': seq<Event>)
    requires Inv(s) && WindowsOk(s) && s.logDir && s.Ended(t) && WindowFrom(s, t, node, file, begin)
    requires Borrows(Run(s, es), e, file) && NotReregistered(es', e.test, e.node)
    ensures var b := Run(s, es).world.Size(file);
      var z := Run(Next(Run(s, es), e), es');
      WindowFrom(z, e.test, e.node, file, b) && WindowFrom(z, t, node, file, begin) && WindowEnd(z, t, node) <= b
  {
    var borrowing := Run(s, es);
    var b := borrowing.world.Size(file);
    RunKeepsInv(s, es);
    EndedNeverChanges(s, es, t);
    SizesOnlyGrow(s, es, file);
    assert HasClient(s, t, node);
    StepKeepsInv(borrowing, e);
    StepKeepsEnded(borrowing, e, t);
    assert WindowFrom(Next(borrowing, e), e.test, e.node, file, b);
    RunKeepsStart(Next(borrowing, e), es', e.test, e.node, file, b);
    EndedNeverChanges(Next(borrowing, e), es', t);
  }

  /** The borrower's own window, once its test has ended: it begins at the log size of the borrowing
      and ends inside the log. */
  lemma BorrowedWindow(s: State, e: Event, es: seq<Event>, file: string)
    requires Inv(s) && WindowsOk(s) && s.logDir && Borrows(s, e, file)
    requires FairRun(Next(s, e), es) && NotReregistered(es, e.test, e.node)
    requires Run(Next(s, e), es).Ended(e.test)
    ensures var c := Run(Next(s, e), es);
      WindowFrom(c, e.test, e.node, file, s.world.Size(file))
      && s.world.Size(file) <= WindowEnd(c, e.test, e.node) <= c.world.Size(file)
  {
    var b, borrowed := s.world.Size(file), Next(s, e);
    StepKeepsInv(s, e);
    StepKeepsWindows(s, e);
    assert WindowFrom(borrowed, e.test, e.node, file, b);
    RunKeepsWindows(borrowed, es);
    LogDirStays(borrowed, es);
    RunKeepsStart(borrowed, es, e.test, e.node, file, b);
    assert HasClient(Run(borrowed, es), e.test, e.node);
  }

  /** A user `a` of a client who was there when a test borrowed it, and is still running when that test
      has ended, as the client's owner normally is, ends with a window that contains the borrower's. */
  lemma OwnerWindowCovers(s: State, a: nat, node: string, file: string, begin: int,
                          e: Event, es: seq<Event>, es': seq<Event>)
    requires Inv(s) && WindowsOk(s) && s.logDir && WindowFrom(s, a, node, file, begin)
    requires Borrows(s, e, file) && FairRun(Next(s, e), es) && NotReregistered(es, e.test, e.node)
    requires NotReregistered([e] + es, a, node) && NotReregistered(es', a, node)
    requires var c := Run(Next(s, e), es); c.Ended(e.test) && a in c.active && Run(c, es').Ended(a)
    ensures var z := Run(Run(Next(s, e), es), es');
      WindowFrom(z, a, node, file, begin) && WindowFrom(z, e.test, e.node, file, s.world.Size(file))
      && begin <= s.world.Size(file) <= WindowEnd(z, e.test, e.node) <= WindowEnd(z, a, node)
  {
    var c := Run(Next(s, e), es);
    BorrowedWindow(s, e, es, file);
    StillThere(s, a, node, file, begin, e, es);
    assert HasClient(s, a, node);
    CoveredAtEnd(c, es', a, node, begin, e.test, e.node, s.world.Size(file), file);
  }

  lemma StillThere(s: State, a: nat, node: string, file: string, begin: int, e: Event, es: seq<Event>)
    requires Inv(s) && s.logDir && WindowFrom(s, a, node, file, begin) && NotReregistered([e] + es, a, node)
    ensures var c := Run(Next(s, e), es); Inv(c) && c.logDir && WindowFrom(c, a, node, file, begin)
  {
    assert e in [e] + es && forall x | x in es :: x in [e] + es;
    StepKeepsInv(s, e);
    StepKeepsSizes(s, e);
    StepKeepsStart(s, e, a, node, file, begin);
    RunKeepsInv(Next(s, e), es);
    RunKeepsStart(Next(s, e), es, a, node, file, begin);
    LogDirStays(Next(s, e), es);
  }

  lemma CoveredAtEnd(c: State, es: seq<Event>, a: nat, node: string, begin: int,
                     t: nat, other: string, b: int, file: string)
    requires Inv(c) && c.logDir && a in c.active && Run(c, es).Ended(a) && WindowFrom(c, a, node, file, begin)
    requires NotReregistered(es, a, node)
    requires c.Ended(t) && WindowFrom(c, t, other, file, b) && WindowEnd(c, t, other) <= c.world.Size(file)
    ensures var z := Run(c, es);
      WindowFrom(z, a, node, file, begin) && WindowFrom(z, t, other, file, b)
      && WindowEnd(z, t, other) == WindowEnd(c, t, other) <= WindowEnd(z, a, node)
  {
    EndedNeverChanges(c, es, t);
    ClosedAfter(c, es, a, node, file, begin);
  }
}
