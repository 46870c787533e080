/** The test manager as a transition system (internal/libhive/testmanager.go).

    One event is one call of an exported manager method, together with what the outside world
    answered during that call; `Grow` is the one event of the outside world alone. The class in
    TestManager.dfy is proved to take exactly these steps. */
module ManagerSpec {
  import opened Wrappers
  import opened Records
  import opened Text

  /** What the manager's environment holds: sizes of client logs, containers ever launched, containers
      alive, containers removed by a delete call, and live networks with their names. */
  datatype World = World(sizes: map<string, nat>, launched: set<string>, live: set<string>,
                         removed: set<string>, nets: map<string, string>)
  {
    function Size(file: string): nat { if file in sizes then sizes[file] else 0 }
  }

  /** `running`, `results` and `active` are the key sets of runningTestSuites, results and
      runningTestCases; the records those maps point to are in `suites` and `cases`. */
  datatype State = State(logDir: bool, pid: nat,
                         suites: map<nat, SuiteRec>, cases: map<nat, CaseRec>,
                         running: set<nat>, results: set<nat>, active: set<nat>,
                         suiteCounter: nat, caseCounter: nat,
                         networks: map<nat, map<string, string>>, world: World)
  {
    ghost predicate Ended(t: nat) { t in cases && t !in active }

    ghost predicate Owns(t: nat, node: string) {
      t in cases && node in cases[t].clients && cases[t].clients[node].waiting
    }

    predicate HasNetwork(i: nat, name: string) { i in networks && name in networks[i] }
  }

  /** A write to an open file takes everything, or stops after `n` bytes with an error. */
  datatype WriteOutcome = Complete | Short(n: nat)

  datatype Error =
    | NoSuchNode | NoSuchTestSuite | NoSuchTestCase | TestSuiteRunning
    | NoSummaryResult | NetworkNotFound | BackendFailure

  datatype Reply = Done | NewId(id: nat) | Rejected(error: Error)

  datatype Event =
    | StartSuite(name: string, created: bool)
    | EndSuite(suite: nat, saved: bool, stuck: set<string>)
    | StartTest(suite: nat, name: string)
    | EndTest(suite: nat, test: nat, result: Option<TestResult>, io: WriteOutcome, refused: set<string>)
    | Register(test: nat, node: string, info: ClientInfo)
    | Stop(test: nat, node: string, removed: bool)
    | Mark(test: nat)
    | CreateNetwork(suite: nat, name: string, answer: Option<string>)
    | RemoveNetwork(suite: nat, name: string, removed: bool)
    | Grow(file: string, bytes: nat)

  datatype Outcome = Outcome(state: State, reply: Reply)

  function Init(logDir: bool, pid: nat): State {
    State(logDir, pid, map[], map[], {}, {}, {}, 0, 0, map[], World(map[], {}, {}, {}, map[]))
  }

  function Apply(s: State, e: Event): Outcome {
    match e
    case StartSuite(name, created) => ApplyStartSuite(s, name, created)
    case EndSuite(suite, saved, stuck) => ApplyEndSuite(s, suite, saved, stuck)
    case StartTest(suite, name) => ApplyStartTest(s, suite, name)
    case EndTest(suite, test, result, io, refused) => ApplyEndTest(s, suite, test, result, io, refused)
    case Register(test, node, info) => ApplyRegister(s, test, node, info)
    case Stop(test, node, removed) => ApplyStop(s, test, node, removed)
    case Mark(test) => ApplyMark(s, test)
    case CreateNetwork(suite, name, answer) => ApplyCreateNetwork(s, suite, name, answer)
    case RemoveNetwork(suite, name, removed) => ApplyRemoveNetwork(s, suite, name, removed)
    case Grow(file, bytes) =>
      Outcome(s.(world := s.world.(sizes := s.world.sizes[file := s.world.Size(file) + bytes])), Done)
  }

  function Next(s: State, e: Event): State { Apply(s, e).state }

  function Run(s: State, es: seq<Event>): State
    decreases |es|
  {
    if es == [] then s else Next(Run(s, es[..|es| - 1]), es[|es| - 1])
  }

  function ApplyStartSuite(s: State, name: string, created: bool): Outcome {
    if s.logDir && !created then
      Outcome(s, Rejected(BackendFailure))
    else
      var id := s.suiteCounter;
      var suite := SuiteRec(name, {}, if s.logDir then Open else NoFile, 0, "");
      Outcome(s.(suites := s.suites[id := suite], running := s.running + {id}, suiteCounter := id + 1),
              NewId(id))
  }

  /** The details file is closed before the summary is written, so a failed save leaves a running
      suite whose details file is no longer usable. */
  function ApplyEndSuite(s: State, i: nat, saved: bool, stuck: set<string>): Outcome {
    if i !in s.running || i !in s.suites then
      Outcome(s, Rejected(NoSuchTestSuite))
    else if !(s.suites[i].tests !! s.active) then
      Outcome(s, Rejected(TestSuiteRunning))
    else
      var closed := s.(suites := s.suites[i := CloseDetails(s.suites[i])]);
      if s.logDir && !saved then
        Outcome(closed, Rejected(BackendFailure))
      else
        var nets := Networks(s, i).Values - stuck;
        Outcome(closed.(networks := s.networks - {i}, world := s.world.(nets := s.world.nets - nets),
                        running := s.running - {i}, results := s.results + {i}), Done)
  }

  function CloseDetails(suite: SuiteRec): SuiteRec {
    suite.(file := if suite.file == Open then Closed else suite.file)
  }

  function Networks(s: State, i: nat): map<string, string> {
    if i in s.networks then s.networks[i] else map[]
  }

  function ApplyStartTest(s: State, i: nat, name: string): Outcome {
    if i !in s.running || i !in s.suites then
      Outcome(s, Rejected(NoSuchTestSuite))
    else
      var id := s.caseCounter + 1;
      Outcome(s.(caseCounter := id, cases := s.cases[id := CaseRec(name, NO_RESULT, map[], false)],
                 suites := s.suites[i := s.suites[i].(tests := s.suites[i].tests + {id})],
                 active := s.active + {id}), NewId(id))
  }

  function ApplyEndTest(s: State, i: nat, t: nat, result: Option<TestResult>,
                        io: WriteOutcome, refused: set<string>): Outcome
  {
    if i !in s.running || i !in s.suites || t !in s.active || t !in s.cases then
      Outcome(s, Rejected(NoSuchTestCase))
    else if result.None? then
      Outcome(s, Rejected(NoSummaryResult))
    else
      var c := s.cases[t];
      var ended := c.(result := Recorded(s.suites[i], c.name, result.value, io),
                      clients := Released(c.clients, s.logDir, s.world));
      Outcome(s.(suites := s.suites[i := AfterDetails(s.suites[i], c.name, result.value, io)],
                 cases := s.cases[t := ended], active := s.active - {t},
                 world := Removed(s.world, Holdings(c.clients) - refused)), Done)
  }

  const FOOTER := "\n\n"

  function Header(name: string): string { "-- " + name + "\n" }

  function DetailsBlock(name: string, text: string): string { Header(name) + text + FOOTER }

  /** The number of bytes of a `len` byte block that reach the details file. */
  function Accepted(file: DetailsFile, io: WriteOutcome, len: nat): nat {
    if file != Open then 0 else if io.Short? && io.n < len then io.n else len
  }

  predicate WriteFails(file: DetailsFile, io: WriteOutcome) { file != Open || io.Short? }

  function DetailsRange(suite: SuiteRec, name: string, text: string, io: WriteOutcome): LogRange {
    var len := |DetailsBlock(name, text)|;
    if WriteFails(suite.file, io) then
      LogRange(suite.offset, suite.offset + Accepted(suite.file, io, len))
    else
      LogRange(suite.offset + |Header(name)|, suite.offset + |Header(name)| + |text|)
  }

  predicate LogsDetails(suite: SuiteRec, r: TestResult) { r.details != "" && suite.file != NoFile }

  function AfterDetails(suite: SuiteRec, name: string, r: TestResult, io: WriteOutcome): SuiteRec {
    if LogsDetails(suite, r) then
      var block := DetailsBlock(name, r.details);
      var n := Accepted(suite.file, io, |block|);
      suite.(offset := suite.offset + n, log := suite.log + block[..n])
    else
      suite
  }

  /** The result as stored in the test case; the caller's result object is left with this value too. */
  function Recorded(suite: SuiteRec, name: string, r: TestResult, io: WriteOutcome): TestResult {
    if LogsDetails(suite, r) then
      r.(details := "", log := Some(DetailsRange(suite, name, r.details, io)))
    else
      r
  }

  /** The log window of a client is closed when its test ends. */
  function CloseWindow(c: ClientInfo, logDir: bool, w: World): ClientInfo {
    if c.logOffsets.Some? && logDir then
      c.(logOffsets := Some(c.logOffsets.value.(end := w.Size(c.logFile))))
    else
      c
  }

  function CloseWindows(clients: map<string, ClientInfo>, logDir: bool, w: World): map<string, ClientInfo> {
    map n | n in clients :: CloseWindow(clients[n], logDir, w)
  }

  /** The clients of a test after it ended: windows closed, no container held. */
  function Released(clients: map<string, ClientInfo>, logDir: bool, w: World): map<string, ClientInfo> {
    map n | n in clients :: CloseWindow(clients[n], logDir, w).(waiting := false)
  }

  /** The containers held by the given client records. */
  function Holdings(clients: map<string, ClientInfo>): set<string> {
    set n | n in clients && clients[n].waiting :: clients[n].id
  }

  /** What successful removals leave; removing a container that is already gone changes nothing. */
  function Removed(w: World, ids: set<string>): World {
    w.(live := w.live - ids, removed := w.removed + ids * w.live)
  }

  /** A node registered with its wait function is a container that was just launched. */
  function ApplyRegister(s: State, t: nat, node: string, info: ClientInfo): Outcome {
    var w := if info.waiting
             then s.world.(launched := s.world.launched + {info.id}, live := s.world.live + {info.id})
             else s.world;
    if t !in s.active || t !in s.cases then
      Outcome(s.(world := w), Rejected(NoSuchTestCase))
    else
      var c := s.cases[t];
      Outcome(s.(cases := s.cases[t := c.(clients := c.clients[node := info])], world := w), Done)
  }

  function ApplyStop(s: State, t: nat, node: string, removed: bool): Outcome {
    if t !in s.active || t !in s.cases || node !in s.cases[t].clients then
      Outcome(s, Rejected(NoSuchNode))
    else
      var c := s.cases[t];
      var info := c.clients[node];
      if !info.waiting then
        Outcome(s, Done)
      else if !removed then
        Outcome(s, Rejected(BackendFailure))
      else
        Outcome(s.(cases := s.cases[t := c.(clients := c.clients[node := info.(waiting := false)])],
                   world := Removed(s.world, {info.id})), Done)
  }

  function ApplyMark(s: State, t: nat): Outcome {
    if t !in s.active || t !in s.cases then
      Outcome(s, Rejected(NoSuchTestCase))
    else
      Outcome(s.(cases := s.cases[t := s.cases[t].(multi := true)]), Done)
  }

  /** The name under which the backend knows network `name` of suite `i`. */
  function UniqueName(pid: nat, i: nat, name: string): string {
    "hive_" + Decimal(pid) + "_" + Decimal(i) + "_" + name
  }

  function ApplyCreateNetwork(s: State, i: nat, name: string, answer: Option<string>): Outcome {
    if i !in s.running then
      Outcome(s, Rejected(NoSuchTestSuite))
    else if answer.None? then
      Outcome(s, Rejected(BackendFailure))
    else
      var id := answer.value;
      Outcome(s.(networks := s.networks[i := Networks(s, i)[name := id]],
                 world := s.world.(nets := s.world.nets[id := UniqueName(s.pid, i, name)])), Done)
  }

  function ApplyRemoveNetwork(s: State, i: nat, name: string, removed: bool): Outcome {
    if !s.HasNetwork(i, name) then
      Outcome(s, Rejected(NetworkNotFound))
    else if !removed then
      Outcome(s, Rejected(BackendFailure))
    else
      var id := s.networks[i][name];
      Outcome(s.(networks := s.networks[i := s.networks[i] - {name}],
                 world := s.world.(nets := s.world.nets - {id})), Done)
  }
}
