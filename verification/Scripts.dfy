/** Test suites as the simulator library sees them (xrplsim/testapi.go), and which tests with which
    verdicts running them should leave on record.

    A test body is given by the calls it makes on its T, in order. Nothing here knows about the manager:
    the verdicts are read off the bodies alone. */
module Scripts {
  import opened Selections
  import opened Api

  /** A client to be started, what comes of it, and the complaint that is logged if it does not start. */
  datatype Start = Start(client: string, launch: Launch, complaint: string)

  datatype Action =
    | Log(text: string)
    | Fail
    | FailNow
    | Panic(text: string)
    | StartClient(start: Start)
    | Sub(test: AnyTest)

  datatype ClientScript = ClientScript(launch: Launch, complaint: string, body: seq<Action>)

  /** A client test does, for the k-th client type of the right role, what `scripts[k]` says, and for
      those beyond the list what `rest` says; `launches` is read the same way. */
  datatype AnyTest =
    | TestSpec(name: string, alwaysRun: bool, body: seq<Action>)
    | ClientTestSpec(name: string, role: string, alwaysRun: bool, scripts: seq<ClientScript>, rest: ClientScript)
    | NetworkTestSpec(name: string, role: string, alwaysRun: bool, launches: seq<Start>, body: seq<Action>)

  datatype ClientType = ClientType(name: string, roles: set<string>)

  /** The fixed surroundings of a run: the client types offered and the test pattern. */
  datatype Host = Host(clientTypes: seq<ClientType>, matches: (string, string) -> bool)

  function Names(clientTypes: seq<ClientType>): set<string> { set k | 0 <= k < |clientTypes| :: clientTypes[k].name }

  /** The client types that a test with the given role runs for, in order. */
  function Matching(clientTypes: seq<ClientType>, role: string): seq<string> {
    if clientTypes == [] then []
    else
      var last := clientTypes[|clientTypes| - 1];
      Matching(clientTypes[..|clientTypes| - 1], role)
      + if role != "" && role !in last.roles then [] else [last.name]
  }

  predicate HasRole(clientTypes: seq<ClientType>, role: string, k: nat) {
    k < |clientTypes| && (role == "" || role in clientTypes[k].roles)
  }

  function RoleFilter(clientTypes: seq<ClientType>, role: string): nat -> bool { (k: nat) => HasRole(clientTypes, role, k) }

  /** The a-th name is that of the client type at the a-th pick. */
  predicate NamesAt(names: seq<string>, clientTypes: seq<ClientType>, picks: seq<nat>) {
    |names| == |picks| && forall a | 0 <= a < |picks| :: picks[a] < |clientTypes| && names[a] == clientTypes[picks[a]].name
  }

  lemma NamesAtFurther(names: seq<string>, clientTypes: seq<ClientType>, picks: seq<nat>, n: nat)
    requires NamesAt(names, clientTypes, picks) && n < |clientTypes|
    ensures NamesAt(names + [clientTypes[n].name], clientTypes, picks + [n])
  {
  }

  lemma OneMoreMatching(clientTypes: seq<ClientType>, role: string, n: nat)
    requires n < |clientTypes|
    ensures Matching(clientTypes[..n + 1], role)
      == Matching(clientTypes[..n], role) + if HasRole(clientTypes, role, n) then [clientTypes[n].name] else []
  {
    assert clientTypes[..n + 1][..n] == clientTypes[..n];
  }

  /** The matching ones among the first client types come first. */
  lemma {:induction false} MatchingPrefix(clientTypes: seq<ClientType>, role: string, n: nat, m: nat)
    requires n <= m <= |clientTypes|
    ensures Matching(clientTypes[..n], role) <= Matching(clientTypes[..m], role)
    decreases m
  {
    if n < m {
      MatchingPrefix(clientTypes, role, n, m - 1);
      OneMoreMatching(clientTypes, role, m - 1);
    }
  }

  lemma NextMatching(clientTypes: seq<ClientType>, role: string, n: nat)
    requires n < |clientTypes|
    ensures var before, after, all := Matching(clientTypes[..n], role), Matching(clientTypes[..n + 1], role), Matching(clientTypes, role);
      |after| <= |all| && after == before + (if HasRole(clientTypes, role, n) then [clientTypes[n].name] else [])
      && (HasRole(clientTypes, role, n) ==> all[|before|] == clientTypes[n].name)
  {
    OneMoreMatching(clientTypes, role, n);
    MatchingPrefix(clientTypes, role, n + 1, |clientTypes|);
    assert clientTypes[..|clientTypes|] == clientTypes;
  }

  /** `picks` are the positions of the matching ones among the first `n` client types. */
  ghost predicate MatchingAt(clientTypes: seq<ClientType>, role: string, n: nat, picks: seq<nat>)
    requires n <= |clientTypes|
  {
    Picks(picks, n, RoleFilter(clientTypes, role)) && NamesAt(Matching(clientTypes[..n], role), clientTypes, picks)
  }

  lemma MatchingAtFurther(clientTypes: seq<ClientType>, role: string, n: nat, picks: seq<nat>) returns (more: seq<nat>)
    requires n < |clientTypes| && MatchingAt(clientTypes, role, n, picks)
    ensures MatchingAt(clientTypes, role, n + 1, more)
  {
    var names := Matching(clientTypes[..n], role);
    OneMoreMatching(clientTypes, role, n);
    PicksFurther(picks, n, RoleFilter(clientTypes, role));
    if HasRole(clientTypes, role, n) {
      NamesAtFurther(names, clientTypes, picks, n);
      more := picks + [n];
    } else {
      assert names + [] == names;
      more := picks;
    }
  }

  lemma {:induction false} MatchingUpTo(clientTypes: seq<ClientType>, role: string, n: nat) returns (picks: seq<nat>)
    requires n <= |clientTypes|
    ensures MatchingAt(clientTypes, role, n, picks)
  {
    if n == 0 {
      picks := [];
    } else {
      picks := MatchingUpTo(clientTypes, role, n - 1);
      picks := MatchingAtFurther(clientTypes, role, n - 1, picks);
    }
  }

  /** A role selects exactly the client types that have it, and no role selects all; each is selected once, in
      the order of the list. */
  lemma MatchingSelects(clientTypes: seq<ClientType>, role: string) returns (picks: seq<nat>)
    ensures Picks(picks, |clientTypes|, (k: nat) => k < |clientTypes| && (role == "" || role in clientTypes[k].roles))
    ensures NamesAt(Matching(clientTypes, role), clientTypes, picks)
  {
    picks := MatchingUpTo(clientTypes, role, |clientTypes|);
    assert clientTypes[..|clientTypes|] == clientTypes;
    assert forall k: nat :: RoleFilter(clientTypes, role)(k) <==> k < |clientTypes| && (role == "" || role in clientTypes[k].roles);
  }

  lemma MatchingExactly(clientTypes: seq<ClientType>, role: string, name: string)
    ensures name in Matching(clientTypes, role)
       <==> exists k :: 0 <= k < |clientTypes| && clientTypes[k].name == name && (role == "" || role in clientTypes[k].roles)
  {
    var picks := MatchingSelects(clientTypes, role);
    if k :| 0 <= k < |clientTypes| && clientTypes[k].name == name && (role == "" || role in clientTypes[k].roles) {
      assert k in picks;
      var a :| 0 <= a < |picks| && picks[a] == k;
      assert Matching(clientTypes, role)[a] == name;
    }
    if name in Matching(clientTypes, role) {
      var a :| 0 <= a < |picks| && Matching(clientTypes, role)[a] == name;
      assert picks[a] in picks;
    }
  }

  function ReplaceAll(s: string, what: string, repl: string): string
    requires what != ""
  {
    if |s| < |what| then s
    else if s[..|what|] == what then repl + ReplaceAll(s[|what|..], what, repl)
    else [s[0]] + ReplaceAll(s[1..], what, repl)
  }

  predicate Contains(s: string, part: string) {
    |part| <= |s| && (s[..|part|] == part || (s != "" && Contains(s[1..], part)))
  }

  function ClientTestName(name: string, client: string): string {
    if name == "" then client
    else if Contains(name, "CLIENT") then ReplaceAll(name, "CLIENT", client)
    else name + " (" + client + ")"
  }

  lemma {:induction false} ContainsWithin(before: string, part: string, after: string)
    ensures Contains(before + part + after, part)
  {
    var s := before + part + after;
    if before == "" {
      assert s[..|part|] == part;
    } else {
      assert s[1..] == before[1..] + part + after;
      ContainsWithin(before[1..], part, after);
    }
  }

  lemma {:induction false} ReplacedContains(s: string, what: string, repl: string)
    requires what != "" && Contains(s, what)
    ensures Contains(ReplaceAll(s, what, repl), repl)
  {
    if s[..|what|] == what {
      assert ReplaceAll(s, what, repl)[..|repl|] == repl;
    } else {
      ReplacedContains(s[1..], what, repl);
      assert ReplaceAll(s, what, repl)[1..] == ReplaceAll(s[1..], what, repl);
    }
  }

  lemma {:induction false} ContainedAt(s: string, part: string) returns (before: string, after: string)
    requires Contains(s, part)
    ensures s == before + part + after
  {
    if s[..|part|] == part {
      before, after := "", s[|part|..];
    } else {
      before, after := ContainedAt(s[1..], part);
      before := [s[0]] + before;
    }
  }

  lemma ContainsExactly(s: string, part: string)
    ensures Contains(s, part) <==> exists before, after :: s == before + part + after
  {
    if Contains(s, part) {
      var before, after := ContainedAt(s, part);
    }
    if before, after :| s == before + part + after {
      ContainsWithin(before, part, after);
    }
  }

  function Interleave(parts: seq<string>, sep: string): string {
    if |parts| == 0 then "" else if |parts| == 1 then parts[0] else parts[0] + sep + Interleave(parts[1..], sep)
  }

  /** Replacing takes a text apart at every place where the pattern is, none being left inside the parts, and puts
      the replacement there. */
  lemma {:induction false} ReplacesEverywhere(s: string, what: string, repl: string) returns (parts: seq<string>)
    requires what != ""
    ensures parts != [] && s == Interleave(parts, what) && ReplaceAll(s, what, repl) == Interleave(parts, repl)
    ensures forall part | part in parts :: !Contains(part, what)
  {
    if |s| < |what| {
      parts := [s];
    } else if s[..|what|] == what {
      var more := ReplacesEverywhere(s[|what|..], what, repl);
      parts := [""] + more;
      assert s == what + s[|what|..] && parts[1..] == more;
    } else {
      var more := ReplacesEverywhere(s[1..], what, repl);
      parts := [[s[0]] + more[0]] + more[1..];
      LongerFirst(more, s[0], what);
      LongerFirst(more, s[0], repl);
      FirstStaysFree(s, more, what);
    }
  }

  lemma LongerFirst(more: seq<string>, c: char, sep: string)
    requires more != []
    ensures Interleave([[c] + more[0]] + more[1..], sep) == [c] + Interleave(more, sep)
  {
    var parts := [[c] + more[0]] + more[1..];
    assert parts[1..] == more[1..];
    if |more| > 1 {
      assert ([c] + more[0]) + sep + Interleave(more[1..], sep) == [c] + (more[0] + sep + Interleave(more[1..], sep));
    }
  }

  lemma FirstStaysFree(s: string, more: seq<string>, what: string)
    requires what != "" && |s| >= |what| && s[..|what|] != what && more != [] && s[1..] == Interleave(more, what)
    requires !Contains(more[0], what)
    ensures !Contains([s[0]] + more[0], what)
  {
    var first := [s[0]] + more[0];
    assert first[1..] == more[0];
    assert more[0] <= s[1..];
    assert first <= s;
    assert |what| <= |first| ==> first[..|what|] == s[..|what|];
  }

  /** A client test is called after the client if it has no name; otherwise every CLIENT in its name is replaced by
      the client, and if there is none the client is added in parentheses. */
  lemma ClientTestNameExactly(name: string, client: string) returns (parts: seq<string>)
    ensures parts != [] && name == Interleave(parts, "CLIENT") && forall part | part in parts :: !Contains(part, "CLIENT")
    ensures ClientTestName(name, client) ==
      if name == "" then client else if |parts| > 1 then Interleave(parts, client) else name + " (" + client + ")"
  {
    parts := ReplacesEverywhere(name, "CLIENT", client);
    if |parts| > 1 {
      assert name == parts[0] + "CLIENT" + Interleave(parts[1..], "CLIENT");
      ContainsWithin(parts[0], "CLIENT", Interleave(parts[1..], "CLIENT"));
    } else {
      assert parts[0] in parts;
    }
  }

  /** The name of a client test always mentions the client type. */
  lemma ClientTestNameMentionsClient(name: string, client: string)
    ensures Contains(ClientTestName(name, client), client)
  {
    if name == "" {
      assert client == "" + client + "";
      ContainsWithin("", client, "");
    } else if Contains(name, "CLIENT") {
      ReplacedContains(name, "CLIENT", client);
    } else {
      ContainsWithin(name + " (", client, ")");
    }
  }

  predicate Starts(h: Host, s: Start) { s.client in Names(h.clientTypes) && s.launch.Ran? && s.launch.up }

  /** The call fails the test. */
  predicate Failing(h: Host, a: Action) {
    a.Fail? || a.FailNow? || a.Panic? || (a.StartClient? && !Starts(h, a.start))
  }

  /** The call does not return: nothing after it is run. */
  predicate Stopping(h: Host, a: Action) { Failing(h, a) && !a.Fail? }

  /** All of the first `k` calls return, so that the next one is made. */
  predicate Reached(h: Host, body: seq<Action>, k: nat)
    requires k <= |body|
  {
    k == 0 || (Reached(h, body, k - 1) && !Stopping(h, body[k - 1]))
  }

  /** None of the first `k` calls that are made fails the test. */
  predicate Clean(h: Host, body: seq<Action>, k: nat)
    requires k <= |body|
  {
    k == 0 || (Clean(h, body, k - 1) && (Reached(h, body, k - 1) ==> !Failing(h, body[k - 1])))
  }

  lemma {:induction false} CleanMeansNoFailure(h: Host, body: seq<Action>, k: nat)
    requires k <= |body|
    ensures Clean(h, body, k) <==> forall j | 0 <= j < k && Reached(h, body, j) :: !Failing(h, body[j])
  {
    if k > 0 {
      CleanMeansNoFailure(h, body, k - 1);
    }
  }

  predicate AllStart(h: Host, starts: seq<Start>) { forall s | s in starts :: Starts(h, s) }

  /** A test passes when all its clients start and no call that is reached fails it. */
  predicate Passes(h: Host, starts: seq<Start>, body: seq<Action>) {
    AllStart(h, starts) && forall j | 0 <= j < |body| && Reached(h, body, j) :: !Failing(h, body[j])
  }

  function TextOf(h: Host, a: Action): string {
    if a.Log? || a.Panic? then a.text
    else if a.StartClient? && !Starts(h, a.start) then a.start.complaint
    else ""
  }

  /** What the first `k` calls log. */
  function Logged(h: Host, body: seq<Action>, k: nat): string
    requires k <= |body|
  {
    if k == 0 then ""
    else Logged(h, body, k - 1) + if Reached(h, body, k - 1) then TextOf(h, body[k - 1]) else ""
  }

  /** The complaint about the first client that does not start. */
  function Complaint(h: Host, starts: seq<Start>): string {
    if starts == [] then ""
    else
      var front, last := starts[..|starts| - 1], starts[|starts| - 1];
      if !AllStart(h, front) then Complaint(h, front) else if !Starts(h, last) then last.complaint else ""
  }

  datatype Verdict = Verdict(name: string, pass: bool, details: string)

  /** The tests registered, in the order of registration, and whether the API turned one down. */
  datatype Verdicts = Verdicts(all: seq<Verdict>, failed: bool)

  function RunVerdicts(h: Host, suite: string, name: string, always: bool, starts: seq<Start>, body: seq<Action>): Verdicts
    decreases body, 2
  {
    if !always && !h.matches(suite, name) then Verdicts([], false)
    else if name == "" then Verdicts([], true)
    else Verdicts(OwnVerdicts(h, suite, name, starts, body), false)
  }

  /** A test comes before its subtests. */
  function OwnVerdicts(h: Host, suite: string, name: string, starts: seq<Start>, body: seq<Action>): seq<Verdict>
    decreases body, 1
  {
    [Verdict(name, Passes(h, starts, body), if AllStart(h, starts) then Logged(h, body, |body|) else Complaint(h, starts))]
    + BodyVerdicts(h, suite, starts, body)
  }

  /** If a client does not start there are no subtests. */
  function BodyVerdicts(h: Host, suite: string, starts: seq<Start>, body: seq<Action>): seq<Verdict>
    decreases body, 0, |body| + 1
  {
    if AllStart(h, starts) then SubVerdicts(h, suite, body, |body|) else []
  }

  /** The subtests run by the first `k` calls; what the API says to a subtest is not passed on. */
  function SubVerdicts(h: Host, suite: string, body: seq<Action>, k: nat): seq<Verdict>
    requires k <= |body|
    decreases body, 0, k
  {
    if k == 0 then []
    else
      SubVerdicts(h, suite, body, k - 1)
      + if Reached(h, body, k - 1) then ActionVerdicts(h, suite, body[k - 1]) else []
  }

  function ActionVerdicts(h: Host, suite: string, a: Action): seq<Verdict>
    decreases a
  {
    match a
    case Sub(test) => TestVerdicts(h, suite, test).all
    case _ => []
  }

  function TestVerdicts(h: Host, suite: string, t: AnyTest): Verdicts
    decreases t, 1
  {
    match t
    case TestSpec(name, always, body) => RunVerdicts(h, suite, name, always, [], body)
    case ClientTestSpec(_, role, _, _, _) => ClientVerdicts(h, suite, t, |Matching(h.clientTypes, role)|)
    case NetworkTestSpec(name, role, always, launches, body) =>
      RunVerdicts(h, suite, name, always, NetworkStarts(h, role, launches), body)
  }

  function NetworkStarts(h: Host, role: string, launches: seq<Start>): seq<Start> {
    StartsFor(Matching(h.clientTypes, role), launches)
  }

  /** One start for each client, in order; how it turns out is read off `launches`. */
  function StartsFor(clients: seq<string>, launches: seq<Start>): seq<Start> {
    seq(|clients|, k requires 0 <= k < |clients| =>
      if k < |launches| then launches[k].(client := clients[k]) else Start(clients[k], NeverRan, ""))
  }

  function ClientVerdicts(h: Host, suite: string, t: AnyTest, k: nat): Verdicts
    requires t.ClientTestSpec? && k <= |Matching(h.clientTypes, t.role)|
    decreases t, 0, k + 1
  {
    if k == 0 then Verdicts([], false)
    else
      var before := ClientVerdicts(h, suite, t, k - 1);
      if before.failed then before
      else
        var client := Matching(h.clientTypes, t.role)[k - 1];
        var next := ScriptVerdicts(h, suite, ClientTestName(t.name, client), client, t, k - 1);
        Verdicts(before.all + next.all, next.failed)
  }

  function ScriptVerdicts(h: Host, suite: string, name: string, client: string, t: AnyTest, k: nat): Verdicts
    requires t.ClientTestSpec?
    decreases t, 0, 0
  {
    match ScriptFor(t, k)
    case ClientScript(launch, complaint, body) =>
      RunVerdicts(h, suite, name, t.alwaysRun, [Start(client, launch, complaint)], body)
  }

  function ScriptFor(t: AnyTest, k: nat): (script: ClientScript)
    requires t.ClientTestSpec?
    ensures script < t
  {
    match t
    case ClientTestSpec(_, _, _, scripts, rest) => if k < |scripts| then scripts[k] else rest
  }

  function SuiteVerdicts(h: Host, suite: string, tests: seq<AnyTest>): Verdicts {
    if tests == [] then Verdicts([], false)
    else
      var before := SuiteVerdicts(h, suite, tests[..|tests| - 1]);
      if before.failed then before
      else
        var next := TestVerdicts(h, suite, tests[|tests| - 1]);
        Verdicts(before.all + next.all, next.failed)
  }

  /** Nothing after a call that does not return has any effect. */
  lemma {:induction false} NothingAfterStop(h: Host, suite: string, body: seq<Action>, k: nat, m: nat)
    requires k < m <= |body| && Stopping(h, body[k])
    ensures SubVerdicts(h, suite, body, m) == SubVerdicts(h, suite, body, k + 1)
    ensures Logged(h, body, m) == Logged(h, body, k + 1)
    ensures Clean(h, body, m) == Clean(h, body, k + 1) && !Reached(h, body, m)
    decreases m
  {
    if k + 1 < m {
      NothingAfterStop(h, suite, body, k, m - 1);
    }
  }

  // Which tests a role leads to

  function Concat(parts: seq<seq<Verdict>>): seq<Verdict> {
    if parts == [] then [] else Concat(parts[..|parts| - 1]) + parts[|parts| - 1]
  }

  /** What the a-th run of a client test records: nothing if the pattern does not let it through. */
  function ClientRun(h: Host, suite: string, t: AnyTest, a: nat, client: string): seq<Verdict>
    requires t.ClientTestSpec?
  {
    var name := ClientTestName(t.name, client);
    match ScriptFor(t, a)
    case ClientScript(launch, complaint, body) =>
      if t.alwaysRun || h.matches(suite, name) then OwnVerdicts(h, suite, name, [Start(client, launch, complaint)], body) else []
  }

  function ClientRuns(h: Host, suite: string, t: AnyTest, clients: seq<string>): seq<seq<Verdict>>
    requires t.ClientTestSpec?
  {
    seq(|clients|, a requires 0 <= a < |clients| => ClientRun(h, suite, t, a, clients[a]))
  }

  lemma OneClientRun(h: Host, suite: string, t: AnyTest, k: nat, client: string)
    requires t.ClientTestSpec? && ClientTestName(t.name, client) != ""
    ensures var vs := ScriptVerdicts(h, suite, ClientTestName(t.name, client), client, t, k);
      vs.all == ClientRun(h, suite, t, k, client) && !vs.failed
  {
  }

  lemma OneMoreRun(h: Host, suite: string, t: AnyTest, clients: seq<string>, k: nat)
    requires t.ClientTestSpec? && k < |clients|
    ensures Concat(ClientRuns(h, suite, t, clients[..k + 1]))
      == Concat(ClientRuns(h, suite, t, clients[..k])) + ClientRun(h, suite, t, k, clients[k])
  {
    var runs := ClientRuns(h, suite, t, clients[..k + 1]);
    assert runs[..|runs| - 1] == ClientRuns(h, suite, t, clients[..k]);
  }

  lemma {:induction false} ClientRunsRecorded(h: Host, suite: string, t: AnyTest, k: nat)
    requires t.ClientTestSpec? && k <= |Matching(h.clientTypes, t.role)|
    requires forall client | client in Matching(h.clientTypes, t.role) :: ClientTestName(t.name, client) != ""
    ensures var vs := ClientVerdicts(h, suite, t, k);
      !vs.failed && vs.all == Concat(ClientRuns(h, suite, t, Matching(h.clientTypes, t.role)[..k]))
    decreases k
  {
    if k > 0 {
      var clients := Matching(h.clientTypes, t.role);
      ClientRunsRecorded(h, suite, t, k - 1);
      OneClientRun(h, suite, t, k - 1, clients[k - 1]);
      OneMoreRun(h, suite, t, clients, k - 1);
    }
  }

  /** A client test is on record once for each client type that has its role, in the order of the list, under a
      name made for that type; the API turns none down if all these names are not empty. */
  lemma ClientTestsRecorded(h: Host, suite: string, t: AnyTest) returns (picks: seq<nat>)
    requires t.ClientTestSpec?
    requires forall k | 0 <= k < |h.clientTypes| && (t.role == "" || t.role in h.clientTypes[k].roles) ::
      ClientTestName(t.name, h.clientTypes[k].name) != ""
    ensures Picks(picks, |h.clientTypes|, (k: nat) => k < |h.clientTypes| && (t.role == "" || t.role in h.clientTypes[k].roles))
    ensures forall a | 0 <= a < |picks| :: picks[a] < |h.clientTypes|
    ensures var vs := TestVerdicts(h, suite, t);
      !vs.failed && vs.all == Concat(seq(|picks|, a requires 0 <= a < |picks| && picks[a] < |h.clientTypes| =>
                                           ClientRun(h, suite, t, a, h.clientTypes[picks[a]].name)))
  {
    var clients := Matching(h.clientTypes, t.role);
    picks := MatchingSelects(h.clientTypes, t.role);
    forall client | client in clients ensures ClientTestName(t.name, client) != "" {
      MatchingExactly(h.clientTypes, t.role, client);
    }
    ClientRunsRecorded(h, suite, t, |clients|);
    assert clients[..|clients|] == clients;
    var runs := seq(|picks|, a requires 0 <= a < |picks| && picks[a] < |h.clientTypes| =>
      ClientRun(h, suite, t, a, h.clientTypes[picks[a]].name));
    assert runs == ClientRuns(h, suite, t, clients);
  }

  /** A network test starts one client of each type that has its role, in the order of the list. */
  lemma NetworkStartsSelected(h: Host, role: string, launches: seq<Start>) returns (picks: seq<nat>)
    ensures Picks(picks, |h.clientTypes|, (k: nat) => k < |h.clientTypes| && (role == "" || role in h.clientTypes[k].roles))
    ensures |NetworkStarts(h, role, launches)| == |picks|
    ensures forall a | 0 <= a < |picks| ::
      picks[a] < |h.clientTypes| && NetworkStarts(h, role, launches)[a].client == h.clientTypes[picks[a]].name
  {
    picks := MatchingSelects(h.clientTypes, role);
  }

  /** A test passes exactly if every one of its clients is of a known type and comes up, and among the calls that
      are reached there is no Fail, no FailNow, no panic and no start of a client that does not come up. */
  lemma PassesExactly(h: Host, starts: seq<Start>, body: seq<Action>)
    ensures Passes(h, starts, body) <==>
      && (forall s | s in starts :: s.launch.Ran? && s.launch.up && exists k :: 0 <= k < |h.clientTypes| && h.clientTypes[k].name == s.client)
      && forall j | 0 <= j < |body| && Reached(h, body, j) ::
           match body[j]
           case Fail => false
           case FailNow => false
           case Panic(_) => false
           case StartClient(s) => s.launch.Ran? && s.launch.up && exists k :: 0 <= k < |h.clientTypes| && h.clientTypes[k].name == s.client
           case _ => true
  {
  }

  /** A call is reached exactly if no earlier one is a FailNow, a panic or a start of a client that does not come up. */
  lemma {:induction false} ReachedExactly(h: Host, body: seq<Action>, k: nat)
    requires k <= |body|
    ensures Reached(h, body, k) <==> forall j | 0 <= j < k ::
      !body[j].FailNow? && !body[j].Panic? && (body[j].StartClient? ==> Starts(h, body[j].start))
  {
    if k > 0 {
      ReachedExactly(h, body, k - 1);
    }
  }

  /** The text of a test is made of what its calls log as far as they are reached: what is logged as such, what a
      panic says, and the complaint about a client that does not come up. */
  lemma LoggedExactly(h: Host, body: seq<Action>, k: nat)
    requires k < |body|
    ensures Logged(h, body, 0) == ""
    ensures Logged(h, body, k + 1) == Logged(h, body, k) +
      if !Reached(h, body, k) then ""
      else match body[k]
           case Log(text) => text
           case Panic(text) => text
           case StartClient(s) => if Starts(h, s) then "" else s.complaint
           case _ => ""
  {
  }

  /** If a client does not start, the complaint is that about the first such client. */
  lemma {:induction false} ComplaintExactly(h: Host, starts: seq<Start>, k: nat)
    requires k < |starts| && !Starts(h, starts[k]) && forall j | 0 <= j < k :: Starts(h, starts[j])
    ensures Complaint(h, starts) == starts[k].complaint
    decreases |starts|
  {
    var front := starts[..|starts| - 1];
    if k < |front| {
      assert front[k] in front;
      ComplaintExactly(h, front, k);
    } else {
      forall s | s in front ensures Starts(h, s) {
        var j :| 0 <= j < |front| && front[j] == s;
        assert starts[j] == s;
      }
    }
  }
}
