/** Garbage collection of a log directory (cmd/hiveview/gc.go and the walk of cmd/hiveview/listing.go). */
module LogGC {
  import opened Text

  datatype TestRecord = TestRecord(start: int, clientLogs: map<string, string>)

  datatype Suite = Suite(name: string, simulatorLog: string, testDetailsLog: string, tests: map<nat, TestRecord>)

  /** What a file decodes to. */
  datatype Content = Summary(suite: Suite) | Other

  /** The files below the log directory by slash-separated path. */
  type Files = map<string, Content>

  /** The start of a suite is that of whichever test the iteration over its tests meets first, or the zero time. */
  ghost predicate CanStart(suite: Suite, zero: int, t: int) {
    if suite.tests == map[] then t == zero else exists id :: id in suite.tests && suite.tests[id].start == t
  }

  ghost predicate Starts(files: Files, zero: int, start: map<string, int>) {
    forall p | p in Summaries(files) :: p in start && CanStart(files[p].suite, zero, start[p])
  }

  predicate HasSuffix(s: string, suffix: string) {
    |suffix| <= |s| && s[|s| - |suffix|..] == suffix
  }

  predicate SkipFile(f: string) {
    f == "errorReport.json" || f == "containerErrorReport.json" || f == "hive.json" || "." <= f
  }

  predicate IsSummary(files: Files, p: string) {
    p in files && '/' !in p && HasSuffix(p, ".json") && !SkipFile(p) && files[p].Summary? && files[p].suite.name != ""
  }

  function Summaries(files: Files): set<string> { set p | p in files && IsSummary(files, p) }

  /** The files that lie directly in the directory. */
  function TopLevel(files: Files): set<string> { set p | p in files && '/' !in p }

  lemma NamesListed(files: Files)
    ensures var names := Sorted(TopLevel(files));
      && Ascending(names) && (forall p | p in Summaries(files) :: p in names)
      && forall i | 0 <= i < |names| :: names[i] in files && '/' !in names[i]
  {
    SortedIsAscending(TopLevel(files));
    forall i | 0 <= i < |Sorted(TopLevel(files))| ensures Sorted(TopLevel(files))[i] in TopLevel(files) {
      assert Sorted(TopLevel(files))[i] in Sorted(TopLevel(files));
    }
  }

  /** The members of `s` that are walked before `p`. */
  function Above(s: set<string>, p: string): set<string> { set q | q in s && LessEq(p, q) && q != p }

  /** The retention rule without the walk: a suite is kept if it is not older than the cutoff or has fewer
      than `keepMin` suites above it. */
  ghost function Kept(s: set<string>, start: map<string, int>, cutoff: int, keepMin: int): set<string>
    requires s <= start.Keys
  {
    set p | p in s && (start[p] >= cutoff || |Above(s, p)| < keepMin)
  }

  function SuiteFiles(name: string, suite: Suite): set<string> {
    {name, suite.simulatorLog}
    + (if suite.testDetailsLog != "" then {suite.testDetailsLog} else {})
    + set id, c | id in suite.tests && c in suite.tests[id].clientLogs :: suite.tests[id].clientLogs[c]
  }

  ghost function UsedFiles(files: Files, kept: set<string>): set<string>
    requires kept <= Summaries(files)
  {
    {"hive.json"} + set p, f | p in kept && f in SuiteFiles(p, files[p].suite) :: f
  }

  /** The files left by a collection; the removal of the `stuck` ones is refused. */
  ghost function Collected(files: Files, start: map<string, int>, cutoff: int, keepMin: int, stuck: set<string>): Files
    requires Summaries(files) <= start.Keys
  {
    var used := UsedFiles(files, Kept(Summaries(files), start, cutoff, keepMin));
    map p | p in files && (p in used || p in stuck) :: files[p]
  }

  /** The files that stay or are still to be met. */
  function Remaining(files: Files, stay: set<string>, paths: seq<string>): Files {
    map p | p in files && (p in stay || p in paths) :: files[p]
  }

  lemma OneMorePath(files: Files, stay: set<string>, paths: seq<string>, i: nat)
    requires Ascending(paths) && i < |paths|
    ensures Remaining(files, stay, paths[i + 1..])
      == if paths[i] in stay then Remaining(files, stay, paths[i..]) else Remaining(files, stay, paths[i..]) - {paths[i]}
  {
    assert paths[i..] == [paths[i]] + paths[i + 1..];
    assert paths[i] !in paths[i + 1..];
  }

  class LogDir {
    var files: Files

    /** Walks the summaries from the highest name down, keeping suites greedily, then removes all other files. */
    method Collect(start: map<string, int>, cutoff: int, keepMin: int, readable: bool, stuck: set<string>)
      returns (ok: bool)
      requires Summaries(files) <= start.Keys
      modifies this
      ensures ok == readable
      ensures files == if ok then Collected(old(files), start, cutoff, keepMin, stuck) else old(files)
    {
      if !readable {
        return false;
      }
      var usedFiles := ChooseFiles(start, cutoff, keepMin);
      RemoveUnused(usedFiles, stuck);
      ok := true;
    }

    method RemoveUnused(usedFiles: set<string>, stuck: set<string>)
      modifies this
      ensures files == map p | p in old(files) && (p in usedFiles || p in stuck) :: old(files)[p]
    {
      var paths := Sorted(files.Keys);
      SortedIsAscending(files.Keys);
      var i := 0;
      while i < |paths|
        invariant 0 <= i <= |paths| && files == Remaining(old(files), usedFiles + stuck, paths[i..])
      {
        OneMorePath(old(files), usedFiles + stuck, paths, i);
        if paths[i] !in usedFiles && paths[i] !in stuck {
          files := files - {paths[i]};
        }
        i := i + 1;
      }
    }

    method ChooseFiles(start: map<string, int>, cutoff: int, keepMin: int) returns (usedFiles: set<string>)
      requires Summaries(files) <= start.Keys
      ensures usedFiles == UsedFiles(files, Kept(Summaries(files), start, cutoff, keepMin))
    {
      var names := Sorted(TopLevel(files));
      NamesListed(files);
      var keptSuites := 0;
      usedFiles := {"hive.json"};
      ghost var found: set<string> := {};
      var i := |names|;
      while i > 0
        invariant 0 <= i <= |names| && found == Found(files, start, cutoff, keepMin, names, i)
        invariant keptSuites == |found| && usedFiles == UsedFiles(files, found)
      {
        i := i - 1;
        WalkStep(files, start, cutoff, keepMin, names, i);
        keptSuites, usedFiles := Consider(names[i], start, cutoff, keepMin, keptSuites, usedFiles);
        found := Found(files, start, cutoff, keepMin, names, i);
      }
      AllWalked(files, start, cutoff, keepMin, names);
    }

    /** Looks at one entry of the directory; a suite that is too old is kept only up to the minimum. */
    method Consider(name: string, start: map<string, int>, cutoff: int, keepMin: int, keptSuites: nat, usedFiles: set<string>)
      returns (kept: nat, used: set<string>)
      requires name in files && '/' !in name && (IsSummary(files, name) ==> name in start)
      ensures if IsSummary(files, name) && (start[name] >= cutoff || keptSuites < keepMin)
        then kept == keptSuites + 1 && used == usedFiles + SuiteFiles(name, files[name].suite)
        else kept == keptSuites && used == usedFiles
    {
      kept, used := keptSuites, usedFiles;
      if !HasSuffix(name, ".json") || SkipFile(name) || !files[name].Summary? || files[name].suite.name == "" {
        return;
      }
      if start[name] < cutoff && keptSuites >= keepMin {
        return;
      }
      kept := kept + 1;
      used := AddSuiteFiles(used, name, files[name].suite);
    }
  }

  /** Adds the files of a suite: its own, its logs and those of all clients of all its tests. */
  method AddSuiteFiles(usedFiles: set<string>, name: string, suite: Suite) returns (used: set<string>)
    ensures used == usedFiles + SuiteFiles(name, suite)
  {
    used := usedFiles + {name} + {suite.simulatorLog};
    if suite.testDetailsLog != "" {
      used := used + {suite.testDetailsLog};
    }
    ghost var head := used;
    var tests := suite.tests.Keys;
    while tests != {}
      invariant tests <= suite.tests.Keys
      invariant used == head + TestFiles(suite, suite.tests.Keys - tests)
      decreases tests
    {
      var id :| id in tests;
      OneMoreTest(suite, suite.tests.Keys - tests, id);
      assert suite.tests.Keys - (tests - {id}) == suite.tests.Keys - tests + {id};
      tests := tests - {id};
      used := AddClientLogs(used, suite.tests[id].clientLogs);
    }
    assert suite.tests.Keys - tests == suite.tests.Keys;
  }

  method AddClientLogs(usedFiles: set<string>, logs: map<string, string>) returns (used: set<string>)
    ensures used == usedFiles + logs.Values
  {
    used := usedFiles;
    var todo := logs.Keys;
    while todo != {}
      invariant todo <= logs.Keys && used == usedFiles + set c | c in logs && c !in todo :: logs[c]
      decreases todo
    {
      var c :| c in todo;
      todo, used := todo - {c}, used + {logs[c]};
    }
  }

  function TestFiles(suite: Suite, tests: set<nat>): set<string> {
    set id, c | id in tests && id in suite.tests && c in suite.tests[id].clientLogs :: suite.tests[id].clientLogs[c]
  }

  lemma OneMoreTest(suite: Suite, tests: set<nat>, id: nat)
    requires id in suite.tests
    ensures TestFiles(suite, tests + {id}) == TestFiles(suite, tests) + suite.tests[id].clientLogs.Values
  {
  }

  /** The kept suites among the names from position `i` up. */
  ghost function Found(files: Files, start: map<string, int>, cutoff: int, keepMin: int, names: seq<string>, i: nat): (r: set<string>)
    requires Summaries(files) <= start.Keys && i <= |names|
    ensures r <= Summaries(files)
  {
    Kept(Summaries(files), start, cutoff, keepMin) * Walked(Summaries(files), names, i)
  }

  lemma WalkStep(files: Files, start: map<string, int>, cutoff: int, keepMin: int, names: seq<string>, i: nat)
    requires Summaries(files) <= start.Keys && i < |names| && Ascending(names) && forall p | p in Summaries(files) :: p in names
    ensures var found, next := Found(files, start, cutoff, keepMin, names, i + 1), Found(files, start, cutoff, keepMin, names, i);
      if IsSummary(files, names[i]) && (start[names[i]] >= cutoff || |found| < keepMin)
      then |next| == |found| + 1 && UsedFiles(files, next) == UsedFiles(files, found) + SuiteFiles(names[i], files[names[i]].suite)
      else next == found
  {
    WalkOne(Summaries(files), start, cutoff, keepMin, names, i);
    var found := Found(files, start, cutoff, keepMin, names, i + 1);
    if IsSummary(files, names[i]) && (start[names[i]] >= cutoff || |found| < keepMin) {
      OneMoreUsed(files, found, names[i]);
    }
  }

  lemma WalkedFurther(all: set<string>, kept: set<string>, names: seq<string>, i: nat)
    requires i < |names| && Ascending(names)
    ensures var found := kept * Walked(all, names, i + 1); var next := kept * Walked(all, names, i);
      if names[i] !in kept * all then next == found else next == found + {names[i]} && |next| == |found| + 1
  {
  }

  /** One step of the walk: with the suites kept so far, the greedy test agrees with the rule. */
  lemma WalkOne(all: set<string>, start: map<string, int>, cutoff: int, keepMin: int, names: seq<string>, i: nat)
    requires all <= start.Keys && i < |names| && forall p | p in all :: p in names
    requires Ascending(names)
    ensures var kept := Kept(all, start, cutoff, keepMin); var p := names[i];
      var found := kept * Walked(all, names, i + 1); var next := kept * Walked(all, names, i);
      if p !in all || (start[p] < cutoff && |found| >= keepMin) then next == found
      else next == found + {p} && |next| == |found| + 1
  {
    WalkedFurther(all, Kept(all, start, cutoff, keepMin), names, i);
    if names[i] in all {
      WalkedIsAbove(all, names, i);
      EnoughAbove(all, start, cutoff, keepMin, names[i]);
    }
  }

  lemma AllWalked(files: Files, start: map<string, int>, cutoff: int, keepMin: int, names: seq<string>)
    requires Summaries(files) <= start.Keys && forall p | p in Summaries(files) :: p in names
    ensures Found(files, start, cutoff, keepMin, names, 0) == Kept(Summaries(files), start, cutoff, keepMin)
  {
    assert Walked(Summaries(files), names, 0) == Summaries(files);
  }

  lemma OneMoreUsed(files: Files, kept: set<string>, name: string)
    requires kept + {name} <= Summaries(files)
    ensures UsedFiles(files, kept + {name}) == UsedFiles(files, kept) + SuiteFiles(name, files[name].suite)
  {
  }

  /** The summaries among the names from position `i` up. */
  ghost function Walked(all: set<string>, names: seq<string>, i: nat): set<string>
    requires i <= |names|
  {
    set p | p in all && p in names[i..]
  }

  lemma WalkedIsAbove(all: set<string>, names: seq<string>, i: nat)
    requires i < |names| && names[i] in all && forall p | p in all :: p in names
    requires Ascending(names)
    ensures Walked(all, names, i + 1) == Above(all, names[i])
  {
    forall p | p in Above(all, names[i]) ensures p in names[i + 1..] {
      var k :| 0 <= k < |names| && names[k] == p;
      LessEqTotal(p, names[i]);
      assert k > i;
    }
  }

  // The greedy rule keeps what the closed form says

  ghost function Top(s: set<string>, k: int): set<string> { set p | p in s && |Above(s, p)| < k }

  /** Of any set, as many members as asked for have fewer than that many above them. */
  lemma {:induction false} TopMembers(s: set<string>, k: int)
    ensures |Top(s, k)| == if k <= 0 then 0 else if k <= |s| then k else |s|
    decreases |s|
  {
    if s != {} {
      var m := Least(s);
      var rest := s - {m};
      forall p | p in rest ensures Above(rest, p) == Above(s, p) { LessEqTotal(p, m); }
      TopMembers(rest, k);
      assert Above(s, m) == rest;
      assert Top(s, k) == Top(rest, k) + if |rest| < k then {m} else {};
    }
  }

  lemma EnoughAbove(s: set<string>, start: map<string, int>, cutoff: int, keepMin: int, p: string)
    requires s <= start.Keys && p in s
    ensures |Kept(s, start, cutoff, keepMin) * Above(s, p)| >= keepMin <==> |Above(s, p)| >= keepMin
  {
    var kept, above := Kept(s, start, cutoff, keepMin), Above(s, p);
    var top := Top(above, keepMin);
    forall q | q in above ensures Above(above, q) == Above(s, q) { AboveIsUpward(s, p, q); }
    assert top <= kept * above;
    SubsetSize(top, kept * above);
    SubsetSize(kept * above, above);
    TopMembers(above, keepMin);
  }

  lemma AboveIsUpward(s: set<string>, p: string, q: string)
    requires q in Above(s, p)
    ensures Above(Above(s, p), q) == Above(s, q)
  {
    forall r | r in Above(s, q) ensures r in Above(s, p) {
      LessEqTransitive(p, q, r);
      LessEqTotal(q, r);
      LessEqTotal(p, q);
    }
  }

  lemma {:induction false} SubsetSize<A>(a: set<A>, b: set<A>)
    requires a <= b
    ensures |a| <= |b|
  {
    assert b == a + (b - a);
  }

  // The order of names against the order of time

  /** Summaries are named after the second in which they were written; `tail` is what makes the name unique. */
  function SummaryName(seconds: nat, tail: string): string { Decimal(seconds) + "-" + tail }

  lemma {:induction false} NumeralsDecide(a: string, x: string, b: string, y: string)
    requires AllDigits(a) && AllDigits(b) && a != b
    ensures LessEq(a + "-" + x, b + "-" + y) <==> LessEq(a, b)
  {
    var s, t := a + "-" + x, b + "-" + y;
    if a != "" && b != "" && a[0] == b[0] {
      assert a == [a[0]] + a[1..] && b == [b[0]] + b[1..];
      assert s[1..] == a[1..] + "-" + x && t[1..] == b[1..] + "-" + y;
      NumeralsDecide(a[1..], x, b[1..], y);
    } else {
      assert s[0] == (if a == "" then '-' else a[0]) && t[0] == (if b == "" then '-' else b[0]);
    }
  }

  /** The walk meets a later summary first exactly if its numeral comes later as a text, and so always if the
      numerals have the same number of digits. */
  lemma LaterIsAboveExactly(m: nat, x: string, n: nat, y: string)
    requires m < n
    ensures LessEq(SummaryName(m, x), SummaryName(n, y)) <==> LessEq(Decimal(m), Decimal(n))
    ensures |Decimal(m)| == |Decimal(n)| ==> LessEq(SummaryName(m, x), SummaryName(n, y))
  {
    if Decimal(m) == Decimal(n) { DecimalInjective(m, n); }
    NumeralsDecide(Decimal(m), x, Decimal(n), y);
    if |Decimal(m)| == |Decimal(n)| { DecimalOrder(m, n); }
  }

  /** With one digit more the later one comes last. */
  lemma LongerNumeralComesLast(x: string, y: string)
    ensures !LessEq(SummaryName(9, x), SummaryName(10, y))
  {
    LaterIsAboveExactly(9, x, 10, y);
    assert Decimal(9) == "9" && Decimal(10) == Decimal(1) + [Digit(0)] == "10";
  }

  // What a collection promises

  /** Every suite not older than the cutoff is kept, and at least the smaller of `keepMin` and the number of suites. */
  lemma KeepsEnough(files: Files, start: map<string, int>, cutoff: int, keepMin: int)
    requires Summaries(files) <= start.Keys
    ensures var all := Summaries(files); var kept := Kept(all, start, cutoff, keepMin);
      && (forall p | p in all && start[p] >= cutoff :: p in kept)
      && |kept| >= if keepMin <= |all| then keepMin else |all|
  {
    var all := Summaries(files);
    TopMembers(all, keepMin);
    SubsetSize(Top(all, keepMin), Kept(all, start, cutoff, keepMin));
  }

  /** A suite all of whose tests started at the cutoff or later survives, whichever test gives its start. */
  lemma RecentSuitesSurvive(files: Files, zero: int, start: map<string, int>, cutoff: int, keepMin: int, stuck: set<string>, p: string)
    requires Starts(files, zero, start) && Summaries(files) <= start.Keys && p in Summaries(files)
    requires files[p].suite.tests != map[]
    requires forall id | id in files[p].suite.tests :: files[p].suite.tests[id].start >= cutoff
    ensures forall f | f in SuiteFiles(p, files[p].suite) && f in files ::
      f in Collected(files, start, cutoff, keepMin, stuck) && Collected(files, start, cutoff, keepMin, stuck)[f] == files[f]
  {
  }

  /** A file goes exactly when no kept suite refers to it, it is not the status file, and its removal is not refused. */
  lemma RemovedExactly(files: Files, start: map<string, int>, cutoff: int, keepMin: int, stuck: set<string>, f: string)
    requires Summaries(files) <= start.Keys && f in files
    ensures f !in Collected(files, start, cutoff, keepMin, stuck) <==>
      && f != "hive.json" && f !in stuck
      && forall p | p in Kept(Summaries(files), start, cutoff, keepMin) :: f !in SuiteFiles(p, files[p].suite)
  {
  }

  /** Told from the fields of the summaries: besides the status file and files whose removal is refused, exactly
      those survive that a kept suite consists of or names as its simulator log, its details log if it has one, or
      the log of any client of any of its tests. What survives is unchanged. */
  lemma SurvivesExactly(files: Files, start: map<string, int>, cutoff: int, keepMin: int, stuck: set<string>, f: string)
    requires Summaries(files) <= start.Keys && f in files
    ensures var after := Collected(files, start, cutoff, keepMin, stuck);
      && (f in after ==> after[f] == files[f])
      && (f in after <==>
            (f in stuck || f == "hive.json"
             || exists p :: p in Kept(Summaries(files), start, cutoff, keepMin)
                            && (var suite := files[p].suite;
                                || f == p || f == suite.simulatorLog
                                || (suite.testDetailsLog != "" && f == suite.testDetailsLog)
                                || exists id, c :: id in suite.tests && c in suite.tests[id].clientLogs && suite.tests[id].clientLogs[c] == f)))
  {
    var kept := Kept(Summaries(files), start, cutoff, keepMin);
    forall p | p in kept ensures f in SuiteFiles(p, files[p].suite) <==>
        (var suite := files[p].suite;
         || f == p || f == suite.simulatorLog || (suite.testDetailsLog != "" && f == suite.testDetailsLog)
         || exists id, c :: id in suite.tests && c in suite.tests[id].clientLogs && suite.tests[id].clientLogs[c] == f)
    {
    }
  }

  /** A file is taken for a summary exactly if it lies directly in the directory, ends in .json, is none of the
      three files of that kind that are something else, does not begin with a dot, and decodes to a suite with a
      name. */
  lemma SummaryExactly(files: Files, p: string)
    ensures p in Summaries(files) <==>
      && p in files && '/' !in p && (exists base :: p == base + ".json")
      && p != "errorReport.json" && p != "containerErrorReport.json" && p != "hive.json" && p[0] != '.'
      && files[p].Summary? && files[p].suite.name != ""
  {
    if HasSuffix(p, ".json") {
      assert p == p[..|p| - 5] + ".json";
    }
  }

  /** The summaries that survive as logs of other suites, or because their removal is refused, are not kept later. */
  lemma SameKeptAgain(s: set<string>, t: set<string>, start: map<string, int>, cutoff: int, keepMin: int)
    requires s <= start.Keys && Kept(s, start, cutoff, keepMin) <= t <= s
    ensures Kept(t, start, cutoff, keepMin) == Kept(s, start, cutoff, keepMin)
  {
    var kept := Kept(s, start, cutoff, keepMin);
    forall p | p in t ensures |Above(t, p)| < keepMin <==> |Above(s, p)| < keepMin {
      EnoughAbove(s, start, cutoff, keepMin, p);
      assert kept * Above(s, p) <= Above(t, p) <= Above(s, p);
      SubsetSize(kept * Above(s, p), Above(t, p));
      SubsetSize(Above(t, p), Above(s, p));
    }
  }

  /** Two collections with the same arguments do what one does in which only the removals refused twice are refused. */
  lemma CollectTwice(files: Files, start: map<string, int>, cutoff: int, keepMin: int, stuck: set<string>, again: set<string>)
    requires Summaries(files) <= start.Keys
    ensures var once := Collected(files, start, cutoff, keepMin, stuck);
      && Summaries(once) <= Summaries(files)
      && Collected(once, start, cutoff, keepMin, again) == Collected(files, start, cutoff, keepMin, stuck * again)
  {
    var once := Collected(files, start, cutoff, keepMin, stuck);
    var kept := Kept(Summaries(files), start, cutoff, keepMin);
    forall p | p in kept ensures p in Summaries(once) {
      assert p in SuiteFiles(p, files[p].suite);
    }
    SameKeptAgain(Summaries(files), Summaries(once), start, cutoff, keepMin);
    assert UsedFiles(once, kept) == UsedFiles(files, kept);
  }

  /** A second run with the same arguments and the same refusals deletes nothing. */
  lemma CollectIsIdempotent(files: Files, start: map<string, int>, cutoff: int, keepMin: int, stuck: set<string>)
    requires Summaries(files) <= start.Keys
    ensures var once := Collected(files, start, cutoff, keepMin, stuck);
      Summaries(once) <= start.Keys && Collected(once, start, cutoff, keepMin, stuck) == once
  {
    CollectTwice(files, start, cutoff, keepMin, stuck, stuck);
    assert stuck * stuck == stuck;
  }

  /** An earlier cutoff and a larger minimum keep at least the same suites and files. */
  lemma CollectIsMonotone(files: Files, start: map<string, int>, stuck: set<string>,
                          cutoff: int, keepMin: int, earlier: int, larger: int)
    requires Summaries(files) <= start.Keys && earlier <= cutoff && keepMin <= larger
    ensures Kept(Summaries(files), start, cutoff, keepMin) <= Kept(Summaries(files), start, earlier, larger)
    ensures Collected(files, start, cutoff, keepMin, stuck).Items <= Collected(files, start, earlier, larger, stuck).Items
  {
  }
}
