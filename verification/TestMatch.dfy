/** Test patterns: where a pattern is split into its suite part and its test part, and what it then
    selects (xrplsim/testmatch.go). */
module TestMatch {
  import opened Wrappers

  // One pass over the whole pattern

  /** Open square and round brackets, and whether the next character is escaped. */
  datatype Scan = Scan(cs: nat, cp: int, escaped: bool)

  const START := Scan(0, 0, false)

  function Step(z: Scan, c: char): Scan {
    if z.escaped then z.(escaped := false)
    else if c == '[' then z.(cs := z.cs + 1)
    else if c == ']' then z.(cs := if z.cs > 0 then z.cs - 1 else 0)
    else if c == '(' && z.cs == 0 then z.(cp := z.cp + 1)
    else if c == ')' && z.cs == 0 then z.(cp := z.cp - 1)
    else if c == '\\' then z.(escaped := true)
    else z
  }

  /** The scan state before position `p`. */
  function At(s: string, p: nat): Scan
    requires p <= |s|
  {
    if p == 0 then START else Step(At(s, p - 1), s[p - 1])
  }

  /** A slash outside all brackets that is not escaped. */
  predicate IsCut(s: string, p: nat)
    requires p < |s|
  {
    s[p] == '/' && At(s, p) == START
  }

  /** Where the part begins that position `p` lies in. */
  function PartStart(s: string, p: nat): (b: nat)
    requires p <= |s|
    ensures b <= p
  {
    if p == 0 then 0 else if IsCut(s, p - 1) then p else PartStart(s, p - 1)
  }

  /** The parts completed before position `p`. */
  function PartsBefore(s: string, p: nat): seq<string>
    requires p <= |s|
  {
    if p == 0 then []
    else PartsBefore(s, p - 1) + if IsCut(s, p - 1) then [s[PartStart(s, p - 1)..p - 1]] else []
  }

  /** The text cut at every cut position of the one pass. */
  function Split(s: string): seq<string> { PartsBefore(s, |s|) + [s[PartStart(s, |s|)..]] }

  // The program: it keeps re-slicing the pattern and starts over after every cut

  method SplitRegexp(pattern: string) returns (a: seq<string>)
    ensures a == Split(pattern)
  {
    a := [];
    var s := pattern;
    var cs, cp := 0, 0;
    var i := 0;
    ghost var b := 0;
    while i < |s|
      invariant 0 <= b <= |pattern| && s == pattern[b..] && 0 <= i <= |s| + 1
      invariant cs >= 0 && (i <= |s| ==> At(pattern, b + i) == Scan(cs, cp, false))
      invariant var q := if i <= |s| then b + i else |pattern|;
        PartStart(pattern, q) == b && PartsBefore(pattern, q) == a
      decreases |s| - i, |s|
    {
      assert s[i] == pattern[b + i];
      match s[i] {
        case '[' => cs := cs + 1;
        case ']' =>
          cs := cs - 1;
          if cs < 0 {
            cs := 0;
          }
        case '(' =>
          if cs == 0 {
            cp := cp + 1;
          }
        case ')' =>
          if cs == 0 {
            cp := cp - 1;
          }
        case '\\' => i := i + 1;
        case '/' =>
          if cs == 0 && cp == 0 {
            assert pattern[b..b + i] == s[..i];
            a := a + [s[..i]];
            s := s[i + 1..];
            b := b + i + 1;
            i := 0;
            continue;
          }
        case _ =>
      }
      i := i + 1;
    }
    a := a + [s];
  }

  // What the split is good for

  function Join(parts: seq<string>): string {
    if |parts| == 0 then "" else if |parts| == 1 then parts[0] else parts[0] + "/" + Join(parts[1..])
  }

  /** No cut inside. */
  predicate Atomic(part: string) { forall p | 0 <= p < |part| :: !IsCut(part, p) }

  /** Everything opened is closed again at the end. */
  predicate Balanced(part: string) { At(part, |part|) == START }

  lemma {:induction false} AtAfter(s: string, x: string, y: string, p: nat)
    requires s == x + "/" + y && Balanced(x) && p <= |y|
    ensures At(s, |x| + 1 + p) == At(y, p)
  {
    AtPrefix(x, "/" + y, |x|);
    assert s == x + ("/" + y) && s[|x|] == '/';
    if p > 0 {
      AtAfter(s, x, y, p - 1);
      assert s[|x| + p] == y[p - 1];
    }
  }

  lemma {:induction false} AtPrefix(x: string, y: string, p: nat)
    requires p <= |x|
    ensures At(x + y, p) == At(x, p)
  {
    if p > 0 { AtPrefix(x, y, p - 1); }
  }

  lemma {:induction false} AtomicPrefix(x: string, y: string, p: nat)
    requires Atomic(x) && p <= |x|
    ensures PartStart(x + y, p) == 0 && PartsBefore(x + y, p) == []
  {
    if p > 0 {
      AtomicPrefix(x, y, p - 1);
      AtPrefix(x, y, p - 1);
      assert !IsCut(x, p - 1);
    }
  }

  /** The pass up to the slash behind a complete first part. */
  lemma SplitsAtFirst(s: string, x: string, y: string)
    requires s == x + "/" + y && Atomic(x) && Balanced(x)
    ensures PartStart(s, |x| + 1) == |x| + 1 && PartsBefore(s, |x| + 1) == [x]
  {
    assert s == x + ("/" + y);
    AtomicPrefix(x, "/" + y, |x|);
    AtPrefix(x, "/" + y, |x|);
    assert IsCut(s, |x|) && s[0..|x|] == x;
  }

  /** What was found behind the first part corresponds to what a pass from there on finds. */
  predicate Corresponds(s: string, x: string, y: string, p: nat)
    requires |s| == |x| + 1 + |y| && p <= |y|
  {
    PartStart(s, |x| + 1 + p) == |x| + 1 + PartStart(y, p) && PartsBefore(s, |x| + 1 + p) == [x] + PartsBefore(y, p)
  }

  /** Behind a complete first part the pass goes on as if the text began there. */
  lemma {:induction false} SplitsAfter(s: string, x: string, y: string, p: nat)
    requires s == x + "/" + y && Atomic(x) && Balanced(x) && p <= |y|
    ensures Corresponds(s, x, y, p)
  {
    if p == 0 {
      SplitsAtFirst(s, x, y);
    } else {
      SplitsAfter(s, x, y, p - 1);
      SplitsOneFurther(s, x, y, p - 1);
    }
  }

  lemma SplitsOneFurther(s: string, x: string, y: string, p: nat)
    requires s == x + "/" + y && Balanced(x) && p < |y| && Corresponds(s, x, y, p)
    ensures Corresponds(s, x, y, p + 1)
  {
    var b := PartStart(y, p);
    AtAfter(s, x, y, p);
    assert s[|x| + 1 + p] == y[p];
    assert IsCut(s, |x| + 1 + p) <==> IsCut(y, p);
    assert s[|x| + 1 + b..|x| + 1 + p] == y[b..p];
    if IsCut(y, p) {
      assert ([x] + PartsBefore(y, p)) + [y[b..p]] == [x] + (PartsBefore(y, p) + [y[b..p]]);
    } else {
      assert ([x] + PartsBefore(y, p)) + [] == [x] + (PartsBefore(y, p) + []);
    }
  }

  lemma SplitFirst(x: string, y: string)
    requires Atomic(x) && Balanced(x)
    ensures Split(x + "/" + y) == [x] + Split(y)
  {
    var s, b := x + "/" + y, PartStart(y, |y|);
    SplitsAfter(s, x, y, |y|);
    assert s[|x| + 1 + b..] == y[b..];
  }

  lemma SplitAtomic(x: string)
    requires Atomic(x)
    ensures Split(x) == [x]
  {
    AtomicPrefix(x, "", |x|);
    assert x + "" == x;
  }

  /** A list of parts that are atomic, all but the last of them balanced. */
  ghost predicate ProperParts(parts: seq<string>) {
    && parts != []
    && (forall k | 0 <= k < |parts| :: Atomic(parts[k]))
    && (forall k | 0 <= k < |parts| - 1 :: Balanced(parts[k]))
  }

  lemma {:induction false} SplitOfJoin(parts: seq<string>)
    requires ProperParts(parts)
    ensures Split(Join(parts)) == parts
  {
    if |parts| == 1 {
      SplitAtomic(parts[0]);
    } else {
      SplitOfJoin(parts[1..]);
      SplitFirst(parts[0], Join(parts[1..]));
    }
  }

  /** The first cut of a text that has one. */
  lemma {:induction false} FirstCut(s: string, n: nat) returns (c: nat)
    requires n < |s| && IsCut(s, n)
    ensures c <= n && IsCut(s, c) && forall p | 0 <= p < c :: !IsCut(s, p)
  {
    if p: nat :| p < n && IsCut(s, p) {
      c := FirstCut(s, p);
    } else {
      c := n;
    }
  }

  /** A text with a cut begins with a complete first part. */
  lemma FirstPart(s: string) returns (x: string, y: string)
    requires !Atomic(s)
    ensures s == x + "/" + y && Atomic(x) && Balanced(x)
  {
    var n: nat :| n < |s| && IsCut(s, n);
    var c := FirstCut(s, n);
    x, y := s[..c], s[c + 1..];
    assert s == x + s[c..];
    forall p | 0 <= p < |x| ensures !IsCut(x, p) {
      AtPrefix(x, s[c..], p);
      assert s[p] == x[p] && !IsCut(s, p);
    }
    AtPrefix(x, s[c..], c);
  }

  lemma {:induction false} SplitIsProper(s: string)
    ensures ProperParts(Split(s)) && Join(Split(s)) == s
    decreases |s|
  {
    if Atomic(s) {
      SplitAtomic(s);
    } else {
      var x, y := FirstPart(s);
      SplitFirst(x, y);
      SplitIsProper(y);
      OneMorePart(x, Split(y));
    }
  }

  lemma OneMorePart(x: string, parts: seq<string>)
    requires Atomic(x) && Balanced(x) && ProperParts(parts)
    ensures ProperParts([x] + parts) && Join([x] + parts) == x + "/" + Join(parts)
  {
    assert ([x] + parts)[1..] == parts;
  }

  /** The split is the one and only way to cut the text at slashes into atomic parts of which all but
      the last are balanced; joining the parts gives the text back. */
  lemma SplitIsTheOnlyOne(s: string, parts: seq<string>)
    ensures parts == Split(s) <==> ProperParts(parts) && Join(parts) == s
  {
    SplitIsProper(s);
    if ProperParts(parts) {
      SplitOfJoin(parts);
    }
  }

  /** Splitting a part again changes nothing. */
  lemma PartsStayWhole(s: string, part: string)
    requires part in Split(s)
    ensures Split(part) == [part]
  {
    SplitIsProper(s);
    SplitAtomic(part);
  }

  lemma SplitAtFirstCut(p: string)
    ensures var parts := Split(p);
      && parts != [] && Atomic(parts[0])
      && if |parts| == 1 then p == parts[0] else p == parts[0] + "/" + Join(parts[1..]) && Balanced(parts[0])
  {
    SplitIsProper(p);
    JoinsAtFirst(Split(p));
  }

  lemma JoinsAtFirst(parts: seq<string>)
    requires parts != []
    ensures Join(parts) == if |parts| == 1 then parts[0] else parts[0] + "/" + Join(parts[1..])
  {
  }

  // Matching

  /** The expressions that were compiled; None stands for the nil matcher that lets everything pass. */
  datatype Matcher = Matcher(suite: Option<string>, test: Option<string>, pattern: string)

  function Insensitive(expr: string): string { "(?i:" + expr + ")" }

  /** `compiles` tells which expressions the regexp package accepts. The matcher is returned, and used
      by the simulator, also when there was an error. */
  function ParseTestPattern(p: string, compiles: string -> bool): (Matcher, bool) { MatcherOf(Split(p), p, compiles) }

  function MatcherOf(parts: seq<string>, p: string, compiles: string -> bool): (Matcher, bool)
    requires parts != []
  {
    var suite := Insensitive(parts[0]);
    if !compiles(suite) then (Matcher(None, None, ""), false)
    else if |parts| == 1 then (Matcher(Some(suite), None, p), true)
    else
      var test := Insensitive(Join(parts[1..]));
      if !compiles(test) then (Matcher(Some(suite), None, ""), false)
      else (Matcher(Some(suite), Some(test), p), true)
  }

  predicate Matches(m: Matcher, find: (string, string) -> bool, suite: string, test: string) {
    (m.suite.Some? ==> find(m.suite.value, suite)) && (test != "" && m.test.Some? ==> find(m.test.value, test))
  }

  /** A valid pattern is taken apart at its first cut and nowhere else: what is matched against suites
      and what is matched against tests make up the pattern. */
  lemma PatternIsCutOnce(p: string, compiles: string -> bool)
    requires ParseTestPattern(p, compiles).1
    ensures var m := ParseTestPattern(p, compiles).0; var x, y := Split(p)[0], Split(p)[1..];
      && m.pattern == p && Atomic(x) && m.suite == Some(Insensitive(x))
      && if m.test.Some? then m.test.value == Insensitive(Join(y)) && p == x + "/" + Join(y) && Balanced(x) else p == x
  {
    SplitAtFirstCut(p);
    assert ParseTestPattern(p, compiles) == MatcherOf(Split(p), p, compiles);
  }

  /** What a valid pattern lets through: suites in whose name its first part is found, and of their tests, if it has
      further parts, those in whose name these are found, both without regard to case. A suite as such is let
      through by the first part alone. */
  lemma ValidPatternFilters(p: string, compiles: string -> bool, find: (string, string) -> bool, suite: string, test: string)
    requires ParseTestPattern(p, compiles).1
    ensures var parts := Split(p);
      Matches(ParseTestPattern(p, compiles).0, find, suite, test) <==>
        find("(?i:" + parts[0] + ")", suite) && (|parts| > 1 && test != "" ==> find("(?i:" + Join(parts[1..]) + ")", test))
  {
    MatcherFilters(Split(p), p, compiles, find, suite, test);
  }

  lemma MatcherFilters(parts: seq<string>, p: string, compiles: string -> bool, find: (string, string) -> bool, suite: string, test: string)
    requires parts != [] && MatcherOf(parts, p, compiles).1
    ensures Matches(MatcherOf(parts, p, compiles).0, find, suite, test) <==>
        find("(?i:" + parts[0] + ")", suite) && (|parts| > 1 && test != "" ==> find("(?i:" + Join(parts[1..]) + ")", test))
  {
  }

  /** When only the test half is invalid, the pattern is reported as ignored, yet its suite half still
      decides which suites run; it is really ignored exactly when the suite half is the invalid one. */
  lemma InvalidPatternIgnoredExactly(p: string, compiles: string -> bool)
    requires !ParseTestPattern(p, compiles).1
    ensures var m := ParseTestPattern(p, compiles).0;
      (forall find, suite, test :: Matches(m, find, suite, test)) <==> !compiles(Insensitive(Split(p)[0]))
  {
    var m := ParseTestPattern(p, compiles).0;
    if compiles(Insensitive(Split(p)[0])) {
      assert !Matches(m, (e: string, s: string) => false, "", "");
    }
  }

  /** A pattern that is reported as ignored and still keeps suites from running. */
  lemma InvalidTestHalfStillFilters(compiles: string -> bool)
    requires compiles(Insensitive("a")) && !compiles(Insensitive("("))
    ensures !ParseTestPattern("a/(", compiles).1
    ensures !Matches(ParseTestPattern("a/(", compiles).0, (expr: string, suite: string) => suite == "a", "b", "")
  {
    assert At("a", 1) == Step(START, 'a') == START;
    assert At("(", 0) == START;
    SplitFirst("a", "(");
    SplitAtomic("(");
    assert "a" + "/" + "(" == "a/(";
  }
}
