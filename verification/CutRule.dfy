/** Where a test pattern is cut, told without the scan: by backslashes, open classes and groups
    (xrplsim/testmatch.go). */
module CutRule {
  import opened TestMatch
  import Text

  /** The number of backslashes directly before position `p`. */
  function Backslashes(s: string, p: nat): nat
    requires p <= |s|
  {
    if p > 0 && s[p - 1] == '\\' then 1 + Backslashes(s, p - 1) else 0
  }

  predicate Escaped(s: string, p: nat)
    requires p <= |s|
  {
    Backslashes(s, p) % 2 == 1
  }

  /** How often `c` occurs unescaped from position `q` up to `p`. */
  function Count(s: string, c: char, q: nat, p: nat): nat
    requires q <= p <= |s|
    decreases p
  {
    if q == p then 0 else Count(s, c, q, p - 1) + if s[p - 1] == c && !Escaped(s, p - 1) then 1 else 0
  }

  /** Position `p` is inside a character class: from some place on more are opened than closed. */
  ghost predicate InClass(s: string, p: nat)
    requires p <= |s|
  {
    exists q: nat :: q < p && Count(s, '[', q, p) > Count(s, ']', q, p)
  }

  /** How often `c` occurs from position `q` up to `p`, unescaped and outside classes. */
  ghost function CountOutside(s: string, c: char, q: nat, p: nat): nat
    requires q <= p <= |s|
    decreases p
  {
    if q == p then 0 else CountOutside(s, c, q, p - 1) + if s[p - 1] == c && !Escaped(s, p - 1) && !InClass(s, p - 1) then 1 else 0
  }

  // The scan agrees

  lemma {:induction false} ScanEscapes(s: string, p: nat)
    requires p <= |s|
    ensures At(s, p).escaped <==> Escaped(s, p)
  {
    if p > 0 {
      ScanEscapes(s, p - 1);
    }
  }

  function Excess(s: string, q: nat, p: nat): int
    requires q <= p <= |s|
  {
    Count(s, '[', q, p) - Count(s, ']', q, p)
  }

  /** The bracket count of the scan is the largest excess of opened over closed ones from any place on. */
  lemma {:induction false} ScanCountsClasses(s: string, p: nat)
    requires p <= |s|
    ensures forall q: nat | q <= p :: Excess(s, q, p) <= At(s, p).cs
    ensures exists q: nat :: q <= p && Excess(s, q, p) == At(s, p).cs
  {
    if p == 0 {
      assert Excess(s, 0, 0) == 0;
    } else {
      ScanCountsClasses(s, p - 1);
      ScanEscapes(s, p - 1);
      var q: nat :| q <= p - 1 && Excess(s, q, p - 1) == At(s, p - 1).cs;
      assert forall r: nat | r < p :: Excess(s, r, p) == Excess(s, r, p - 1) + Change(s, p - 1);
      assert Excess(s, p, p) == 0;
      assert Excess(s, q, p) == At(s, p).cs || Excess(s, p, p) == At(s, p).cs;
    }
  }

  function Change(s: string, p: nat): int
    requires p < |s|
  {
    if Escaped(s, p) then 0 else if s[p] == '[' then 1 else if s[p] == ']' then -1 else 0
  }

  lemma ClassesAgree(s: string, p: nat)
    requires p <= |s|
    ensures At(s, p).cs > 0 <==> InClass(s, p)
  {
    ScanCountsClasses(s, p);
    assert Excess(s, p, p) == 0;
    if At(s, p).cs > 0 {
      var q: nat :| q <= p && Excess(s, q, p) == At(s, p).cs;
      assert q < p;
    }
    if InClass(s, p) {
      var q: nat :| q < p && Count(s, '[', q, p) > Count(s, ']', q, p);
      assert Excess(s, q, p) > 0;
    }
  }

  lemma {:induction false} ScanCountsGroups(s: string, p: nat)
    requires p <= |s|
    ensures At(s, p).cp == CountOutside(s, '(', 0, p) - CountOutside(s, ')', 0, p)
  {
    if p > 0 {
      ScanCountsGroups(s, p - 1);
      ScanEscapes(s, p - 1);
      ClassesAgree(s, p - 1);
    }
  }

  /** A position is a cut exactly if it holds a slash that is not escaped, is in no class, and has as many groups
      opened as closed before it. */
  lemma CutExactly(s: string, p: nat)
    requires p < |s|
    ensures IsCut(s, p) <==>
      s[p] == '/' && !Escaped(s, p) && !InClass(s, p) && CountOutside(s, '(', 0, p) == CountOutside(s, ')', 0, p)
  {
    ScanEscapes(s, p);
    ClassesAgree(s, p);
    ScanCountsGroups(s, p);
  }

  lemma {:induction false} CountOutsideAdds(s: string, c: char, b: nat, p: nat)
    requires b <= p <= |s|
    ensures CountOutside(s, c, 0, p) == CountOutside(s, c, 0, b) + CountOutside(s, c, b, p)
    decreases p
  {
    if b < p {
      CountOutsideAdds(s, c, b, p - 1);
    }
  }

  lemma {:induction false} PartBeginsAtCut(s: string, p: nat)
    requires p <= |s|
    ensures var b := PartStart(s, p); b == 0 || IsCut(s, b - 1)
  {
    if p > 0 && !IsCut(s, p - 1) {
      PartBeginsAtCut(s, p - 1);
    }
  }

  /** Only the groups of the part that the position lies in matter. */
  lemma CutInPartExactly(s: string, p: nat)
    requires p < |s|
    ensures var b := PartStart(s, p);
      IsCut(s, p) <==>
        s[p] == '/' && !Escaped(s, p) && !InClass(s, p) && CountOutside(s, '(', b, p) == CountOutside(s, ')', b, p)
  {
    var b := PartStart(s, p);
    PartBeginsAtCut(s, p);
    CutExactly(s, p);
    CountOutsideAdds(s, '(', b, p);
    CountOutsideAdds(s, ')', b, p);
    if b > 0 {
      CutExactly(s, b - 1);
      assert CountOutside(s, '(', 0, b) == CountOutside(s, '(', 0, b - 1) && CountOutside(s, ')', 0, b) == CountOutside(s, ')', 0, b - 1);
    }
  }

  lemma {:induction false} NoneCounted(s: string, c: char, q: nat, p: nat)
    requires q <= p <= |s| && forall k | q <= k < p :: s[k] != c || Escaped(s, k)
    ensures Count(s, c, q, p) == 0
    decreases p
  {
    if q < p {
      NoneCounted(s, c, q, p - 1);
    }
  }

  lemma {:induction false} OneCounted(s: string, c: char, q: nat, p: nat)
    requires q < p <= |s| && s[q] == c && !Escaped(s, q)
    ensures Count(s, c, q, p) > 0
    decreases p
  {
    if q < p - 1 {
      OneCounted(s, c, q, p - 1);
    }
  }

  /** Nothing is cut behind an opened class that was not closed since. */
  lemma OpenClassHides(s: string, q: nat, p: nat)
    requires q < p < |s| && s[q] == '[' && !Escaped(s, q)
    requires forall k | q < k < p :: s[k] != ']' || Escaped(s, k)
    ensures InClass(s, p) && !IsCut(s, p)
  {
    OneCounted(s, '[', q, p);
    NoneCounted(s, ']', q, p);
    CutExactly(s, p);
  }

  /** An escaped slash is never a cut. */
  lemma EscapeHides(s: string, p: nat)
    requires p < |s| && Backslashes(s, p) % 2 == 1
    ensures !IsCut(s, p)
  {
    CutExactly(s, p);
  }

  lemma EscapedSlashKept()
    ensures Split("a\\/b") == ["a\\/b"]
  {
    var s := "a\\/b";
    assert Backslashes(s, 1) == 0 && Backslashes(s, 2) == 1;
    forall p | 0 <= p < |s| ensures !IsCut(s, p) {
      if p == 2 { EscapeHides(s, p); }
    }
    SplitAtomic(s);
  }

  // Texts without brackets and backslashes

  predicate Plain(s: string) { forall k | 0 <= k < |s| :: s[k] !in {'[', ']', '(', ')', '\\'} }

  lemma {:induction false} PlainScan(s: string, p: nat)
    requires Plain(s) && p <= |s|
    ensures At(s, p) == START
  {
    if p > 0 {
      PlainScan(s, p - 1);
      assert s[p - 1] !in {'[', ']', '(', ')', '\\'};
    }
  }

  /** The parts before a position together with the one it lies in. */
  function PartsUpTo(s: string, p: nat): seq<string>
    requires p <= |s|
  {
    PartsBefore(s, p) + [s[PartStart(s, p)..p]]
  }

  lemma PartsFurther(s: string, p: nat)
    requires p < |s|
    ensures PartsUpTo(s, p + 1) == if IsCut(s, p) then PartsUpTo(s, p) + [""]
      else PartsBefore(s, p) + [s[PartStart(s, p)..p] + [s[p]]]
  {
    if IsCut(s, p) {
      assert s[p + 1..p + 1] == "";
    } else {
      assert s[PartStart(s, p)..p + 1] == s[PartStart(s, p)..p] + [s[p]];
    }
  }

  lemma {:induction false} PlainParts(s: string, p: nat)
    requires Plain(s) && p <= |s|
    ensures PartsUpTo(s, p) == Text.SplitOn(s[..p], '/')
  {
    if p > 0 {
      PlainParts(s, p - 1);
      PlainScan(s, p - 1);
      PartsFurther(s, p - 1);
      SplitFurther(s, p - 1);
    }
  }

  lemma SplitFurther(s: string, p: nat)
    requires p < |s|
    ensures var before, after := Text.SplitOn(s[..p], '/'), Text.SplitOn(s[..p + 1], '/');
      after == if s[p] == '/' then before + [""] else before[|before| - 1 := before[|before| - 1] + [s[p]]]
  {
    assert s[..p + 1][..p] == s[..p];
  }

  /** They are cut at every slash. */
  lemma PlainSplit(s: string)
    requires Plain(s)
    ensures Split(s) == Text.SplitOn(s, '/')
  {
    PlainParts(s, |s|);
    assert s[..|s|] == s && s[PartStart(s, |s|)..|s|] == s[PartStart(s, |s|)..];
  }
}
