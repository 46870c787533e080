/** Decimal numerals and the splitting and ordering of strings, as the Go library does them. */
module Text {
  function Digit(d: nat): char
    requires d < 10
  {
    '0' + d as char
  }

  predicate IsDigit(c: char) { '0' <= c <= '9' }

  predicate AllDigits(s: string) { forall k :: 0 <= k < |s| ==> IsDigit(s[k]) }

  /** The decimal numeral printed by the verb %d for a non-negative number. */
  function Decimal(n: nat): (s: string)
    ensures |s| > 0 && AllDigits(s)
  {
    if n < 10 then [Digit(n)] else Decimal(n / 10) + [Digit(n % 10)]
  }

  /** The number denoted by a numeral. */
  function Value(s: string): nat
    requires AllDigits(s)
  {
    if s == "" then 0 else Value(s[..|s| - 1]) * 10 + (s[|s| - 1] - '0') as nat
  }

  lemma {:induction false} DecimalRoundTrip(n: nat)
    ensures Value(Decimal(n)) == n
  {
    var s := Decimal(n);
    if n >= 10 {
      DecimalRoundTrip(n / 10);
      assert s[..|s| - 1] == Decimal(n / 10);
    } else {
      assert s[..0] == "";
    }
  }

  /** A text up to the first occurrence of a separator, and what follows it, can be read back. */
  lemma FirstSeparatorSplits(x: string, a: string, y: string, b: string, c: char)
    requires c !in x && c !in y
    requires x + [c] + a == y + [c] + b
    ensures x == y && a == b
  {
    var s := x + [c] + a;
    assert s == y + [c] + b;
    assert s[|x|] == c && s[|y|] == c;
    assert forall k | 0 <= k < |x| :: s[k] == x[k] && x[k] in x;
    assert forall k | 0 <= k < |y| :: s[k] == y[k] && y[k] in y;
    assert x == s[..|x|] && y == s[..|y|];
    assert a == s[|x| + 1..] && b == s[|y| + 1..];
  }

  /** In a text with a separator-free end the last separator is where the end begins. */
  lemma LastSeparator(a: string, x: string, sep: char, k: nat)
    requires sep !in x && k < |a + [sep] + x| && (a + [sep] + x)[k] == sep
    ensures k <= |a|
  {
    var s := a + [sep] + x;
    assert forall j | |a| < j < |s| :: s[j] == x[j - |a| - 1] && x[j - |a| - 1] in x;
  }

  lemma LastSeparatorSplits(a: string, x: string, b: string, y: string, sep: char)
    requires sep !in x && sep !in y && a + [sep] + x == b + [sep] + y
    ensures a == b && x == y
  {
    var s, t := a + [sep] + x, b + [sep] + y;
    assert s[|a|] == sep && t[|b|] == sep;
    LastSeparator(a, x, sep, |b|);
    LastSeparator(b, y, sep, |a|);
    assert a == s[..|a|] && b == t[..|b|];
    assert x == s[|a| + 1..] && y == t[|b| + 1..];
  }

  lemma DecimalInjective(m: nat, n: nat)
    requires Decimal(m) == Decimal(n)
    ensures m == n
  {
    DecimalRoundTrip(m);
    DecimalRoundTrip(n);
  }

  // Splitting and joining

  function JoinWith(parts: seq<string>, sep: char): string {
    if parts == [] then ""
    else if |parts| == 1 then parts[0]
    else JoinWith(parts[..|parts| - 1], sep) + [sep] + parts[|parts| - 1]
  }

  function SplitOn(s: string, sep: char): (parts: seq<string>)
    ensures parts != []
  {
    if s == "" then [""]
    else
      var before, c := SplitOn(s[..|s| - 1], sep), s[|s| - 1];
      if c == sep then before + [""] else before[|before| - 1 := before[|before| - 1] + [c]]
  }

  /** The pieces rejoin to the text and do not contain the separator. */
  lemma {:induction false} SplitRejoins(s: string, sep: char)
    ensures JoinWith(SplitOn(s, sep), sep) == s
    ensures forall part | part in SplitOn(s, sep) :: sep !in part
    ensures sep !in s ==> SplitOn(s, sep) == [s]
    ensures sep in s ==> |SplitOn(s, sep)| > 1
  {
    if s != "" {
      SplitRejoins(s[..|s| - 1], sep);
      var before, c := SplitOn(s[..|s| - 1], sep), s[|s| - 1];
      assert s == s[..|s| - 1] + [c];
      if c == sep {
        assert (before + [""])[..|before|] == before;
      } else {
        var parts := before[|before| - 1 := before[|before| - 1] + [c]];
        assert parts[..|parts| - 1] == before[..|before| - 1];
      }
    }
  }

  // The order of strings

  predicate LessEq(a: string, b: string) {
    a == "" || (b != "" && (a[0] < b[0] || (a[0] == b[0] && LessEq(a[1..], b[1..]))))
  }

  lemma {:induction false} LessEqTotal(a: string, b: string)
    ensures LessEq(a, b) || LessEq(b, a)
    ensures LessEq(a, b) && LessEq(b, a) ==> a == b
  {
    if a != "" && b != "" {
      LessEqTotal(a[1..], b[1..]);
      assert a == [a[0]] + a[1..] && b == [b[0]] + b[1..];
    }
  }

  lemma {:induction false} LessEqTransitive(a: string, b: string, c: string)
    requires LessEq(a, b) && LessEq(b, c)
    ensures LessEq(a, c)
  {
    if a != "" && a[0] == b[0] == c[0] {
      LessEqTransitive(a[1..], b[1..], c[1..]);
    }
  }

  /** The order is that of dictionaries: by prefix, or by the first character that differs. */
  lemma {:induction false} LessEqExactly(a: string, b: string)
    ensures LessEq(a, b) <==> a <= b || exists k :: 0 <= k < |a| && k < |b| && a[..k] == b[..k] && a[k] < b[k]
  {
    if a != "" && b != "" && a[0] == b[0] {
      LessEqExactly(a[1..], b[1..]);
      assert a == [a[0]] + a[1..] && b == [b[0]] + b[1..];
      if k :| 0 <= k < |a[1..]| && k < |b[1..]| && a[1..][..k] == b[1..][..k] && a[1..][k] < b[1..][k] {
        assert a[..k + 1] == [a[0]] + a[1..][..k] && b[..k + 1] == [b[0]] + b[1..][..k];
        assert a[k + 1] < b[k + 1];
      }
      if k :| 0 <= k < |a| && k < |b| && a[..k] == b[..k] && a[k] < b[k] {
        assert k > 0;
        assert a[1..][..k - 1] == a[..k][1..] && b[1..][..k - 1] == b[..k][1..];
        assert a[1..][k - 1] < b[1..][k - 1];
      }
    } else if a != "" && b != "" && a[0] < b[0] {
      assert a[..0] == b[..0];
    } else if a != "" && b != "" {
      assert forall k | 0 < k < |a| && k < |b| :: a[..k][0] != b[..k][0];
    }
  }

  lemma {:induction false} LessEqLast(a: string, c: char, b: string, d: char)
    requires |a| == |b| && LessEq(a, b) && (a == b ==> c <= d)
    ensures LessEq(a + [c], b + [d])
  {
    if a != "" {
      var s, t := a + [c], b + [d];
      assert s[1..] == a[1..] + [c] && t[1..] == b[1..] + [d];
      if a[0] == b[0] {
        assert a == [a[0]] + a[1..] && b == [b[0]] + b[1..];
        LessEqLast(a[1..], c, b[1..], d);
      }
    }
  }

  /** Numerals of the same length are ordered as the numbers are. */
  lemma {:induction false} DecimalOrder(m: nat, n: nat)
    requires m <= n && |Decimal(m)| == |Decimal(n)|
    ensures LessEq(Decimal(m), Decimal(n))
  {
    if n >= 10 {
      assert m >= 10;
      DecimalOrder(m / 10, n / 10);
      if Decimal(m / 10) == Decimal(n / 10) { DecimalInjective(m / 10, n / 10); }
      LessEqLast(Decimal(m / 10), Digit(m % 10), Decimal(n / 10), Digit(n % 10));
    }
  }

  lemma {:induction false} LeastExists(s: set<string>) returns (k: string)
    requires s != {}
    ensures k in s && forall x | x in s :: LessEq(k, x)
    decreases |s|
  {
    k :| k in s;
    var rest := s - {k};
    LessEqTotal(k, k);
    if rest != {} {
      var m := LeastExists(rest);
      LessEqTotal(k, m);
      if LessEq(m, k) {
        k := m;
      } else {
        forall x | x in rest ensures LessEq(k, x) { LessEqTransitive(k, m, x); }
      }
    }
  }

  lemma LeastIsUnique(s: set<string>)
    requires s != {}
    ensures exists k :: k in s && forall x | x in s :: LessEq(k, x)
    ensures forall x, y :: LessEq(x, y) && LessEq(y, x) ==> x == y
  {
    var m := LeastExists(s);
    forall x, y | LessEq(x, y) && LessEq(y, x) ensures x == y { LessEqTotal(x, y); }
  }

  function Least(s: set<string>): (k: string)
    requires s != {}
    ensures k in s && forall x | x in s :: LessEq(k, x)
  {
    LeastIsUnique(s);
    var k :| k in s && forall x | x in s :: LessEq(k, x);
    k
  }

  /** The elements of a set of strings in ascending order. */
  function Sorted(s: set<string>): (r: seq<string>)
    ensures forall x :: x in r <==> x in s
    decreases |s|
  {
    if s == {} then [] else [Least(s)] + Sorted(s - {Least(s)})
  }

  lemma {:induction false} SortedIsSorted(s: set<string>)
    ensures forall i, j | 0 <= i < j < |Sorted(s)| :: LessEq(Sorted(s)[i], Sorted(s)[j]) && Sorted(s)[i] != Sorted(s)[j]
    decreases |s|
  {
    if s != {} {
      var k, rest := Least(s), Sorted(s - {Least(s)});
      SortedIsSorted(s - {k});
      forall j | 0 <= j < |rest| ensures LessEq(k, rest[j]) && rest[j] != k {
        assert rest[j] in s - {k};
      }
    }
  }

  /** Strictly ascending: no text occurs twice. */
  ghost predicate Ascending(names: seq<string>) {
    forall j, k | 0 <= j < k < |names| :: LessEq(names[j], names[k]) && names[j] != names[k]
  }

  lemma SortedIsAscending(s: set<string>)
    ensures Ascending(Sorted(s))
  {
    SortedIsSorted(s);
  }

  lemma {:induction false} AscendingUnique(a: seq<string>, b: seq<string>)
    requires Ascending(a) && Ascending(b) && forall x :: x in a <==> x in b
    ensures a == b
  {
    SameMembersEmpty(a, b);
    if a != [] {
      assert a[0] in a && b[0] in b;
      LeastFirst(a, b[0]);
      LeastFirst(b, a[0]);
      LessEqTotal(a[0], b[0]);
      forall x ensures x in a[1..] <==> x in b[1..] {
        TailMembers(a, x);
        TailMembers(b, x);
      }
      AscendingUnique(a[1..], b[1..]);
      assert a == [a[0]] + a[1..] && b == [b[0]] + b[1..];
    }
  }

  lemma SameMembersEmpty(a: seq<string>, b: seq<string>)
    requires forall x :: x in a <==> x in b
    ensures a == [] <==> b == []
  {
    assert a != [] ==> a[0] in a;
    assert b != [] ==> b[0] in b;
  }

  lemma LeastFirst(a: seq<string>, x: string)
    requires Ascending(a) && x in a
    ensures LessEq(a[0], x)
  {
    LessEqTotal(x, x);
  }

  lemma TailMembers(a: seq<string>, x: string)
    requires Ascending(a) && a != []
    ensures x in a[1..] <==> x in a && x != a[0]
  {
    assert a == [a[0]] + a[1..];
  }

  /** Adding a text to a set puts it in at one place of the ascending order. */
  lemma SortedWith(s: set<string>, x: string) returns (before: seq<string>, after: seq<string>)
    requires x !in s
    ensures Sorted(s) == before + after && Sorted(s + {x}) == before + [x] + after && x !in before + after
  {
    var all := Sorted(s + {x});
    SortedIsAscending(s + {x});
    SortedIsAscending(s);
    var i :| 0 <= i < |all| && all[i] == x;
    before, after := all[..i], all[i + 1..];
    assert all == before + [x] + after;
    WithoutOne(before, x, after);
    AscendingUnique(before + after, Sorted(s));
  }

  lemma WithoutOne(before: seq<string>, x: string, after: seq<string>)
    requires Ascending(before + [x] + after)
    ensures Ascending(before + after) && x !in before + after
    ensures forall y :: y in before + after <==> y in before + [x] + after && y != x
  {
    var all, rest := before + [x] + after, before + after;
    forall j | 0 <= j < |rest| ensures rest[j] == all[if j < |before| then j else j + 1] && rest[j] != x {
      assert all[|before|] == x;
    }
    forall j, k | 0 <= j < k < |rest| ensures LessEq(rest[j], rest[k]) && rest[j] != rest[k] {}
  }
}
