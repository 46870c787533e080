/** The writer that puts a prefix in front of every line of container output
    (internal/libdocker/container.go). */
module LinePrefix {

  // The whole-text view

  /** The complete lines of a text, without their line ends, and the unfinished rest. */
  datatype Text = Text(lines: seq<string>, rest: string)

  function Lines(s: string): Text {
    if s == "" then Text([], "")
    else
      var before := Lines(s[..|s| - 1]);
      if s[|s| - 1] == '\n' then Text(before.lines + [before.rest], "")
      else before.(rest := before.rest + [s[|s| - 1]])
  }

  function Prefixed(prefix: string, lines: seq<string>): seq<string> {
    seq(|lines|, k requires 0 <= k < |lines| => prefix + lines[k] + "\n")
  }

  /** What the wrapped writer must have been given when all of `s` was written and the writer closed:
      one piece per line; a last line without line end gets one, unless it is empty. */
  function Rendered(prefix: string, s: string): seq<string> {
    Prefixed(prefix, Lines(s).lines + if Lines(s).rest == "" then [] else [Lines(s).rest])
  }

  // The streaming view: the buffer and the pieces passed on, byte by byte

  datatype Stream = Stream(buf: string, passed: seq<string>)

  function Feed(prefix: string, st: Stream, s: string): Stream {
    if s == "" then st
    else
      var before := Feed(prefix, st, s[..|s| - 1]);
      var b := s[|s| - 1];
      if b == '\n' then Stream(prefix, before.passed + [before.buf + "\n"])
      else before.(buf := before.buf + [b])
  }

  /** How a text is cut into Write calls makes no difference. */
  lemma {:induction false} FeedConcat(prefix: string, st: Stream, a: string, b: string)
    ensures Feed(prefix, st, a + b) == Feed(prefix, Feed(prefix, st, a), b)
  {
    if b == "" {
      assert a + b == a;
    } else {
      FeedConcat(prefix, st, a, b[..|b| - 1]);
      assert (a + b)[..|a + b| - 1] == a + b[..|b| - 1];
    }
  }

  function Joined(chunks: seq<string>): string {
    if chunks == [] then "" else Joined(chunks[..|chunks| - 1]) + chunks[|chunks| - 1]
  }

  function FeedAll(prefix: string, st: Stream, chunks: seq<string>): Stream {
    if chunks == [] then st
    else Feed(prefix, FeedAll(prefix, st, chunks[..|chunks| - 1]), chunks[|chunks| - 1])
  }

  lemma {:induction false} ChunksDoNotMatter(prefix: string, st: Stream, chunks: seq<string>)
    ensures FeedAll(prefix, st, chunks) == Feed(prefix, st, Joined(chunks))
  {
    if chunks != [] {
      ChunksDoNotMatter(prefix, st, chunks[..|chunks| - 1]);
      FeedConcat(prefix, st, Joined(chunks[..|chunks| - 1]), chunks[|chunks| - 1]);
    }
  }

  /** The streaming writer has passed on the prefixed complete lines and holds the rest of the text. */
  lemma {:induction false} FeedSplitsLines(prefix: string, s: string)
    ensures Feed(prefix, Stream(prefix, []), s) == Stream(prefix + Lines(s).rest, Prefixed(prefix, Lines(s).lines))
  {
    if s != "" {
      FeedSplitsLines(prefix, s[..|s| - 1]);
      var before := Lines(s[..|s| - 1]);
      if s[|s| - 1] == '\n' {
        assert Prefixed(prefix, before.lines + [before.rest])
            == Prefixed(prefix, before.lines) + [prefix + before.rest + "\n"];
      } else {
        assert prefix + before.rest + [s[|s| - 1]] == prefix + (before.rest + [s[|s| - 1]]);
      }
    } else {
      assert prefix + "" == prefix;
    }
  }

  function Flushed(prefix: string, st: Stream): seq<string> {
    st.passed + if |st.buf| > |prefix| then [st.buf + "\n"] else []
  }

  lemma CloseRenders(prefix: string, s: string)
    ensures Flushed(prefix, Feed(prefix, Stream(prefix, []), s)) == Rendered(prefix, s)
  {
    FeedSplitsLines(prefix, s);
    var t := Lines(s);
    if t.rest != "" {
      assert Prefixed(prefix, t.lines + [t.rest]) == Prefixed(prefix, t.lines) + [prefix + t.rest + "\n"];
    } else {
      assert t.lines + [] == t.lines;
    }
  }

  /** Any way of cutting the input into Write calls gives the same output in the end. */
  lemma OutputDependsOnTextOnly(prefix: string, chunks: seq<string>)
    ensures Flushed(prefix, FeedAll(prefix, Stream(prefix, []), chunks)) == Rendered(prefix, Joined(chunks))
  {
    ChunksDoNotMatter(prefix, Stream(prefix, []), chunks);
    CloseRenders(prefix, Joined(chunks));
  }

  // Reading the output back

  /** Drops `n` bytes from the start of every line of a text. */
  function Strip(n: nat, s: string): string {
    if |s| <= n then ""
    else
      var end := LineEnd(s, n);
      s[n..end] + if end < |s| then Strip(n, s[end..]) else ""
  }

  /** The position just after the first line end at or after `k`, or the end of the text. */
  function LineEnd(s: string, k: nat): (end: nat)
    requires k <= |s|
    ensures k <= end <= |s| && (k < |s| ==> k < end)
    decreases |s| - k
  {
    if k == |s| then k else if s[k] == '\n' then k + 1 else LineEnd(s, k + 1)
  }

  lemma {:induction false} LineEndAfter(s: string, k: nat, line: string, rest: string)
    requires k <= |s| && s[k..] == line + "\n" + rest && '\n' !in line
    ensures LineEnd(s, k) == k + |line| + 1
    decreases |line|
  {
    assert s[k] == s[k..][0];
    if line != "" {
      assert s[k] == line[0] && line[0] in line;
      assert s[k + 1..] == s[k..][1..] == line[1..] + "\n" + rest;
      LineEndAfter(s, k + 1, line[1..], rest);
    }
  }

  function Unlines(lines: seq<string>): string {
    if lines == [] then "" else lines[0] + "\n" + Unlines(lines[1..])
  }

  lemma {:induction false} StripPrefixed(prefix: string, lines: seq<string>)
    requires forall line | line in lines :: '\n' !in line
    ensures Strip(|prefix|, Concat(Prefixed(prefix, lines))) == Unlines(lines)
  {
    if lines != [] {
      var out := Concat(Prefixed(prefix, lines));
      var rest := Concat(Prefixed(prefix, lines[1..]));
      assert Prefixed(prefix, lines)[1..] == Prefixed(prefix, lines[1..]);
      assert out == prefix + lines[0] + "\n" + rest;
      assert out[|prefix|..] == lines[0] + "\n" + rest;
      LineEndAfter(out, |prefix|, lines[0], rest);
      assert out[|prefix|..|prefix| + |lines[0]| + 1] == lines[0] + "\n";
      assert out[|prefix| + |lines[0]| + 1..] == rest;
      StripPrefixed(prefix, lines[1..]);
    }
  }

  function Concat(pieces: seq<string>): string {
    if pieces == [] then "" else pieces[0] + Concat(pieces[1..])
  }

  lemma {:induction false} LinesRebuildText(s: string)
    ensures Unlines(Lines(s).lines) + Lines(s).rest == s
    ensures '\n' !in Lines(s).rest && forall line | line in Lines(s).lines :: '\n' !in line
  {
    if s != "" {
      LinesRebuildText(s[..|s| - 1]);
      var before := Lines(s[..|s| - 1]);
      assert s == s[..|s| - 1] + [s[|s| - 1]];
      if s[|s| - 1] == '\n' {
        UnlinesSnoc(before.lines, before.rest);
      }
    }
  }

  lemma {:induction false} UnlinesSnoc(lines: seq<string>, line: string)
    ensures Unlines(lines + [line]) == Unlines(lines) + line + "\n"
  {
    if lines == [] {
      assert (lines + [line])[1..] == [];
    } else {
      UnlinesSnoc(lines[1..], line);
      assert (lines + [line])[1..] == lines[1..] + [line];
    }
  }

  /** Taking the prefixes off the output gives the input back, with a line end added when the last
      line had none. This holds for every prefix, even one that contains line ends. */
  lemma StripRecoversInput(prefix: string, s: string)
    ensures Strip(|prefix|, Concat(Rendered(prefix, s))) == s + if s == "" || s[|s| - 1] == '\n' then "" else "\n"
  {
    var t := Lines(s);
    LinesRebuildText(s);
    if t.rest == "" {
      assert t.lines + [] == t.lines;
      StripPrefixed(prefix, t.lines);
    } else {
      StripPrefixed(prefix, t.lines + [t.rest]);
      UnlinesSnoc(t.lines, t.rest);
    }
  }

  /** Every piece of the output is one line: the prefix, then text without line ends, then a line end. */
  lemma PiecesAreLines(prefix: string, s: string, k: nat)
    requires k < |Rendered(prefix, s)|
    ensures var piece := Rendered(prefix, s)[k];
      && prefix <= piece && |piece| > |prefix| && piece[|piece| - 1] == '\n'
      && '\n' !in piece[|prefix|..|piece| - 1]
  {
    LinesRebuildText(s);
    var lines := Lines(s).lines + if Lines(s).rest == "" then [] else [Lines(s).rest];
    var piece := Rendered(prefix, s)[k];
    assert piece == prefix + lines[k] + "\n" && lines[k] in lines;
    assert piece[|prefix|..|piece| - 1] == lines[k];
  }

  // The program

  /** A wrapped writer that records what it was given; write number k fails when `fails(k)`. */
  class Sink {
    const fails: nat -> bool
    var pieces: seq<string>

    constructor (fails: nat -> bool)
      ensures pieces == [] && this.fails == fails
    {
      this.fails, pieces := fails, [];
    }

    method Write(piece: string) returns (err: bool)
      modifies this
      ensures pieces == old(pieces) + [piece] && err == fails(|old(pieces)|)
    {
      err := fails(|pieces|);
      pieces := pieces + [piece];
    }
  }

  class LinePrefixWriter {
    const w: Sink
    const prefix: string
    var buf: string

    constructor (w: Sink, prefix: string)
      ensures this.w == w && this.prefix == prefix && buf == prefix
    {
      this.w, this.prefix, buf := w, prefix, prefix;
    }

    ghost function State(): Stream
      reads this, w
    {
      Stream(buf, w.pieces)
    }

    /** All bytes count as written whatever happens. An error is that of the last line flushed by
        this call; errors of the lines before it are lost. */
    method Write(bytes: string) returns (n: nat, err: bool)
      modifies this, w
      ensures State() == Feed(prefix, old(State()), bytes) && n == |bytes|
      ensures err <==> |w.pieces| > |old(w.pieces)| && w.fails(|w.pieces| - 1)
    {
      err := false;
      var k := 0;
      while k < |bytes|
        invariant k <= |bytes| && State() == Feed(prefix, old(State()), bytes[..k])
        invariant |old(w.pieces)| <= |w.pieces|
        invariant err <==> |w.pieces| > |old(w.pieces)| && w.fails(|w.pieces| - 1)
      {
        assert bytes[..k + 1][..k] == bytes[..k];
        if bytes[k] == '\n' {
          err := w.Write(buf + "\n");
          buf := prefix;
        } else {
          buf := buf + [bytes[k]];
        }
        k := k + 1;
      }
      assert bytes[..|bytes|] == bytes;
      n := |bytes|;
    }

    /** Flushes the last line unless it is empty. */
    method Close() returns (err: bool)
      modifies this, w
      ensures w.pieces == Flushed(prefix, old(State())) && buf == ""
      ensures err <==> |w.pieces| > |old(w.pieces)| && w.fails(|old(w.pieces)|)
    {
      err := false;
      if |buf| > |prefix| {
        err := w.Write(buf + "\n");
      }
      buf := "";
    }
  }
}
