/** Fenced blocks counted before they are written, and code spans (go/descriptor_render.go). */
module Fence {
  import opened Wrappers
  import opened Utf8

  const TICK: Byte := 0x60
  const NEWLINE: Byte := 0x0A
  const SPACE: Byte := 0x20

  /* ---------- Runs of backticks ---------- */

  /** The length of the run of backticks the text ends with. */
  function EndRun(s: Bytes): (n: nat)
    ensures n <= |s|
  {
    if s == [] || s[|s| - 1] != TICK then 0 else EndRun(s[..|s| - 1]) + 1
  }

  function Max(a: nat, b: nat): nat { if a < b then b else a }

  function LongestRun(s: Bytes): nat { if s == [] then 0 else Max(LongestRun(s[..|s| - 1]), EndRun(s)) }

  function Ticks(n: nat): (s: Bytes)
    ensures |s| == n && forall i :: 0 <= i < n ==> s[i] == TICK
  {
    if n == 0 then [] else Ticks(n - 1) + [TICK]
  }

  predicate AllTicks(s: Bytes, i: nat, n: nat) { i + n <= |s| && forall k :: i <= k < i + n ==> s[k] == TICK }

  lemma {:induction false} EndRunIsRun(s: Bytes)
    ensures AllTicks(s, |s| - EndRun(s), EndRun(s))
  {
    if s != [] && s[|s| - 1] == TICK { EndRunIsRun(s[..|s| - 1]); }
  }

  lemma {:induction false} EndRunIsLongest(s: Bytes, n: nat)
    requires n <= |s| && AllTicks(s, |s| - n, n)
    ensures n <= EndRun(s)
  {
    if n > 0 {
      var front := s[..|s| - 1];
      assert forall k :: |s| - n <= k < |s| - 1 ==> front[k] == s[k];
      EndRunIsLongest(front, n - 1);
    }
  }

  /** No run in the text is longer, and there is one as long. */
  lemma {:induction false} LongestRunIsLongest(s: Bytes, i: nat, n: nat)
    requires AllTicks(s, i, n)
    ensures n <= LongestRun(s)
    decreases |s|
  {
    if s != [] && n > 0 {
      var front := s[..|s| - 1];
      if i + n == |s| {
        EndRunIsLongest(s, n);
      } else {
        assert forall k :: i <= k < i + n ==> front[k] == s[k];
        LongestRunIsLongest(front, i, n);
      }
    }
  }

  lemma {:induction false} LongestRunIsThere(s: Bytes) returns (i: nat)
    ensures AllTicks(s, i, LongestRun(s))
  {
    i := 0;
    if s != [] {
      var front := s[..|s| - 1];
      if LongestRun(front) < EndRun(s) {
        EndRunIsRun(s);
        i := |s| - EndRun(s);
      } else {
        i := LongestRunIsThere(front);
        assert forall k :: i <= k < i + LongestRun(front) ==> front[k] == s[k];
      }
    }
  }

  lemma OneMore(s: Bytes, c: Byte)
    ensures EndRun(s + [c]) == if c == TICK then EndRun(s) + 1 else 0
    ensures LongestRun(s + [c]) == Max(LongestRun(s), EndRun(s + [c]))
  {
    assert (s + [c])[..|s + [c]| - 1] == s;
  }

  method LongestRunOf(s: Bytes) returns (longest: nat)
    ensures longest == LongestRun(s)
  {
    longest := 0;
    var run := 0;
    for i := 0 to |s|
      invariant run == EndRun(s[..i]) && longest == LongestRun(s[..i])
    {
      assert s[..i + 1] == s[..i] + [s[i]];
      OneMore(s[..i], s[i]);
      if s[i] == TICK {
        run := run + 1;
        longest := Max(longest, run);
      } else {
        run := 0;
      }
    }
    assert s[..|s|] == s;
  }

  /* ---------- The body of a block ---------- */

  /** What a feed does with a block writer: it begins an item, hands over a part of one, or asks
      whether the count has passed the limit and stops if so. */
  datatype Feed = Item | Part(bytes: Bytes) | Ask

  /** A text's lines after its first, indented by two spaces. */
  function Indented(s: Bytes): (r: Bytes)
    ensures |r| >= |s|
  {
    if s == [] then []
    else Indented(s[..|s| - 1]) + [s[|s| - 1]] + if s[|s| - 1] == NEWLINE then [SPACE, SPACE] else []
  }

  /** What indenting added, taken away again: two bytes after each line feed. */
  function Unindented(t: Bytes): Bytes
    decreases |t|
  {
    if t == [] then []
    else if t[0] == NEWLINE && |t| >= 3 then [NEWLINE] + Unindented(t[3..])
    else [t[0]] + Unindented(t[1..])
  }

  lemma {:induction false} IndentedJoin(a: Bytes, b: Bytes)
    ensures Indented(a + b) == Indented(a) + Indented(b)
  {
    if b == [] {
      assert a + b == a;
    } else {
      assert (a + b)[..|a + b| - 1] == a + b[..|b| - 1];
      IndentedJoin(a, b[..|b| - 1]);
    }
  }

  lemma IndentedFirst(s: Bytes)
    requires s != []
    ensures Indented(s) == (if s[0] == NEWLINE then [NEWLINE, SPACE, SPACE] else [s[0]]) + Indented(s[1..])
  {
    assert s == [s[0]] + s[1..] && [s[0]][..0] == [];
    IndentedJoin([s[0]], s[1..]);
  }

  /** Every line feed is followed by two spaces, and exactly those two were put in. */
  lemma {:induction false} IndentedByTwo(s: Bytes)
    ensures Unindented(Indented(s)) == s
    ensures forall i :: 0 <= i < |Indented(s)| && Indented(s)[i] == NEWLINE ==>
      i + 2 < |Indented(s)| && Indented(s)[i + 1] == SPACE && Indented(s)[i + 2] == SPACE
  {
    if s != [] {
      IndentedFirst(s);
      IndentedByTwo(s[1..]);
      var t, rest := Indented(s), Indented(s[1..]);
      if s[0] == NEWLINE {
        assert t[3..] == rest && t[0] == NEWLINE && t[1] == SPACE && t[2] == SPACE;
        forall i | 0 <= i < |t| && t[i] == NEWLINE ensures i + 2 < |t| && t[i + 1] == SPACE && t[i + 2] == SPACE {
          if i >= 3 { assert rest[i - 3] == t[i]; }
        }
      } else {
        assert t[1..] == rest && t[0] == s[0];
        forall i | 0 <= i < |t| && t[i] == NEWLINE ensures i + 2 < |t| && t[i + 1] == SPACE && t[i + 2] == SPACE {
          assert rest[i - 1] == t[i];
        }
      }
    }
  }

  function Items(feed: seq<Feed>): nat {
    if feed == [] then 0 else Items(feed[..|feed| - 1]) + if feed[|feed| - 1].Item? then 1 else 0
  }

  /** The body of the block: its items one after another, each on a line of its own. */
  function Body(feed: seq<Feed>): Bytes {
    if feed == [] then []
    else
      var before, last := Body(feed[..|feed| - 1]), feed[|feed| - 1];
      match last
      case Item => if Items(feed[..|feed| - 1]) > 0 then before + [NEWLINE] else before
      case Part(bytes) => before + Indented(bytes)
      case Ask => before
  }

  /** The texts of the items a feed hands over, each the parts of one item together. */
  function Texts(feed: seq<Feed>): seq<Bytes> {
    if feed == [] then []
    else
      var before, last := Texts(feed[..|feed| - 1]), feed[|feed| - 1];
      match last
      case Item => before + [[]]
      case Part(bytes) => if before == [] then [bytes] else before[|before| - 1 := before[|before| - 1] + bytes]
      case Ask => before
  }

  /** Texts on lines of their own, each indented after its first line. */
  function Lines(texts: seq<Bytes>): Bytes {
    if texts == [] then []
    else if |texts| == 1 then Indented(texts[0])
    else Lines(texts[..|texts| - 1]) + [NEWLINE] + Indented(texts[|texts| - 1])
  }

  lemma LinesOnto(texts: seq<Bytes>, bytes: Bytes)
    requires texts != []
    ensures Lines(texts[|texts| - 1 := texts[|texts| - 1] + bytes]) == Lines(texts) + Indented(bytes)
  {
    var n := |texts| - 1;
    assert texts[n := texts[n] + bytes][..n] == texts[..n];
    IndentedJoin(texts[n], bytes);
  }

  /** A body is its items' texts on lines of their own, however the feed parts them and whenever it asks. */
  lemma {:induction false} BodyIsLines(feed: seq<Feed>)
    requires feed == [] || feed[0].Item?
    ensures Body(feed) == Lines(Texts(feed)) && Items(feed) == |Texts(feed)| && (feed != [] ==> Texts(feed) != [])
  {
    if feed != [] {
      var before, n := feed[..|feed| - 1], |feed| - 1;
      BodyIsLines(before);
      match feed[n]
      case Item =>
        assert (Texts(before) + [[]])[..|Texts(before)|] == Texts(before);
        assert Indented([]) == [] && Lines(Texts(before)) + [NEWLINE] + [] == Lines(Texts(before)) + [NEWLINE];
      case Part(bytes) => LinesOnto(Texts(before), bytes);
      case Ask =>
    }
  }

  lemma FeedStep(feed: seq<Feed>, i: nat)
    requires i < |feed|
    ensures Items(feed[..i + 1]) == Items(feed[..i]) + if feed[i].Item? then 1 else 0
    ensures Body(feed[..i + 1]) == match feed[i] {
      case Item => if Items(feed[..i]) > 0 then Body(feed[..i]) + [NEWLINE] else Body(feed[..i])
      case Part(bytes) => Body(feed[..i]) + Indented(bytes)
      case Ask => Body(feed[..i])
    }
  {
    assert feed[..i + 1][..i] == feed[..i];
  }

  lemma {:induction false} BodyGrows(feed: seq<Feed>, i: nat, j: nat)
    requires i <= j <= |feed|
    ensures |Body(feed[..i])| <= |Body(feed[..j])|
    decreases j - i
  {
    if i < j {
      BodyGrows(feed, i, j - 1);
      FeedStep(feed, j - 1);
    }
  }

  /** prose and a fenced block, with no bound. */
  function Block(prose: Bytes, feed: seq<Feed>): Bytes {
    var body := Body(feed);
    var fence := Ticks(Max(3, LongestRun(body) + 1));
    prose + fence + [NEWLINE] + body + (if body != [] then [NEWLINE] else []) + fence
  }

  lemma IndentStep(s: Bytes, i: nat, start: Bytes, body: Bytes)
    requires i < |s| && body == start + Indented(s[..i])
    ensures start + Indented(s[..i + 1]) == if s[i] == NEWLINE then body + [s[i]] + [SPACE] + [SPACE] else body + [s[i]]
  {
    assert s[..i + 1][..i] == s[..i];
  }

  /** A writer that counts or, when writing, writes; body is what it was given so far. */
  class BlockWriter {
    const writing: bool
    const bounded: bool
    const limit: int
    var out: Bytes
    var items: nat
    var size: nat
    var run: nat
    var longest: nat
    ghost const start: Bytes
    ghost var body: Bytes

    ghost predicate Valid()
      reads this
    {
      if writing then out == start + body else size == |body| && run == EndRun(body) && longest == LongestRun(body)
    }

    constructor Counting(bounded: bool, limit: int)
      ensures Valid() && !writing && this.bounded == bounded && this.limit == limit && body == [] && items == 0
    {
      writing, this.bounded, this.limit, start := false, bounded, limit, [];
      out, items, size, run, longest, body := [], 0, 0, 0, 0, [];
    }

    constructor Writing(out: Bytes)
      ensures Valid() && writing && start == out && body == [] && items == 0
    {
      writing, bounded, limit, start := true, false, 0, out;
      this.out, items, size, run, longest, body := out, 0, 0, 0, 0, [];
      new;
      assert out + [] == out;
    }

    /** One byte of the body, written or counted. */
    method Put(c: Byte)
      requires Valid()
      modifies this
      ensures Valid() && body == old(body) + [c] && items == old(items)
    {
      OneMore(body, c);
      if writing {
        out := out + [c];
        assert start + (body + [c]) == (start + body) + [c];
      } else {
        size := size + 1;
        if c == TICK {
          run := run + 1;
          longest := Max(longest, run);
        } else {
          run := 0;
        }
      }
      body := body + [c];
    }

    method BeginItem()
      requires Valid()
      modifies this
      ensures Valid() && items == old(items) + 1
      ensures body == if old(items) > 0 then old(body) + [NEWLINE] else old(body)
    {
      items := items + 1;
      if items == 1 { return; }
      Put(NEWLINE);
    }

    predicate Over()
      reads this
    {
      !writing && bounded && size > limit
    }

    /** blockPart: each byte, and two spaces after a line feed. */
    method AddPart(s: Bytes)
      requires Valid()
      modifies this
      ensures Valid() && body == old(body) + Indented(s) && items == old(items)
    {
      for i := 0 to |s|
        invariant Valid() && items == old(items)
        invariant body == old(body) + Indented(s[..i])
      {
        IndentStep(s, i, old(body), body);
        Put(s[i]);
        if s[i] == NEWLINE {
          Put(SPACE);
          Put(SPACE);
        }
      }
      assert s[..|s|] == s;
    }

    /** What the feed gives, to its end or to where it stops because the count has passed. */
    method Take(feed: seq<Feed>) returns (stopped: bool)
      requires Valid() && body == [] && items == 0
      modifies this
      ensures Valid()
      ensures !stopped ==> body == Body(feed)
      ensures stopped ==> Over() && |body| <= |Body(feed)|
    {
      assert feed[..0] == [];
      for i := 0 to |feed|
        invariant Valid() && body == Body(feed[..i]) && items == Items(feed[..i])
      {
        FeedStep(feed, i);
        match feed[i] {
          case Item => BeginItem();
          case Part(bytes) => AddPart(bytes);
          case Ask =>
            if Over() {
              BodyGrows(feed, i, |feed|);
              assert feed[..|feed|] == feed;
              return true;
            }
        }
      }
      assert feed[..|feed|] == feed;
      return false;
    }
  }

  /** The block, counted first and written only when it fits: exactly the unbounded block when that
      is within the limit (a negative limit is none), and nothing otherwise. */
  method Fenced(prose: Bytes, feed: seq<Feed>, limit: int) returns (r: Option<Bytes>)
    ensures r == if limit >= 0 && |Block(prose, feed)| > limit then None else Some(Block(prose, feed))
  {
    var counted := new BlockWriter.Counting(limit >= 0, limit - |prose|);
    var stopped := counted.Take(feed);
    if counted.Over() { return None; }
    var fence := Max(3, counted.longest + 1);
    var size := |prose| + fence + 1 + counted.size + fence;
    if counted.size > 0 { size := size + 1; }
    assert size == |Block(prose, feed)|;
    if limit >= 0 && size > limit { return None; }
    var out := prose + Ticks(fence) + [NEWLINE];
    var writer := new BlockWriter.Writing(out);
    stopped := writer.Take(feed);
    out := writer.out;
    if counted.size > 0 { out := out + [NEWLINE]; }
    assert out == writer.out + if counted.size > 0 then [NEWLINE] else [];
    out := out + Ticks(fence);
    assert |out| == size;
    return Some(out);
  }

  /** The fence is longer than every run of backticks in the body, so no line of it closes the
      block (section 4.5 of CommonMark 0.31). */
  lemma NothingInsideCloses(feed: seq<Feed>, i: nat, n: nat)
    requires n >= Max(3, LongestRun(Body(feed)) + 1)
    ensures !AllTicks(Body(feed), i, n)
  {
    if AllTicks(Body(feed), i, n) { LongestRunIsLongest(Body(feed), i, n); }
  }

  /** And it is the shortest that may be: three backticks, or one more than a run that is there. */
  lemma FenceIsShortest(feed: seq<Feed>, n: nat) returns (i: nat)
    requires n == Max(3, LongestRun(Body(feed)) + 1)
    ensures n >= 3 && (n == 3 || AllTicks(Body(feed), i, n - 1))
  {
    i := LongestRunIsThere(Body(feed));
  }

  /* ---------- Code spans ---------- */

  predicate Padded(s: Bytes) {
    s != [] && (s[0] == TICK || s[|s| - 1] == TICK
                || (s[0] == SPACE && s[|s| - 1] == SPACE && exists i :: 0 <= i < |s| && s[i] != SPACE))
  }

  function Content(s: Bytes): Bytes { if Padded(s) then [SPACE] + s + [SPACE] else s }

  /** What a renderer shows of a span's content: it strips a space inside each end, unless all are
      spaces (section 6.1 of CommonMark 0.31). */
  function Shown(c: Bytes): Bytes {
    if |c| >= 2 && c[0] == SPACE && c[|c| - 1] == SPACE && (exists i :: 0 <= i < |c| && c[i] != SPACE) then c[1..|c| - 1] else c
  }

  /** The span shows the identifier as it is. */
  lemma SpanShows(s: Bytes)
    ensures Shown(Content(s)) == s
  {
    if Padded(s) {
      var c := Content(s);
      var i :| 0 <= i < |s| && s[i] != SPACE;
      assert c[i + 1] == s[i] && c[1..|c| - 1] == s;
    }
  }

  function Span(n: nat, c: Bytes): Bytes { Ticks(n) + c + Ticks(n) }

  /** codeSpan of an identifier already escaped. */
  function CodeSpan(s: Bytes): Bytes { Span(LongestRun(s) + 1, Content(s)) }

  lemma {:induction false} LongestRunPadded(s: Bytes)
    ensures LongestRun([SPACE] + s) == LongestRun(s) && EndRun([SPACE] + s) == EndRun(s)
  {
    if s == [] {
      assert [SPACE] + s == [SPACE] && [SPACE][..0] == [];
    } else {
      LongestRunPadded(s[..|s| - 1]);
      var t := [SPACE] + s;
      assert t[..|t| - 1] == [SPACE] + s[..|s| - 1];
    }
  }

  lemma ContentRuns(s: Bytes)
    requires s != []
    ensures LongestRun(Content(s)) == LongestRun(s)
    ensures Content(s) != [] && Content(s)[0] != TICK && Content(s)[|Content(s)| - 1] != TICK
  {
    LongestRunPadded(s);
    OneMore([SPACE] + s, SPACE);
  }

  /** A span whose delimiters are runs of n: it opens with a run of exactly n, and the first run of n
      after that is the one it ends with. */
  predicate IsSpan(span: Bytes, n: nat) {
    && |span| > 2 * n && AllTicks(span, 0, n) && span[n] != TICK && AllTicks(span, |span| - n, n)
    && forall i :: n <= i < |span| - n ==> !AllTicks(span, i, n)
  }

  /** codeSpan makes a span of every identifier but the empty one, whose two backticks are none. */
  lemma CodeSpanCloses(s: Bytes)
    ensures IsSpan(CodeSpan(s), LongestRun(s) + 1) <==> s != []
  {
    if s != [] {
      var n, c := LongestRun(s) + 1, Content(s);
      ContentRuns(s);
      SpanAt(n, c, 0);
      SpanAt(n, c, |c| - 1);
      SpanEnds(n, c);
      forall i | n <= i < |Span(n, c)| - n ensures !AllTicks(Span(n, c), i, n) { InsideContent(n, c, i); }
    }
  }

  lemma SpanAt(n: nat, c: Bytes, k: nat)
    requires k < |c|
    ensures Span(n, c)[n + k] == c[k]
  {
  }

  lemma SpanEnds(n: nat, c: Bytes)
    ensures AllTicks(Span(n, c), 0, n) && AllTicks(Span(n, c), |Span(n, c)| - n, n)
  {
  }

  lemma InsideContent(n: nat, c: Bytes, i: nat)
    requires n > LongestRun(c) && c != [] && Span(n, c)[n + |c| - 1] != TICK
    ensures n <= i < n + |c| ==> !AllTicks(Span(n, c), i, n)
  {
    if n <= i && i + n <= n + |c| && AllTicks(Span(n, c), i, n) {
      forall k | i - n <= k < i ensures c[k] == TICK { SpanAt(n, c, k); }
      LongestRunIsLongest(c, i - n, n);
    }
  }
}
