/** The parser reads every text of the grammar, as the value it is a text of (go/canon.go). */
module GrammarReads {
  import opened Wrappers
  import opened Utf8
  import opened Json
  import opened Parser
  import opened Reading
  import opened Grammar

  lemma {:induction false} SpaceSkipped(d: Bytes, i: nat, a: nat)
    requires Space(d, i, a) && (a < |d| ==> !IsSpace(d[a]))
    ensures SkipSpace(d, i) == a
    decreases a - i
  {
    if i < a { SpaceSkipped(d, i + 1, a); }
  }

  lemma {:induction false} SkippedIsSpace(d: Bytes, i: nat)
    requires i <= |d|
    ensures Space(d, i, SkipSpace(d, i))
    decreases |d| - i
  {
    if i < |d| && IsSpace(d[i]) { SkippedIsSpace(d, i + 1); }
  }

  /* ---------- Strings ---------- */

  /* What reading finds at a position, stated over a range of one position so that a proof that
     only passes such facts on does not unfold the reader. */

  ghost predicate CharAt(d: Bytes, pos: nat, c: Scalar, end: nat) {
    forall p :: pos <= p <= pos ==> p < |d| && d[p] != QUOTE && OneChar(d, p) == Ok((c, end))
  }

  ghost predicate StringAt(d: Bytes, pos: nat, s: Text, end: nat) {
    forall p :: pos <= p <= pos ==> StringRest(d, p) == Ok((s, end))
  }

  ghost predicate NumberAt(m: Mode, d: Bytes, pos: nat, v: Value, end: nat) {
    forall p :: pos <= p <= pos ==> p < |d| && ReadNumber(m, d, p) == Ok((v, end))
  }

  lemma PlainFirst(c: Scalar)
    requires c >= 0x20 && c != 0x22 && c != 0x5C
    ensures Encode(c)[0] >= 0x20 && Encode(c)[0] != QUOTE && Encode(c)[0] != BACKSLASH
  {
  }

  lemma PlainReads(d: Bytes, i: nat, j: nat, c: Scalar)
    requires Plain(d, i, j, c)
    ensures CharAt(d, i, c, j)
  {
    PlainFirst(c);
    AtByte(d, i, Encode(c), 0);
    DecodeEncode(d, i, c);
  }

  lemma EscapedReads(d: Bytes, i: nat, j: nat, c: Scalar)
    requires Escaped(d, i, j, c)
    ensures CharAt(d, i, c, j)
  {
  }

  lemma UnitReads(d: Bytes, i: nat, j: nat, c: Scalar)
    requires Unit(d, i, j, c)
    ensures CharAt(d, i, c, j)
  {
  }

  lemma PairValue(c: int)
    requires 0x10000 <= c <= 0x10FFFF
    ensures var high, low := 0xD800 + (c - 0x10000) / 0x400, 0xDC00 + (c - 0x10000) % 0x400;
      0xD800 <= high < 0xDC00 && 0xDC00 <= low < 0xE000 && 0x10000 + (high - 0xD800) * 0x400 + (low - 0xDC00) == c
  {
  }

  lemma PairReads(d: Bytes, i: nat, j: nat, c: Scalar)
    requires Pair(d, i, j, c)
    ensures CharAt(d, i, c, j)
  {
    PairValue(c);
    assert UnicodeEscape(d, i + 2) == Ok((c, i + 12));
  }

  lemma CharReads(d: Bytes, i: nat, j: nat, c: Scalar)
    requires CharText(d, i, j, c)
    ensures CharAt(d, i, c, j)
  {
    if Plain(d, i, j, c) { PlainReads(d, i, j, c); }
    else if Escaped(d, i, j, c) { EscapedReads(d, i, j, c); }
    else if Unit(d, i, j, c) { UnitReads(d, i, j, c); }
    else { PairReads(d, i, j, c); }
  }

  lemma LastChar(d: Bytes, pos: nat)
    requires pos < |d| && d[pos] == QUOTE
    ensures StringAt(d, pos, [], pos + 1)
  {
  }

  lemma MoreChars(d: Bytes, pos: nat, s: Text, next: nat, end: nat)
    requires s != [] && CharAt(d, pos, s[0], next) && StringAt(d, next, s[1..], end)
    ensures StringAt(d, pos, s, end)
  {
    assert s == [s[0]] + s[1..];
  }

  lemma {:induction false} CharsRead(d: Bytes, i: nat, j: nat, s: Text)
    requires CharsText(d, i, j, s)
    ensures StringAt(d, i, s, j)
    decreases |s|
  {
    if s == [] {
      LastChar(d, i);
    } else {
      var k: nat :| CharText(d, i, k, s[0]) && CharsText(d, k, j, s[1..]);
      CharReads(d, i, k, s[0]);
      CharsRead(d, k, j, s[1..]);
      MoreChars(d, i, s, k, j);
    }
  }

  /* ---------- Numbers ---------- */

  /** No byte at p would go on a number that ends there. */
  predicate Ends(d: Bytes, p: nat) {
    p < |d| ==> !IsDigit(d[p]) && d[p] != 0x2E && d[p] != 0x65 && d[p] != 0x45
  }

  lemma {:induction false} DigitsEndAt(d: Bytes, i: nat, j: nat)
    requires i <= j <= |d| && (forall k :: i <= k < j ==> IsDigit(d[k])) && (j < |d| ==> !IsDigit(d[j]))
    ensures DigitsEnd(d, i) == j
    decreases j - i
  {
    if i < j { DigitsEndAt(d, i + 1, j); }
  }

  lemma FractionReads(d: Bytes, i: nat, j: nat)
    requires FractionText(d, i, j) && i <= |d| && (j < |d| ==> !IsDigit(d[j]) && (j == i ==> d[j] != 0x2E))
    ensures FractionEnd(d, i) == Ok(j)
  {
    if j != i { DigitsEndAt(d, i + 1, j); }
  }

  lemma ExponentReads(d: Bytes, i: nat, j: nat)
    requires ExponentText(d, i, j) && i <= |d| && Ends(d, j)
    ensures ExponentEnd(d, i) == Ok(j)
  {
    if j != i {
      if DigitsText(d, i + 1, j) { assert IsDigit(d[i + 1]); DigitsEndAt(d, i + 1, j); } else { DigitsEndAt(d, i + 2, j); }
    }
  }

  /** Where a fraction or an exponent begins, the digits before it end. */
  lemma PartsEnd(d: Bytes, to: nat, f: nat, j: nat)
    requires to <= |d| && FractionText(d, to, f) && ExponentText(d, f, j) && Ends(d, j)
    ensures to <= f <= j <= |d| && (to < |d| ==> !IsDigit(d[to])) && (f < |d| ==> !IsDigit(d[f]) && (f == to ==> d[f] != 0x2E))
  {
  }

  lemma NumberReads(m: Mode, d: Bytes, i: nat, j: nat, v: Value)
    requires NumberText(m, d, i, j, v) && Ends(d, j)
    ensures NumberAt(m, d, i, v, j)
    ensures i < |d| && (d[i] == MINUS || IsDigit(d[i]))
  {
    var from: nat, to: nat, f: nat :| NumberParts(m, d, i, from, to, f, j, v);
    PartsEnd(d, to, f, j);
    DigitsEndAt(d, from, to);
    assert IsDigit(d[from]);
    FractionReads(d, to, f);
    ExponentReads(d, f, j);
    PartsRead(m, d, i, from, to, f, j, v);
  }

  lemma PartsRead(m: Mode, d: Bytes, i: nat, from: nat, to: nat, f: nat, j: nat, v: Value)
    requires i < |d| && i <= from < to <= f <= j <= |d| && (d[i] == MINUS <==> from == i + 1) && (from == i || from == i + 1)
    requires (from > i ==> !m.unsigned) && (d[from] == ZERO ==> to == from + 1) && Ends(d, j)
    requires DigitsEnd(d, from) == to && FractionEnd(d, to) == Ok(f) && ExponentEnd(d, f) == Ok(j)
    requires NumberMeans(m, d, i, from, to, j, v)
    ensures NumberAt(m, d, i, v, j)
  {
  }

  /* ---------- Values ---------- */

  lemma {:induction false} TextBegins(m: Mode, d: Bytes, i: nat, j: nat, v: Value)
    requires ValueText(m, d, i, j, v)
    ensures i < |d| && StartsValue(d[i])
  {
    if v.Null? { AtByte(d, i, NULL, 0); }
    if v.Bool? { AtByte(d, i, if v.b then TRUE else FALSE, 0); }
    if v.Int? || v.Number? {
      var from: nat, to: nat, f: nat :| NumberParts(m, d, i, from, to, f, j, v);
      assert IsDigit(d[from]);
    }
  }

  function Read<T>(v: T, end: nat): Result<Parsed<T>> { Ok(Parsed(v, end, 0)) }

  lemma LiteralReads(m: Mode, d: Bytes, i: nat, j: nat, v: Value, depth: nat)
    requires m.maxValues == 0 && (v.Null? || v.Bool?) && ValueText(m, d, i, j, v)
    ensures ValueIs(m, d, i, depth, 0, Read(v, j))
  {
    if v.Null? { AtByte(d, i, NULL, 0); } else { AtByte(d, i, if v.b then TRUE else FALSE, 0); }
  }

  lemma NumberValue(m: Mode, d: Bytes, i: nat, j: nat, v: Value, depth: nat)
    requires m.maxValues == 0 && NumberAt(m, d, i, v, j) && i < |d| && (d[i] == MINUS || IsDigit(d[i]))
    ensures ValueIs(m, d, i, depth, 0, Read(v, j))
  {
  }

  lemma StringValue(m: Mode, d: Bytes, i: nat, j: nat, s: Text, depth: nat)
    requires m.maxValues == 0 && i < |d| && d[i] == QUOTE && StringAt(d, i + 1, s, j)
    ensures ValueIs(m, d, i, depth, 0, Read(Str(s), j))
  {
  }

  /** What follows a value inside a container ends a number. */
  lemma AfterEnds(d: Bytes, b: nat, c: nat)
    requires Space(d, b, c) && c < |d| && (d[c] == COMMA || d[c] == RBRACKET || d[c] == RBRACE)
    ensures Ends(d, b) && SkipSpace(d, b) == c
  {
    SpaceSkipped(d, b, c);
    if b < c { assert IsSpace(d[b]); }
  }

  predicate Bounded(v: Value, k: nat) { WellFormed(v) && NestsWithin(v, k) }

  lemma {:induction false} ValueReads(m: Mode, d: Bytes, i: nat, j: nat, v: Value, depth: nat)
    requires m.maxValues == 0 && ValueText(m, d, i, j, v) && Ends(d, j)
    requires depth <= MAX_NESTING && Bounded(v, MAX_NESTING - depth)
    ensures ValueIs(m, d, i, depth, 0, Read(v, j))
    decreases v, 2
  {
    match v
    case Null => LiteralReads(m, d, i, j, v, depth);
    case Bool(_) => LiteralReads(m, d, i, j, v, depth);
    case Int(_) =>
      NumberReads(m, d, i, j, v);
      NumberValue(m, d, i, j, v, depth);
    case Number(_) =>
      NumberReads(m, d, i, j, v);
      NumberValue(m, d, i, j, v, depth);
    case Str(s) =>
      CharsRead(d, i + 1, j, s);
      StringValue(m, d, i, j, s, depth);
    case Arr(items) => ArrayReads(m, d, i, j, items, depth);
    case Obj(ms) => ObjectReads(m, d, i, j, ms, depth);
  }

  lemma {:induction false} ArrayReads(m: Mode, d: Bytes, i: nat, j: nat, items: seq<Value>, depth: nat)
    requires m.maxValues == 0 && i < |d| && d[i] == LBRACKET
    requires if items == [] then EmptyText(d, i + 1, j, RBRACKET) else ItemsText(m, d, i + 1, j, items)
    requires depth < MAX_NESTING && forall k :: 0 <= k < |items| ==> Bounded(items[k], MAX_NESTING - depth - 1)
    ensures ValueIs(m, d, i, depth, 0, Read(Arr(items), j))
    decreases items, 1
  {
    var inside := Refusal;
    if items == [] {
      SpaceSkipped(d, i + 1, j - 1);
      inside := PeekItems(m, d, j - 1, depth + 1, 0);
    } else {
      FirstItem(m, d, i + 1, j, items);
      ItemsRead(m, d, SkipSpace(d, i + 1), j, items, depth + 1);
      inside := Read(items, j);
    }
    ArrayStep(m, d, i + 1, depth + 1, 0, inside, Read(Arr(items), j));
    ContainerStep(m, d, i, depth, 0, Read(Arr(items), j), Read(Arr(items), j));
  }

  /** Space before the first element may be skipped first. */
  lemma FirstItem(m: Mode, d: Bytes, i: nat, j: nat, items: seq<Value>)
    requires items != [] && ItemsText(m, d, i, j, items)
    ensures i <= |d| && var p := SkipSpace(d, i); p < |d| && d[p] != RBRACKET && ItemsText(m, d, p, j, items)
  {
    var a: nat, b: nat, c: nat :| ItemText(m, d, i, a, b, c, items[0])
      && if |items| == 1 then d[c] == RBRACKET && j == c + 1 else d[c] == COMMA && ItemsText(m, d, c + 1, j, items[1..]);
    TextBegins(m, d, a, b, items[0]);
    SpaceSkipped(d, i, a);
    assert ItemText(m, d, a, a, b, c, items[0]);
  }

  /** Where the first element stands, and what follows it. */
  lemma ItemsSplit(m: Mode, d: Bytes, i: nat, j: nat, items: seq<Value>) returns (a: nat, b: nat, c: nat)
    requires items != [] && ItemsText(m, d, i, j, items)
    ensures i <= |d| && SkipSpace(d, i) == a && ValueText(m, d, a, b, items[0]) && Ends(d, b) && SkipSpace(d, b) == c < |d|
    ensures if |items| == 1 then d[c] == RBRACKET && j == c + 1 else d[c] == COMMA && ItemsText(m, d, c + 1, j, items[1..])
  {
    a, b, c :| ItemText(m, d, i, a, b, c, items[0])
      && if |items| == 1 then d[c] == RBRACKET && j == c + 1 else d[c] == COMMA && ItemsText(m, d, c + 1, j, items[1..]);
    TextBegins(m, d, a, b, items[0]);
    SpaceSkipped(d, i, a);
    AfterEnds(d, b, c);
  }

  lemma ItemsJoined(d: Bytes, items: seq<Value>, b: nat, c: nat, j: nat, rest: Result<Parsed<seq<Value>>>)
    requires items != [] && SkipSpace(d, b) == c < |d|
    requires if |items| == 1 then d[c] == RBRACKET && j == c + 1 else d[c] == COMMA && rest == Read(items[1..], j)
    ensures ItemsFrom(d, Read(items[0], b), rest) == Read(items, j)
  {
    assert items == [items[0]] + items[1..];
    if |items| == 1 { assert items == [items[0]]; }
  }

  lemma {:induction false} ItemsRead(m: Mode, d: Bytes, i: nat, j: nat, items: seq<Value>, depth: nat)
    requires m.maxValues == 0 && items != [] && ItemsText(m, d, i, j, items)
    requires depth <= MAX_NESTING && forall k :: 0 <= k < |items| ==> Bounded(items[k], MAX_NESTING - depth)
    ensures ItemsAre(m, d, i, depth, 0, Read(items, j))
    decreases items, 0
  {
    var a, b, c := ItemsSplit(m, d, i, j, items);
    assert Bounded(items[0], MAX_NESTING - depth);
    ValueReads(m, d, a, b, items[0], depth);
    var rest := Refusal;
    if |items| > 1 {
      ItemsRead(m, d, c + 1, j, items[1..], depth);
      rest := Read(items[1..], j);
    }
    ItemsJoined(d, items, b, c, j, rest);
    ItemsStep(m, d, i, depth, 0, Read(items[0], b), rest, Read(items, j));
  }

  lemma NameReads(d: Bytes, i: nat, e: nat, name: Text, seen: set<Text>)
    requires NameText(d, i, e, name) && name !in seen && (e < |d| ==> !IsSpace(d[e]))
    ensures i <= |d| && ReadName(d, i, seen) == Ok((name, e))
  {
    var a: nat, b: nat, c: nat :| NameParts(d, i, a, b, c, e) && CharsText(d, a + 1, b, name);
    SpaceSkipped(d, i, a);
    CharsRead(d, a + 1, b, name);
    assert StringRest(d, a + 1) == Ok((name, b));
    SpaceSkipped(d, b, c);
    SpaceSkipped(d, c + 1, e);
  }

  lemma FirstMember(m: Mode, d: Bytes, i: nat, j: nat, ms: seq<Named<Value>>)
    requires ms != [] && MembersText(m, d, i, j, ms)
    ensures i <= |d| && var p := SkipSpace(d, i); p < |d| && d[p] != RBRACE && MembersText(m, d, p, j, ms)
  {
    var a: nat, b: nat, c: nat :| MemberText(m, d, i, a, b, c, ms[0].name, ms[0].value)
      && if |ms| == 1 then d[c] == RBRACE && j == c + 1 else d[c] == COMMA && MembersText(m, d, c + 1, j, ms[1..]);
    var p: nat, q: nat, r: nat :| NameParts(d, i, p, q, r, a) && CharsText(d, p + 1, q, ms[0].name);
    SpaceSkipped(d, i, p);
    assert NameParts(d, p, p, q, r, a);
    assert NameText(d, p, a, ms[0].name);
    assert MemberText(m, d, p, a, b, c, ms[0].name, ms[0].value);
  }

  lemma {:induction false} ObjectReads(m: Mode, d: Bytes, i: nat, j: nat, ms: seq<Named<Value>>, depth: nat)
    requires m.maxValues == 0 && i < |d| && d[i] == LBRACE
    requires if ms == [] then EmptyText(d, i + 1, j, RBRACE) else MembersText(m, d, i + 1, j, ms)
    requires depth < MAX_NESTING && DistinctNames(ms) && forall k :: 0 <= k < |ms| ==> Bounded(ms[k].value, MAX_NESTING - depth - 1)
    ensures ValueIs(m, d, i, depth, 0, Read(Obj(ms), j))
    decreases ms, 1
  {
    var inside := Refusal;
    if ms == [] {
      SpaceSkipped(d, i + 1, j - 1);
      inside := PeekMembers(m, d, j - 1, depth + 1, 0, {});
    } else {
      FirstMember(m, d, i + 1, j, ms);
      MembersRead(m, d, SkipSpace(d, i + 1), j, ms, depth + 1, {});
      inside := Read(ms, j);
    }
    ObjectStep(m, d, i + 1, depth + 1, 0, inside, Read(Obj(ms), j));
    ContainerStep(m, d, i, depth, 0, Read(Obj(ms), j), Read(Obj(ms), j));
  }

  lemma MembersSplit(m: Mode, d: Bytes, i: nat, j: nat, ms: seq<Named<Value>>, seen: set<Text>) returns (a: nat, b: nat, c: nat)
    requires ms != [] && MembersText(m, d, i, j, ms) && ms[0].name !in seen
    ensures i <= |d| && ReadName(d, i, seen) == Ok((ms[0].name, a))
    ensures ValueText(m, d, a, b, ms[0].value) && Ends(d, b) && SkipSpace(d, b) == c < |d|
    ensures if |ms| == 1 then d[c] == RBRACE && j == c + 1 else d[c] == COMMA && MembersText(m, d, c + 1, j, ms[1..])
  {
    a, b, c :| MemberText(m, d, i, a, b, c, ms[0].name, ms[0].value)
      && if |ms| == 1 then d[c] == RBRACE && j == c + 1 else d[c] == COMMA && MembersText(m, d, c + 1, j, ms[1..]);
    TextBegins(m, d, a, b, ms[0].value);
    NameReads(d, i, a, ms[0].name, seen);
    AfterEnds(d, b, c);
  }

  lemma MembersJoined(d: Bytes, ms: seq<Named<Value>>, b: nat, c: nat, j: nat, rest: Result<Parsed<seq<Named<Value>>>>)
    requires ms != [] && SkipSpace(d, b) == c < |d|
    requires if |ms| == 1 then d[c] == RBRACE && j == c + 1 else d[c] == COMMA && rest == Read(ms[1..], j)
    ensures MembersFrom(d, ms[0].name, Read(ms[0].value, b), rest) == Read(ms, j)
  {
    assert ms == [ms[0]] + ms[1..] && ms[0] == Named(ms[0].name, ms[0].value);
    if |ms| == 1 { assert ms == [ms[0]]; }
  }

  predicate Unseen(ms: seq<Named<Value>>, seen: set<Text>) {
    DistinctNames(ms) && forall i :: 0 <= i < |ms| ==> ms[i].name !in seen
  }

  lemma UnseenRest(ms: seq<Named<Value>>, seen: set<Text>)
    requires ms != [] && Unseen(ms, seen)
    ensures Unseen(ms[1..], seen + {ms[0].name})
  {
  }

  lemma {:induction false} MembersRead(m: Mode, d: Bytes, i: nat, j: nat, ms: seq<Named<Value>>, depth: nat, seen: set<Text>)
    requires m.maxValues == 0 && ms != [] && MembersText(m, d, i, j, ms) && Unseen(ms, seen)
    requires depth <= MAX_NESTING && forall k :: 0 <= k < |ms| ==> Bounded(ms[k].value, MAX_NESTING - depth)
    ensures MembersAre(m, d, i, depth, 0, seen, Read(ms, j))
    decreases ms, 0
  {
    var a, b, c := MembersSplit(m, d, i, j, ms, seen);
    assert Bounded(ms[0].value, MAX_NESTING - depth);
    ValueReads(m, d, a, b, ms[0].value, depth);
    var rest := Refusal;
    if |ms| > 1 {
      UnseenRest(ms, seen);
      MembersRead(m, d, c + 1, j, ms[1..], depth, seen + {ms[0].name});
      rest := Read(ms[1..], j);
    }
    MembersJoined(d, ms, b, c, j, rest);
    MembersStep(m, d, i, depth, 0, seen, ms[0].name, a, Read(ms[0].value, b), rest, Read(ms, j));
  }

  /** Every document of the grammar whose value is well formed and within the nesting is read. */
  lemma DocumentReads(m: Mode, d: Bytes, v: Value)
    requires m.maxValues == 0 && DocumentText(m, d, v) && WellFormed(v) && NestsWithin(v, MAX_NESTING)
    ensures Document(m, d) == Ok(v)
  {
    var i: nat, j: nat :| DocumentParts(m, d, i, j, v);
    TextBegins(m, d, i, j, v);
    SpaceSkipped(d, 0, i);
    SpaceSkipped(d, j, |d|);
    if j < |d| { assert IsSpace(d[j]); }
    ValueReads(m, d, i, j, v, 0);
    assert ReadValue(m, d, i, 0, 0) == Read(v, j);
  }
}
