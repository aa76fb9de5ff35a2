/** Canonical bytes are a text of the value they were written from, so the parser reads that value
    back (go/canon.go). */
module RoundTrip {
  import opened Wrappers
  import opened Utf8
  import opened Json
  import opened Parser
  import opened Grammar
  import opened GrammarReads
  import opened Sorting

  /* ---------- Strings ---------- */

  lemma HexBack(x: int)
    requires 0 <= x < 16
    ensures HexValue(HexDigit(x)) == Some(x)
  {
  }

  /** What one character is written as is a text of it. */
  lemma EscapeText(d: Bytes, i: nat, c: Scalar)
    requires At(d, i, Escape(c))
    ensures CharText(d, i, i + |Escape(c)|, c)
  {
    var e := Escape(c);
    AtByte(d, i, e, 0);
    if c == 0x22 || c == 0x5C || c == 0x08 || c == 0x0C || c == 0x0A || c == 0x0D || c == 0x09 {
      AtByte(d, i, e, 1);
      assert Escaped(d, i, i + 2, c);
    } else if c < 0x20 {
      AtByte(d, i, e, 1);
      AtByte(d, i, e, 2);
      AtByte(d, i, e, 3);
      AtByte(d, i, e, 4);
      AtByte(d, i, e, 5);
      HexBack(c / 16);
      HexBack(c % 16);
      HexBack(0);
      assert Unit(d, i, i + 6, c);
    } else {
      assert Plain(d, i, i + |e|, c);
    }
  }

  lemma LastSplit(first: Bytes, close: Byte, d: Bytes, pos: nat)
    requires At(d, pos, first + [close])
    ensures At(d, pos, first) && pos + |first| < |d| && d[pos + |first|] == close
  {
    AtConcat(d, pos, first, [close]);
    AtByte(d, pos + |first|, [close], 0);
  }

  lemma Regroup(first: Bytes, rest: Bytes, close: Byte, d: Bytes, pos: nat)
    requires At(d, pos, first + rest + [close])
    ensures At(d, pos, first) && At(d, pos + |first|, rest + [close])
  {
    assert first + rest + [close] == first + (rest + [close]);
    AtConcat(d, pos, first, rest + [close]);
  }

  lemma CommaSplit(first: Bytes, rest: Bytes, close: Byte, d: Bytes, pos: nat)
    requires At(d, pos, first + [COMMA] + rest + [close])
    ensures At(d, pos, first) && pos + |first| < |d| && d[pos + |first|] == COMMA
    ensures At(d, pos + |first| + 1, rest + [close])
  {
    assert first + [COMMA] + rest + [close] == first + ([COMMA] + (rest + [close]));
    AtConcat(d, pos, first, [COMMA] + (rest + [close]));
    AtConcat(d, pos + |first|, [COMMA], rest + [close]);
    AtByte(d, pos + |first|, [COMMA], 0);
  }

  lemma {:induction false} EscapeAllText(d: Bytes, i: nat, s: Text)
    requires At(d, i, EscapeAll(s) + [QUOTE])
    ensures CharsText(d, i, i + |EscapeAll(s)| + 1, s)
    decreases |s|
  {
    if s == [] {
      LastSplit([], QUOTE, d, i);
    } else {
      var k := FirstEscape(d, i, s);
      EscapeAllText(d, k, s[1..]);
    }
  }

  lemma FirstEscape(d: Bytes, i: nat, s: Text) returns (k: nat)
    requires s != [] && At(d, i, EscapeAll(s) + [QUOTE])
    ensures CharText(d, i, k, s[0]) && At(d, k, EscapeAll(s[1..]) + [QUOTE]) && k + |EscapeAll(s[1..])| == i + |EscapeAll(s)|
  {
    k := i + |Escape(s[0])|;
    Regroup(Escape(s[0]), EscapeAll(s[1..]), QUOTE, d, i);
    EscapeText(d, i, s[0]);
  }

  /** A written string is a text of its characters. */
  lemma StringText(d: Bytes, i: nat, s: Text)
    requires At(d, i, CanonString(s))
    ensures i < |d| && d[i] == QUOTE && CharsText(d, i + 1, i + |CanonString(s)|, s)
  {
    Regroup([QUOTE], EscapeAll(s), QUOTE, d, i);
    AtByte(d, i, [QUOTE], 0);
    EscapeAllText(d, i + 1, s);
  }

  /* ---------- Numbers ---------- */

  lemma {:induction false} DigitsBack(n: nat)
    ensures Decimal(Digits(n)) == n
    ensures forall i :: 0 <= i < |Digits(n)| ==> IsDigit(Digits(n)[i])
    ensures Digits(n)[0] == ZERO ==> |Digits(n)| == 1
    ensures n > 0 ==> Digits(n)[0] != ZERO
  {
    var ds := Digits(n);
    assert ds[..|ds| - 1] == if n < 10 then [] else Digits(n / 10);
    if n >= 10 { DigitsBack(n / 10); }
  }

  lemma {:induction false} DecimalNatural(ds: Bytes)
    requires forall i :: 0 <= i < |ds| ==> IsDigit(ds[i])
    ensures Decimal(ds) >= 0
  {
    if ds != [] { DecimalNatural(ds[..|ds| - 1]); }
  }

  /** The number's own spelling is a text of it. */
  ghost predicate OwnText(m: Mode, v: Value) { NumberText(m, Canon(v), 0, |Canon(v)|, v) }

  lemma IntText(m: Mode, n: int)
    requires Safe(n) && !(m.anyNumber && m.spelled) && (n < 0 ==> !m.unsigned)
    ensures OwnText(m, Int(n))
  {
    var size: nat := if n < 0 then -n else n;
    DigitsBack(size);
    DigitsNumber(m, CanonInt(n), if n < 0 then 1 else 0, Digits(size), n);
  }

  lemma DigitsNumber(m: Mode, d: Bytes, from: nat, ds: Bytes, n: int)
    requires Safe(n) && !(m.anyNumber && m.spelled) && Decimal(ds) == if from > 0 then -n else n
    requires |ds| > 0 && (forall i :: 0 <= i < |ds| ==> IsDigit(ds[i])) && (ds[0] == ZERO ==> |ds| == 1)
    requires if from == 0 then d == ds else from == 1 && d == [MINUS] + ds && !m.unsigned
    ensures NumberText(m, d, 0, |d|, Int(n))
  {
    assert d[from..|d|] == ds;
    assert forall k :: from <= k < |d| ==> d[k] == ds[k - from];
    assert NumberParts(m, d, 0, from, |d|, |d|, |d|, Int(n));
  }

  lemma ShiftDigits(s: Bytes, d: Bytes, pos: nat, i: nat, j: nat)
    requires At(d, pos, s) && DigitsText(s, i, j)
    ensures DigitsText(d, pos + i, pos + j)
  {
    forall k | pos + i <= k < pos + j ensures IsDigit(d[k]) {
      AtByte(d, pos, s, k - pos);
      assert IsDigit(s[k - pos]);
    }
  }

  lemma ShiftFraction(s: Bytes, d: Bytes, pos: nat, i: nat, j: nat)
    requires At(d, pos, s) && FractionText(s, i, j)
    ensures FractionText(d, pos + i, pos + j)
  {
    if j != i {
      AtByte(d, pos, s, i);
      ShiftDigits(s, d, pos, i + 1, j);
    }
  }

  lemma ShiftExponent(s: Bytes, d: Bytes, pos: nat, i: nat, j: nat)
    requires At(d, pos, s) && ExponentText(s, i, j)
    ensures ExponentText(d, pos + i, pos + j)
  {
    if j != i {
      AtByte(d, pos, s, i);
      if DigitsText(s, i + 1, j) {
        ShiftDigits(s, d, pos, i + 1, j);
      } else {
        AtByte(d, pos, s, i + 1);
        ShiftDigits(s, d, pos, i + 2, j);
      }
    }
  }

  lemma ShiftInteger(m: Mode, s: Bytes, d: Bytes, pos: nat, from: nat, to: nat)
    requires At(d, pos, s) && IntegerText(m, s, 0, from, to)
    ensures IntegerText(m, d, pos, pos + from, pos + to) && Integer(d, pos, pos + from, pos + to) == Integer(s, 0, from, to)
  {
    AtByte(d, pos, s, 0);
    AtByte(d, pos, s, from);
    ShiftDigits(s, d, pos, from, to);
    assert forall k :: from <= k < to ==> d[pos + k] == s[k];
    assert d[pos + from..pos + to] == s[from..to];
  }

  /** A number is the same number wherever its bytes stand. */
  lemma ShiftNumber(m: Mode, s: Bytes, d: Bytes, pos: nat, v: Value)
    requires At(d, pos, s) && NumberText(m, s, 0, |s|, v)
    ensures NumberText(m, d, pos, pos + |s|, v)
  {
    var from: nat, to: nat, f: nat :| NumberParts(m, s, 0, from, to, f, |s|, v);
    ShiftInteger(m, s, d, pos, from, to);
    ShiftFraction(s, d, pos, to, f);
    ShiftExponent(s, d, pos, f, |s|);
    AtSlice(d, pos, s);
    assert s[0..|s|] == s;
    assert NumberParts(m, d, pos, pos + from, pos + to, pos + f, pos + |s|, v);
  }

  /* ---------- Values ---------- */

  /** Every number of the value is one the setting reads from its own spelling. */
  ghost predicate Spellable(m: Mode, v: Value) {
    match v
    case Int(_) => OwnText(m, v)
    case Number(_) => OwnText(m, v)
    case Arr(items) => forall i :: 0 <= i < |items| ==> Spellable(m, items[i])
    case Obj(ms) => forall i :: 0 <= i < |ms| ==> Spellable(m, ms[i].value)
    case _ => true
  }

  predicate Good(v: Value, k: nat) { Canonical(v) && WellFormed(v) && NestsWithin(v, k) }

  predicate GoodMembers(ms: seq<Named<Value>>, k: nat) { forall i :: 0 <= i < |ms| ==> Good(ms[i].value, k) }

  lemma SortedForms(ms: seq<Named<Value>>)
    ensures Canon(Obj(ms)) == [LBRACE] + Join(CanonMembers(Sort(ms))) + [RBRACE]
    ensures Normal(Obj(ms)) == Obj(NormalMembers(Sort(ms)))
  {
    CanonMembersSorted(ms);
    NormalMembersSorted(ms);
  }

  ghost predicate SpellableItems(m: Mode, items: seq<Value>, k: nat) {
    forall i :: 0 <= i < |items| ==> Spellable(m, items[i]) && NestsWithin(items[i], k)
  }

  ghost predicate SpellableMembers(m: Mode, ms: seq<Named<Value>>, k: nat) {
    forall i :: 0 <= i < |ms| ==> Spellable(m, ms[i].value) && NestsWithin(ms[i].value, k)
  }

  lemma SpellableRest(m: Mode, items: seq<Value>, k: nat)
    requires items != [] && SpellableItems(m, items, k)
    ensures SpellableItems(m, items[1..], k)
  {
  }

  lemma SpellableRestMembers(m: Mode, ms: seq<Named<Value>>, k: nat)
    requires ms != [] && SpellableMembers(m, ms, k)
    ensures SpellableMembers(m, ms[1..], k)
  {
  }

  lemma SpellableSorted(m: Mode, ms: seq<Named<Value>>, k: nat)
    requires SpellableMembers(m, ms, k)
    ensures SpellableMembers(m, Sort(ms), k)
  {
    SortMembers(ms);
    forall i | 0 <= i < |Sort(ms)| ensures Spellable(m, Sort(ms)[i].value) && NestsWithin(Sort(ms)[i].value, k) {
      assert Sort(ms)[i] in ms;
    }
  }

  lemma LiteralIsText(m: Mode, d: Bytes, i: nat, v: Value)
    requires (v.Null? || v.Bool?) && At(d, i, Canon(v))
    ensures ValueText(m, d, i, i + |Canon(v)|, v)
  {
    AtByte(d, i, Canon(v), 0);
  }

  lemma OwnNumberText(m: Mode, d: Bytes, i: nat, v: Value)
    requires (v.Int? || v.Number?) && OwnText(m, v) && At(d, i, Canon(v))
    ensures ValueText(m, d, i, i + |Canon(v)|, v)
  {
    ShiftNumber(m, Canon(v), d, i, v);
    NumberBegins(m, d, i, i + |Canon(v)|, v);
  }

  /** Canonical bytes, wherever they stand, are a text of the value with its members sorted. */
  lemma {:induction false} CanonIsText(m: Mode, v: Value, k: nat, d: Bytes, i: nat, nv: Value, j: nat)
    requires Spellable(m, v) && NestsWithin(v, k) && At(d, i, Canon(v)) && nv == Normal(v) && j == i + |Canon(v)|
    ensures ValueText(m, d, i, j, nv)
    decreases k, 0, 0
  {
    match v
    case Null => LiteralIsText(m, d, i, v);
    case Bool(b) => LiteralIsText(m, d, i, v);
    case Int(_) => OwnNumberText(m, d, i, v);
    case Number(_) => OwnNumberText(m, d, i, v);
    case Str(s) => StringText(d, i, s);
    case Arr(items) => ArrayIsText(m, items, k - 1, d, i, nv.items, j);
    case Obj(ms) => SortedIsText(m, ms, k - 1, d, i, nv.members, j);
  }

  lemma {:induction false} ArrayIsText(m: Mode, items: seq<Value>, k: nat, d: Bytes, i: nat, ns: seq<Value>, j: nat)
    requires SpellableItems(m, items, k) && ns == NormalItems(items)
    requires At(d, i, [LBRACKET] + CanonItems(items) + [RBRACKET]) && j == i + |CanonItems(items)| + 2
    ensures ValueText(m, d, i, j, Arr(ns))
    decreases k, 2, 0
  {
    Regroup([LBRACKET], CanonItems(items), RBRACKET, d, i);
    AtByte(d, i, [LBRACKET], 0);
    if items == [] {
      LastSplit([], RBRACKET, d, i + 1);
    } else {
      ItemsAreText(m, items, k, d, i + 1, ns, j);
      assert ItemsText(m, d, i + 1, j, ns);
    }
  }

  lemma {:induction false} SortedIsText(m: Mode, ms: seq<Named<Value>>, k: nat, d: Bytes, i: nat, ns: seq<Named<Value>>, j: nat)
    requires SpellableMembers(m, ms, k) && ns == Sort(NormalMembers(ms))
    requires At(d, i, Canon(Obj(ms))) && j == i + |Canon(Obj(ms))|
    ensures ValueText(m, d, i, j, Obj(ns))
    decreases k, 3, 0
  {
    SortedForms(ms);
    SpellableSorted(m, ms, k);
    ObjectIsText(m, Sort(ms), k, d, i, ns, j);
  }

  lemma NumberBegins(m: Mode, d: Bytes, i: nat, j: nat, v: Value)
    requires NumberText(m, d, i, j, v)
    ensures i < |d|
  {
    var from: nat, to: nat, f: nat :| NumberParts(m, d, i, from, to, f, j, v);
  }

  lemma {:induction false} ItemsAreText(m: Mode, items: seq<Value>, k: nat, d: Bytes, i: nat, ns: seq<Value>, j: nat)
    requires items != [] && SpellableItems(m, items, k) && ns == NormalItems(items)
    requires At(d, i, CanonItems(items) + [RBRACKET]) && j == i + |CanonItems(items)| + 1
    ensures ItemsStand(m, d, i, j, ns)
    decreases k, 1, |items|
  {
    assert ns[1..] == NormalItems(items[1..]);
    var b := ItemsSplitAt(items, d, i);
    FirstItemText(m, items[0], k, d, i, ns[0], b);
    if |items| == 1 {
      LastItemText(m, d, i, b, ns);
    } else {
      var more, rest := items[1..], ns[1..];
      SpellableRest(m, items, k);
      ItemsAreText(m, more, k, d, b + 1, rest, j);
      NextItemText(m, d, i, j, b, ns, rest);
    }
  }

  lemma ItemsSplitAt(items: seq<Value>, d: Bytes, i: nat) returns (b: nat)
    requires items != [] && At(d, i, CanonItems(items) + [RBRACKET])
    ensures At(d, i, Canon(items[0])) && b == i + |Canon(items[0])| < |d|
    ensures |items| == 1 ==> d[b] == RBRACKET && |CanonItems(items)| == b - i
    ensures |items| > 1 ==> d[b] == COMMA && At(d, b + 1, CanonItems(items[1..]) + [RBRACKET])
    ensures |items| > 1 ==> |CanonItems(items)| == b - i + 1 + |CanonItems(items[1..])|
  {
    var first := Canon(items[0]);
    b := i + |first|;
    if |items| == 1 { LastSplit(first, RBRACKET, d, i); } else { CommaSplit(first, CanonItems(items[1..]), RBRACKET, d, i); }
  }

  lemma {:induction false} FirstItemText(m: Mode, v: Value, k: nat, d: Bytes, i: nat, nv: Value, j: nat)
    requires Spellable(m, v) && NestsWithin(v, k) && At(d, i, Canon(v)) && nv == Normal(v) && j == i + |Canon(v)|
    ensures ItemStands(m, d, i, j, nv)
    decreases k, 0, 1
  {
    CanonIsText(m, v, k, d, i, nv, j);
  }

  lemma LastItemText(m: Mode, d: Bytes, i: nat, b: nat, ns: seq<Value>)
    requires |ns| == 1 && i <= |d| && ItemStands(m, d, i, b, ns[0]) && b < |d| && d[b] == RBRACKET
    ensures ItemsStand(m, d, i, b + 1, ns)
  {
    assert ValueText(m, d, i, b, ns[0]);
    assert ItemText(m, d, i, i, b, b, ns[0]);
  }

  lemma NextItemText(m: Mode, d: Bytes, i: nat, j: nat, b: nat, ns: seq<Value>, rest: seq<Value>)
    requires |ns| > 1 && i <= |d| && ItemStands(m, d, i, b, ns[0]) && b < |d| && d[b] == COMMA
    requires rest == ns[1..] && ItemsStand(m, d, b + 1, j, rest)
    ensures ItemsStand(m, d, i, j, ns)
  {
    assert ValueText(m, d, i, b, ns[0]) && ItemsText(m, d, b + 1, j, rest);
    assert ItemText(m, d, i, i, b, b, ns[0]);
  }

  lemma {:induction false} ObjectIsText(m: Mode, ms: seq<Named<Value>>, k: nat, d: Bytes, i: nat, ns: seq<Named<Value>>, j: nat)
    requires SpellableMembers(m, ms, k) && ns == NormalMembers(ms)
    requires At(d, i, [LBRACE] + Join(CanonMembers(ms)) + [RBRACE]) && j == i + |Join(CanonMembers(ms))| + 2
    ensures ValueText(m, d, i, j, Obj(ns))
    decreases k, 2, 0
  {
    Regroup([LBRACE], Join(CanonMembers(ms)), RBRACE, d, i);
    AtByte(d, i, [LBRACE], 0);
    if ms == [] {
      LastSplit([], RBRACE, d, i + 1);
    } else {
      MembersAreText(m, ms, k, d, i + 1, ns, j);
      assert MembersText(m, d, i + 1, j, ns);
    }
  }

  /* Texts of a member and of some, said over a range of one end, so that a proof that only passes them
     on does not read them again. */

  ghost predicate MemberTo(m: Mode, d: Bytes, i: nat, c: nat, p: Named<Value>) {
    exists a: nat :: NameText(d, i, a, p.name) && ValueText(m, d, a, c, p.value)
  }

  ghost predicate MemberStands(m: Mode, d: Bytes, i: nat, c: nat, p: Named<Value>) {
    forall z: nat :: c <= z <= c ==> MemberTo(m, d, i, z, p)
  }

  ghost predicate MembersStand(m: Mode, d: Bytes, i: nat, j: nat, ns: seq<Named<Value>>) {
    ns != [] && forall z: nat :: j <= z <= j ==> MembersText(m, d, i, z, ns)
  }

  ghost predicate ItemStands(m: Mode, d: Bytes, i: nat, b: nat, v: Value) {
    forall z: nat :: b <= z <= b ==> ValueText(m, d, i, z, v)
  }

  ghost predicate ItemsStand(m: Mode, d: Bytes, i: nat, j: nat, ns: seq<Value>) {
    ns != [] && forall z: nat :: j <= z <= j ==> ItemsText(m, d, i, z, ns)
  }

  lemma {:induction false} MembersAreText(m: Mode, ms: seq<Named<Value>>, k: nat, d: Bytes, i: nat, ns: seq<Named<Value>>, j: nat)
    requires ms != [] && SpellableMembers(m, ms, k) && ns == NormalMembers(ms)
    requires At(d, i, Join(CanonMembers(ms)) + [RBRACE]) && j == i + |Join(CanonMembers(ms))| + 1
    ensures MembersStand(m, d, i, j, ns)
    decreases k, 1, |ms|
  {
    var c := FirstMemberText(m, ms, k, d, i, ns);
    if |ms| == 1 {
      LastMemberText(m, d, i, c, ns);
    } else {
      var more, rest := ms[1..], ns[1..];
      SpellableRestMembers(m, ms, k);
      MembersAreText(m, more, k, d, c + 1, rest, j);
      NextMemberText(m, d, i, j, c, ns, rest);
    }
  }

  lemma {:induction false} FirstMemberText(m: Mode, ms: seq<Named<Value>>, k: nat, d: Bytes, i: nat, ns: seq<Named<Value>>)
    returns (c: nat)
    requires ms != [] && SpellableMembers(m, ms, k) && ns == NormalMembers(ms) && At(d, i, Join(CanonMembers(ms)) + [RBRACE])
    ensures MemberStands(m, d, i, c, ns[0]) && c < |d| && ns[1..] == NormalMembers(ms[1..])
    ensures |ms| == 1 ==> d[c] == RBRACE && |Join(CanonMembers(ms))| == c - i
    ensures |ms| > 1 ==> d[c] == COMMA && At(d, c + 1, Join(CanonMembers(ms[1..])) + [RBRACE])
    ensures |ms| > 1 ==> |Join(CanonMembers(ms))| == c - i + 1 + |Join(CanonMembers(ms[1..]))|
    decreases k, 0, 1
  {
    assert ns[0].name == ms[0].name && ns[1..] == NormalMembers(ms[1..]);
    var a;
    a, c := MembersSplitAt(ms, d, i);
    CanonIsText(m, ms[0].value, k, d, a, ns[0].value, c);
    assert MemberTo(m, d, i, c, ns[0]);
  }

  lemma LastMemberText(m: Mode, d: Bytes, i: nat, c: nat, ns: seq<Named<Value>>)
    requires |ns| == 1 && MemberStands(m, d, i, c, ns[0]) && c < |d| && d[c] == RBRACE
    ensures MembersStand(m, d, i, c + 1, ns)
  {
    assert MemberTo(m, d, i, c, ns[0]);
    var a: nat :| NameText(d, i, a, ns[0].name) && ValueText(m, d, a, c, ns[0].value);
    assert MemberText(m, d, i, a, c, c, ns[0].name, ns[0].value);
  }

  lemma NextMemberText(m: Mode, d: Bytes, i: nat, j: nat, c: nat, ns: seq<Named<Value>>, rest: seq<Named<Value>>)
    requires |ns| > 1 && MemberStands(m, d, i, c, ns[0]) && c < |d| && d[c] == COMMA
    requires rest == ns[1..] && MembersStand(m, d, c + 1, j, rest)
    ensures MembersStand(m, d, i, j, ns)
  {
    assert MemberTo(m, d, i, c, ns[0]) && MembersText(m, d, c + 1, j, rest);
    var a: nat :| NameText(d, i, a, ns[0].name) && ValueText(m, d, a, c, ns[0].value);
    assert MemberText(m, d, i, a, c, c, ns[0].name, ns[0].value);
  }

  lemma MembersSplitAt(ms: seq<Named<Value>>, d: Bytes, i: nat) returns (a: nat, c: nat)
    requires ms != [] && At(d, i, Join(CanonMembers(ms)) + [RBRACE])
    ensures NameText(d, i, a, ms[0].name) && At(d, a, Canon(ms[0].value)) && c == a + |Canon(ms[0].value)| < |d|
    ensures |ms| == 1 ==> d[c] == RBRACE && |Join(CanonMembers(ms))| == c - i
    ensures |ms| > 1 ==> d[c] == COMMA && At(d, c + 1, Join(CanonMembers(ms[1..])) + [RBRACE])
    ensures |ms| > 1 ==> |Join(CanonMembers(ms))| == c - i + 1 + |Join(CanonMembers(ms[1..]))|
  {
    var ps := CanonMembers(ms);
    var first := Part(ps[0]);
    c := i + |first|;
    assert ps[1..] == CanonMembers(ms[1..]);
    if |ms| == 1 { LastSplit(first, RBRACE, d, i); } else { CommaSplit(first, Join(ps[1..]), RBRACE, d, i); }
    a := PartIsName(ps[0], d, i);
  }

  lemma PartIsName(p: Named<Bytes>, d: Bytes, i: nat) returns (a: nat)
    requires At(d, i, Part(p))
    ensures NameText(d, i, a, p.name) && At(d, a, p.value) && a + |p.value| == i + |Part(p)|
  {
    var name := CanonString(p.name);
    assert Part(p) == name + ([COLON] + p.value);
    AtConcat(d, i, name, [COLON] + p.value);
    StringText(d, i, p.name);
    var b := i + |name|;
    AtConcat(d, b, [COLON], p.value);
    AtByte(d, b, [COLON], 0);
    a := b + 1;
    assert NameParts(d, i, i, b, b, a);
  }

  /* ---------- What the bytes read back as ---------- */

  lemma NamesSorted(ms: seq<Named<Value>>)
    requires DistinctNames(ms)
    ensures DistinctNames(Sort(NormalMembers(ms)))
  {
    var ns := NormalMembers(ms);
    forall i, j | 0 <= i < j < |ns| ensures ns[i].name != ns[j].name { assert ms[i].name != ms[j].name; }
    SortAscends(ns);
    AscendingDistinct(Sort(ns));
  }

  /** Sorting members keeps a value well formed, and as deep. */
  lemma {:induction false} NormalBounded(v: Value, k: nat)
    requires Bounded(v, k)
    ensures Bounded(Normal(v), k)
    decreases v
  {
    match v
    case Arr(items) =>
      forall i | 0 <= i < |items| ensures Bounded(NormalItems(items)[i], k - 1) { NormalBounded(items[i], k - 1); }
    case Obj(ms) =>
      var ns := NormalMembers(ms);
      NamesSorted(ms);
      forall i | 0 <= i < |ms| ensures Bounded(ns[i].value, k - 1) { NormalBounded(ms[i].value, k - 1); }
      SortedBounded(ns, k - 1);
      assert Normal(v) == Obj(Sort(ns));
      ObjectBounded(Sort(ns), k);
    case _ =>
  }

  lemma SortedBounded(ns: seq<Named<Value>>, k: nat)
    requires forall i :: 0 <= i < |ns| ==> Bounded(ns[i].value, k)
    ensures forall i :: 0 <= i < |Sort(ns)| ==> Bounded(Sort(ns)[i].value, k)
  {
    SortMembers(ns);
    forall i | 0 <= i < |Sort(ns)| ensures Bounded(Sort(ns)[i].value, k) { assert Sort(ns)[i] in ns; }
  }

  lemma ObjectBounded(ms: seq<Named<Value>>, k: nat)
    requires k > 0 && DistinctNames(ms) && forall i :: 0 <= i < |ms| ==> Bounded(ms[i].value, k - 1)
    ensures Bounded(Obj(ms), k)
  {
    assert forall i :: 0 <= i < |ms| ==> WellFormed(ms[i].value) && NestsWithin(ms[i].value, k - 1);
  }

  /** Under any setting without a budget: what is written of a value whose numbers the setting reads
      is read back as that value, its members sorted. */
  lemma WrittenReadsBack(m: Mode, v: Value)
    requires m.maxValues == 0 && Spellable(m, v) && Bounded(v, MAX_NESTING)
    ensures Document(m, Canon(v)) == Ok(Normal(v))
  {
    var d := Canon(v);
    assert At(d, 0, d);
    CanonIsText(m, v, MAX_NESTING, d, 0, Normal(v), |d|);
    assert DocumentParts(m, d, 0, |d|, Normal(v));
    NormalBounded(v, MAX_NESTING);
    DocumentReads(m, d, Normal(v));
  }

  lemma {:induction false} DomainSpellable(v: Value)
    requires Canonical(v) && WellFormed(v)
    ensures Spellable(JSON, v)
  {
    match v
    case Int(n) => IntText(JSON, n);
    case Arr(items) => forall i | 0 <= i < |items| ensures Spellable(JSON, items[i]) { DomainSpellable(items[i]); }
    case Obj(ms) => forall i | 0 <= i < |ms| ensures Spellable(JSON, ms[i].value) { DomainSpellable(ms[i].value); }
    case _ =>
  }

  /** Parsing the canonical bytes of any value of the domain gives that value back. */
  lemma CanonRoundTrip(v: Value)
    requires InDomain(v)
    ensures Document(JSON, Canon(v)) == Ok(Normal(v))
  {
    DomainSpellable(v);
    WrittenReadsBack(JSON, v);
  }
}
