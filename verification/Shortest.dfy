/** Which of a value's texts is the canonical one: the shortest there is, its hex digits in lower case
    (go/canon.go). */
module Shortest {
  import opened Wrappers
  import opened Utf8
  import opened Json
  import opened Parser
  import opened Grammar
  import opened Sorting
  import opened RoundTrip
  import opened Pointers
  import opened CanonTheorems

  /** The same bytes, but that a letter a to f may stand in upper case. */
  predicate UpToHexCase(d: Bytes, i: nat, c: Bytes) {
    i + |c| <= |d| && forall k :: 0 <= k < |c| ==> d[i + k] == c[k] || (0x61 <= c[k] <= 0x66 && d[i + k] == c[k] - 0x20)
  }

  /** c is as short as the bytes from i to j, and where they are as short as c, they are c. */
  predicate Least(d: Bytes, i: nat, j: nat, c: Bytes) {
    i <= j <= |d| && |c| <= j - i && (j - i == |c| ==> UpToHexCase(d, i, c))
  }

  lemma LeastJoin(d: Bytes, i: nat, k: nat, j: nat, a: Bytes, b: Bytes)
    requires Least(d, i, k, a) && Least(d, k, j, b)
    ensures Least(d, i, j, a + b)
  {
    if j - i == |a + b| {
      forall x | 0 <= x < |a + b|
        ensures d[i + x] == (a + b)[x] || (0x61 <= (a + b)[x] <= 0x66 && d[i + x] == (a + b)[x] - 0x20)
      {
        if x >= |a| { assert (a + b)[x] == b[x - |a|] && d[k + (x - |a|)] == d[i + x]; }
      }
    }
  }

  /** Bytes more on either side keep it least. */
  lemma LeastWithin(d: Bytes, i: nat, a: nat, b: nat, j: nat, c: Bytes)
    requires i <= a && b <= j <= |d| && Least(d, a, b, c)
    ensures Least(d, i, j, c)
  {
  }

  lemma LeastSame(d: Bytes, i: nat, c: Bytes)
    requires At(d, i, c)
    ensures Least(d, i, i + |c|, c)
  {
  }

  lemma LeastByte(d: Bytes, i: nat, b: Byte)
    requires i < |d| && d[i] == b
    ensures Least(d, i, i + 1, [b])
  {
  }

  /* ---------- Strings ---------- */

  /** The bytes of a character are the shortest text of it; no other is as short, but for the case of a
      hex letter. So a character that may stand plain does, and a solidus is never escaped. */
  lemma ShortestCharacter(d: Bytes, i: nat, j: nat, c: Scalar)
    requires CharText(d, i, j, c)
    ensures |Escape(c)| <= j - i && (j - i == |Escape(c)| ==> UpToHexCase(d, i, Escape(c)))
    ensures Least(d, i, j, Escape(c))
  {
    if Plain(d, i, j, c) {
      assert Escape(c) == Encode(c);
    } else if Unit(d, i, j, c) && |Escape(c)| == 6 {
      HexCase(d, i, c);
    }
  }

  lemma HexCase(d: Bytes, i: nat, c: Scalar)
    requires UnitAt(d, i, c) && c < 0x20 && |Escape(c)| == 6
    ensures UpToHexCase(d, i, Escape(c))
  {
    var e := Escape(c);
    var h := Hex4(d, i + 2).value;
    var h0, h1, h2, h3 := HexValue(d[i + 2]).value, HexValue(d[i + 3]).value, HexValue(d[i + 4]).value, HexValue(d[i + 5]).value;
    assert h == ((h0 * 16 + h1) * 16 + h2) * 16 + h3;
    assert h0 == 0 && h1 == 0 && h2 == c / 16 && h3 == c % 16;
    assert HexDigit(0) == ZERO;
    OneHexCase(d[i + 2], 0);
    OneHexCase(d[i + 3], 0);
    OneHexCase(d[i + 4], c / 16);
    OneHexCase(d[i + 5], c % 16);
    assert e == [BACKSLASH, 0x75, HexDigit(0), HexDigit(0), HexDigit(c / 16), HexDigit(c % 16)];
  }

  lemma OneHexCase(b: Byte, x: int)
    requires 0 <= x < 16 && HexValue(b) == Some(x)
    ensures b == HexDigit(x) || (0x61 <= HexDigit(x) <= 0x66 && b == HexDigit(x) - 0x20)
  {
  }

  lemma {:induction false} ShortestCharacters(d: Bytes, i: nat, j: nat, s: Text)
    requires CharsText(d, i, j, s)
    ensures Least(d, i, j, EscapeAll(s) + [QUOTE])
    decreases |s|
  {
    if s == [] {
      LeastByte(d, i, QUOTE);
      assert [] + [QUOTE] == [QUOTE];
    } else {
      var k: nat :| CharText(d, i, k, s[0]) && CharsText(d, k, j, s[1..]);
      ShortestCharacter(d, i, k, s[0]);
      ShortestCharacters(d, k, j, s[1..]);
      LeastJoin(d, i, k, j, Escape(s[0]), EscapeAll(s[1..]) + [QUOTE]);
      assert Escape(s[0]) + (EscapeAll(s[1..]) + [QUOTE]) == EscapeAll(s) + [QUOTE];
    }
  }

  lemma ShortestString(d: Bytes, i: nat, j: nat, s: Text)
    requires i < |d| && d[i] == QUOTE && CharsText(d, i + 1, j, s)
    ensures Least(d, i, j, CanonString(s))
  {
    LeastByte(d, i, QUOTE);
    ShortestCharacters(d, i + 1, j, s);
    LeastJoin(d, i, i + 1, j, [QUOTE], EscapeAll(s) + [QUOTE]);
    assert [QUOTE] + (EscapeAll(s) + [QUOTE]) == CanonString(s);
  }

  /* ---------- Numbers ---------- */

  lemma ShortestNumber(m: Mode, d: Bytes, i: nat, j: nat, v: Value)
    requires NumberText(m, d, i, j, v)
    ensures Least(d, i, j, Canon(v))
  {
    var from: nat, to: nat, f: nat :| NumberParts(m, d, i, from, to, f, j, v);
    if v.Number? { assert At(d, i, d[i..j]); } else { ShortestInteger(d, i, from, to, v.n); }
  }

  lemma ShortestInteger(d: Bytes, i: nat, from: nat, to: nat, n: int)
    requires from == i || (i < |d| && d[i] == MINUS && from == i + 1)
    requires DigitsText(d, from, to) && (d[from] == ZERO ==> to == from + 1) && n == Integer(d, i, from, to)
    ensures Least(d, i, to, CanonInt(n))
  {
    var ds := d[from..to];
    assert forall k :: 0 <= k < |ds| ==> ds[k] == d[from + k];
    DecimalBack(ds);
    LeastSame(d, from, ds);
    if from == i + 1 && n < 0 {
      LeastByte(d, i, MINUS);
      LeastJoin(d, i, from, to, [MINUS], ds);
    } else if from == i + 1 {
      LeastWithin(d, i, from, to, to, ds);
    }
  }

  /* ---------- Values ---------- */

  /** Every object's members are in code point order of their names. */
  predicate Ordered(v: Value) {
    match v
    case Arr(items) => forall i :: 0 <= i < |items| ==> Ordered(items[i])
    case Obj(ms) => Ascending(ms) && forall i :: 0 <= i < |ms| ==> Ordered(ms[i].value)
    case _ => true
  }

  predicate OrderedItems(items: seq<Value>) { forall i :: 0 <= i < |items| ==> Ordered(items[i]) }

  predicate OrderedMembers(ms: seq<Named<Value>>) { forall i :: 0 <= i < |ms| ==> Ordered(ms[i].value) }

  /** Every text of a member-sorted value is at least as long as its canonical bytes, and one as long is
      those bytes, but for the case of hex letters in escapes. */
  lemma {:induction false} ShortestText(m: Mode, d: Bytes, i: nat, j: nat, v: Value)
    requires ValueText(m, d, i, j, v) && Ordered(v)
    ensures Least(d, i, j, Canon(v))
    decreases v, 2
  {
    match v
    case Null => LeastSame(d, i, NULL);
    case Bool(b) => LeastSame(d, i, if b then TRUE else FALSE);
    case Int(_) => ShortestNumber(m, d, i, j, v);
    case Number(_) => ShortestNumber(m, d, i, j, v);
    case Str(s) => ShortestString(d, i, j, s);
    case Arr(items) => ShortestArray(m, d, i, j, items);
    case Obj(ms) => ShortestObject(m, d, i, j, ms);
  }

  lemma LeastEmpty(d: Bytes, i: nat, j: nat, close: Byte)
    requires EmptyText(d, i, j, close)
    ensures Least(d, i, j, [close])
  {
    LeastByte(d, j - 1, close);
    LeastWithin(d, i, j - 1, j, j, [close]);
  }

  lemma {:induction false} ShortestArray(m: Mode, d: Bytes, i: nat, j: nat, items: seq<Value>)
    requires ValueText(m, d, i, j, Arr(items)) && OrderedItems(items)
    ensures Least(d, i, j, Canon(Arr(items)))
    decreases items, 1
  {
    LeastByte(d, i, LBRACKET);
    if items == [] {
      LeastEmpty(d, i + 1, j, RBRACKET);
      assert [] + [RBRACKET] == [RBRACKET];
    } else {
      ShortestItems(m, d, i + 1, j, items);
    }
    LeastJoin(d, i, i + 1, j, [LBRACKET], CanonItems(items) + [RBRACKET]);
    assert [LBRACKET] + (CanonItems(items) + [RBRACKET]) == Canon(Arr(items));
  }

  lemma {:induction false} ShortestItems(m: Mode, d: Bytes, i: nat, j: nat, items: seq<Value>)
    requires items != [] && ItemsText(m, d, i, j, items) && OrderedItems(items)
    ensures Least(d, i, j, CanonItems(items) + [RBRACKET])
    decreases items, 0
  {
    var a, b, c := FirstItem(m, d, i, j, items);
    var first, rest := items[0], items[1..];
    ShortestText(m, d, a, b, first);
    LeastWithin(d, i, a, b, c, Canon(first));
    LeastByte(d, c, d[c]);
    if |items| == 1 {
      LeastJoin(d, i, c, j, Canon(first), [RBRACKET]);
    } else {
      ShortestItems(m, d, c + 1, j, rest);
      LeastJoin(d, i, c, c + 1, Canon(first), [COMMA]);
      LeastJoin(d, i, c + 1, j, Canon(first) + [COMMA], CanonItems(rest) + [RBRACKET]);
      assert Canon(first) + [COMMA] + (CanonItems(rest) + [RBRACKET]) == CanonItems(items) + [RBRACKET];
    }
  }

  lemma FirstItem(m: Mode, d: Bytes, i: nat, j: nat, items: seq<Value>) returns (a: nat, b: nat, c: nat)
    requires items != [] && ItemsText(m, d, i, j, items)
    ensures i <= a && b <= c < |d| && ValueText(m, d, a, b, items[0])
    ensures if |items| == 1 then d[c] == RBRACKET && j == c + 1 else d[c] == COMMA && ItemsText(m, d, c + 1, j, items[1..])
  {
    a, b, c :| ItemText(m, d, i, a, b, c, items[0])
      && if |items| == 1 then d[c] == RBRACKET && j == c + 1 else d[c] == COMMA && ItemsText(m, d, c + 1, j, items[1..]);
  }

  lemma {:induction false} ShortestObject(m: Mode, d: Bytes, i: nat, j: nat, ms: seq<Named<Value>>)
    requires ValueText(m, d, i, j, Obj(ms)) && OrderedMembers(ms) && Ascending(ms)
    ensures Least(d, i, j, Canon(Obj(ms)))
    decreases ms, 1
  {
    var bytes := Join(CanonMembers(ms));
    LeastByte(d, i, LBRACE);
    if ms == [] {
      LeastEmpty(d, i + 1, j, RBRACE);
      assert [] + [RBRACE] == [RBRACE];
    } else {
      ShortestMembers(m, d, i + 1, j, ms);
    }
    LeastJoin(d, i, i + 1, j, [LBRACE], bytes + [RBRACE]);
    SortedForms(ms);
    AscendingSorted(ms);
    assert [LBRACE] + (bytes + [RBRACE]) == Canon(Obj(ms));
  }

  lemma ShortestName(d: Bytes, i: nat, e: nat, name: Text)
    requires NameText(d, i, e, name)
    ensures Least(d, i, e, CanonString(name) + [COLON])
  {
    var a: nat, b: nat, c: nat :| NameParts(d, i, a, b, c, e) && CharsText(d, a + 1, b, name);
    ShortestString(d, a, b, name);
    LeastWithin(d, i, a, b, c, CanonString(name));
    LeastByte(d, c, COLON);
    LeastWithin(d, c, c, c + 1, e, [COLON]);
    LeastJoin(d, i, c, e, CanonString(name), [COLON]);
  }

  lemma {:induction false} ShortestMembers(m: Mode, d: Bytes, i: nat, j: nat, ms: seq<Named<Value>>)
    requires ms != [] && MembersText(m, d, i, j, ms) && OrderedMembers(ms)
    ensures Least(d, i, j, Join(CanonMembers(ms)) + [RBRACE])
    decreases ms, 0
  {
    var a, b, c := FirstMember(m, d, i, j, ms);
    var ps, rest := CanonMembers(ms), ms[1..];
    ShortestText(m, d, a, b, ms[0].value);
    LeastPart(d, i, a, b, c, ms[0].name, Canon(ms[0].value));
    LeastByte(d, c, d[c]);
    if |ms| == 1 {
      LeastJoin(d, i, c, j, Part(ps[0]), [RBRACE]);
    } else {
      ShortestMembers(m, d, c + 1, j, rest);
      MoreParts(d, i, c, j, ps, CanonMembers(rest));
    }
  }

  lemma LeastPart(d: Bytes, i: nat, a: nat, b: nat, c: nat, name: Text, value: Bytes)
    requires NameText(d, i, a, name) && Least(d, a, b, value) && b <= c < |d|
    ensures Least(d, i, c, Part(Named(name, value)))
  {
    ShortestName(d, i, a, name);
    LeastWithin(d, a, a, b, c, value);
    LeastJoin(d, i, a, c, CanonString(name) + [COLON], value);
  }

  lemma MoreParts(d: Bytes, i: nat, c: nat, j: nat, ps: seq<Named<Bytes>>, rest: seq<Named<Bytes>>)
    requires |ps| > 1 && ps[1..] == rest && Least(d, i, c, Part(ps[0])) && Least(d, c, c + 1, [COMMA])
    requires Least(d, c + 1, j, Join(rest) + [RBRACE])
    ensures Least(d, i, j, Join(ps) + [RBRACE])
  {
    LeastJoin(d, i, c, c + 1, Part(ps[0]), [COMMA]);
    LeastJoin(d, i, c + 1, j, Part(ps[0]) + [COMMA], Join(rest) + [RBRACE]);
    assert Part(ps[0]) + [COMMA] + (Join(rest) + [RBRACE]) == Join(ps) + [RBRACE];
  }

  lemma FirstMember(m: Mode, d: Bytes, i: nat, j: nat, ms: seq<Named<Value>>) returns (a: nat, b: nat, c: nat)
    requires ms != [] && MembersText(m, d, i, j, ms)
    ensures NameText(d, i, a, ms[0].name) && b <= c < |d| && ValueText(m, d, a, b, ms[0].value)
    ensures if |ms| == 1 then d[c] == RBRACE && j == c + 1 else d[c] == COMMA && MembersText(m, d, c + 1, j, ms[1..])
  {
    a, b, c :| MemberText(m, d, i, a, b, c, ms[0].name, ms[0].value)
      && if |ms| == 1 then d[c] == RBRACE && j == c + 1 else d[c] == COMMA && MembersText(m, d, c + 1, j, ms[1..]);
  }

  lemma {:induction false} NormalOrdered(v: Value)
    requires WellFormed(v)
    ensures Ordered(Normal(v))
  {
    match v
    case Arr(items) => forall i | 0 <= i < |items| ensures Ordered(NormalItems(items)[i]) { NormalOrdered(items[i]); }
    case Obj(ms) =>
      var ns := NormalMembers(ms);
      forall i | 0 <= i < |ms| ensures Ordered(ns[i].value) { NormalOrdered(ms[i].value); }
      NamesKept(ms);
      SortAscends(ns);
      SortMembers(ns);
      forall i | 0 <= i < |ns| ensures Ordered(Sort(ns)[i].value) { assert Sort(ns)[i] in ns; }
    case _ =>
  }

  /** Of all the texts of a value with its members sorted, the canonical bytes are the shortest, and no
      other is as short, but for the case of hex letters in escapes, which the canonical has in lower
      case. */
  lemma CanonIsShortest(m: Mode, d: Bytes, i: nat, j: nat, v: Value)
    requires WellFormed(v) && ValueText(m, d, i, j, Normal(v))
    ensures |Canon(v)| <= j - i && (j - i == |Canon(v)| ==> UpToHexCase(d, i, Canon(v)))
  {
    NormalOrdered(v);
    ShortestText(m, d, i, j, Normal(v));
    CanonNormal(v);
  }

  /* ---------- No white space ---------- */

  /** Where in a text a byte stands: outside strings, in one, or after a backslash in one. */
  datatype Standing = Outside | Inside | AfterBackslash

  function Past(st: Standing, b: Byte): Standing {
    match st
    case Outside => if b == QUOTE then Inside else Outside
    case Inside => if b == QUOTE then Outside else if b == BACKSLASH then AfterBackslash else Inside
    case AfterBackslash => Inside
  }

  function PastAll(st: Standing, s: Bytes): Standing
    decreases |s|
  {
    if s == [] then st else PastAll(Past(st, s[0]), s[1..])
  }

  predicate NoSpace(st: Standing, s: Bytes)
    decreases |s|
  {
    s == [] || (!(st.Outside? && IsSpace(s[0])) && NoSpace(Past(st, s[0]), s[1..]))
  }

  lemma {:induction false} PastJoin(st: Standing, a: Bytes, b: Bytes)
    ensures PastAll(st, a + b) == PastAll(PastAll(st, a), b)
    ensures NoSpace(st, a + b) <==> NoSpace(st, a) && NoSpace(PastAll(st, a), b)
    decreases |a|
  {
    if a == [] {
      assert a + b == b;
    } else {
      assert (a + b)[1..] == a[1..] + b;
      PastJoin(Past(st, a[0]), a[1..], b);
    }
  }

  lemma {:induction false} NoSpaceAt(st: Standing, s: Bytes, k: nat)
    requires NoSpace(st, s) && k < |s| && PastAll(st, s[..k]).Outside?
    ensures !IsSpace(s[k])
    decreases k
  {
    if k > 0 {
      assert s[..k][0] == s[0] && s[..k][1..] == s[1..][..k - 1];
      NoSpaceAt(Past(st, s[0]), s[1..], k - 1);
    }
  }

  /** From st back to st, and no white space outside strings on the way. */
  predicate Tight(st: Standing, s: Bytes) { NoSpace(st, s) && PastAll(st, s) == st }

  lemma TightJoin(st: Standing, a: Bytes, b: Bytes)
    requires Tight(st, a) && Tight(st, b)
    ensures Tight(st, a + b)
  {
    PastJoin(st, a, b);
  }

  lemma {:induction false} TightBytes(st: Standing, s: Bytes)
    requires !st.AfterBackslash? && forall i :: 0 <= i < |s| ==> s[i] != QUOTE && s[i] != BACKSLASH && (st.Inside? || !IsSpace(s[i]))
    ensures Tight(st, s)
  {
    if s != [] { TightBytes(st, s[1..]); }
  }

  lemma TightPair(b: Byte)
    ensures Tight(Inside, [BACKSLASH, b])
  {
    assert [BACKSLASH, b][1..] == [b] && [b][1..] == [];
    assert PastAll(AfterBackslash, [b]) == PastAll(Inside, []) && NoSpace(AfterBackslash, [b]);
  }

  lemma TightCharacter(c: Scalar)
    ensures Tight(Inside, Escape(c))
  {
    var e := Escape(c);
    if e[0] == BACKSLASH {
      TightBytes(Inside, e[2..]);
      assert e == [e[0], e[1]] + e[2..];
      TightPair(e[1]);
      TightJoin(Inside, [e[0], e[1]], e[2..]);
    } else {
      TightBytes(Inside, e);
    }
  }

  lemma {:induction false} TightCharacters(s: Text)
    ensures Tight(Inside, EscapeAll(s))
  {
    if s != [] {
      TightCharacter(s[0]);
      TightCharacters(s[1..]);
      TightJoin(Inside, Escape(s[0]), EscapeAll(s[1..]));
    }
  }

  lemma TightString(s: Text)
    ensures Tight(Outside, CanonString(s))
  {
    TightCharacters(s);
    PastJoin(Inside, EscapeAll(s), [QUOTE]);
    assert CanonString(s)[1..] == EscapeAll(s) + [QUOTE];
  }

  lemma TightInt(n: int)
    ensures Tight(Outside, CanonInt(n))
  {
    DigitsBack(if n < 0 then -n else n);
    TightBytes(Outside, CanonInt(n));
  }

  lemma {:induction false} TightValue(v: Value)
    requires Canonical(v)
    ensures Tight(Outside, Canon(v))
    decreases v, 1
  {
    match v
    case Null => TightBytes(Outside, NULL);
    case Bool(b) => TightBytes(Outside, if b then TRUE else FALSE);
    case Int(n) => TightInt(n);
    case Str(s) => TightString(s);
    case Arr(items) =>
      TightItems(items);
      TightAround(LBRACKET, CanonItems(items), RBRACKET);
    case Obj(ms) =>
      var ps := CanonMembers(ms);
      forall i | 0 <= i < |ps| ensures Tight(Outside, ps[i].value) { TightValue(ms[i].value); }
      TightParts(ps);
      TightAround(LBRACE, Join(Sort(ps)), RBRACE);
  }

  lemma TightAround(open: Byte, s: Bytes, close: Byte)
    requires Tight(Outside, s) && (open == LBRACKET || open == LBRACE) && (close == RBRACKET || close == RBRACE)
    ensures Tight(Outside, [open] + s + [close])
  {
    TightBytes(Outside, [open]);
    TightBytes(Outside, [close]);
    TightJoin(Outside, [open], s);
    TightJoin(Outside, [open] + s, [close]);
  }

  lemma {:induction false} TightItems(items: seq<Value>)
    requires forall i :: 0 <= i < |items| ==> Canonical(items[i])
    ensures Tight(Outside, CanonItems(items))
    decreases items, 0
  {
    if items != [] {
      TightValue(items[0]);
      TightItems(items[1..]);
      TightBytes(Outside, [COMMA]);
      TightJoin(Outside, Canon(items[0]), [COMMA]);
      TightJoin(Outside, Canon(items[0]) + [COMMA], CanonItems(items[1..]));
    }
  }

  lemma TightParts(ps: seq<Named<Bytes>>)
    requires forall i :: 0 <= i < |ps| ==> Tight(Outside, ps[i].value)
    ensures Tight(Outside, Join(Sort(ps)))
  {
    SortMembers(ps);
    forall i | 0 <= i < |ps| ensures Tight(Outside, Sort(ps)[i].value) { assert Sort(ps)[i] in ps; }
    TightJoined(Sort(ps));
  }

  lemma {:induction false} TightJoined(ps: seq<Named<Bytes>>)
    requires forall i :: 0 <= i < |ps| ==> Tight(Outside, ps[i].value)
    ensures Tight(Outside, Join(ps))
  {
    if ps != [] {
      TightString(ps[0].name);
      TightBytes(Outside, [COLON]);
      TightBytes(Outside, [COMMA]);
      TightJoin(Outside, CanonString(ps[0].name), [COLON]);
      TightJoin(Outside, CanonString(ps[0].name) + [COLON], ps[0].value);
      TightJoined(ps[1..]);
      TightJoin(Outside, Part(ps[0]), [COMMA]);
      TightJoin(Outside, Part(ps[0]) + [COMMA], Join(ps[1..]));
    }
  }

  /** No byte of canonical bytes that stands outside a string is white space. */
  lemma CanonHasNoSpace(v: Value, k: nat)
    requires Canonical(v) && k < |Canon(v)| && PastAll(Outside, Canon(v)[..k]) == Outside
    ensures !IsSpace(Canon(v)[k])
  {
    TightValue(v);
    NoSpaceAt(Outside, Canon(v), k);
  }
}
