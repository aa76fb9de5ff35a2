/** The parser reads nothing but texts of the grammar, and only as the value they spell: with
    GrammarReads, it decides the grammar exactly (go/canon.go). */
module GrammarTheorems {
  import opened Wrappers
  import opened Utf8
  import opened Json
  import opened Parser
  import opened Reading
  import opened Grammar
  import opened GrammarReads

  /* ---------- Strings ---------- */

  lemma PairBack(high: int, low: int)
    requires 0xD800 <= high < 0xDC00 && 0xDC00 <= low < 0xE000
    ensures var c := 0x10000 + (high - 0xD800) * 0x400 + (low - 0xDC00);
      0x10000 <= c <= 0x10FFFF && 0xD800 + (c - 0x10000) / 0x400 == high && 0xDC00 + (c - 0x10000) % 0x400 == low
  {
    Split(high - 0xD800, low - 0xDC00);
  }

  lemma Split(h: int, l: int)
    requires 0 <= l < 0x400
    ensures (h * 0x400 + l) / 0x400 == h && (h * 0x400 + l) % 0x400 == l
  {
  }

  lemma UnicodeIsText(d: Bytes, i: nat)
    requires i + 2 <= |d| && d[i] == BACKSLASH && d[i + 1] == 0x75
    ensures var r := UnicodeEscape(d, i + 2); r.Ok? ==> CharText(d, i, r.value.1, r.value.0)
  {
    var r := UnicodeEscape(d, i + 2);
    if r.Ok? {
      var u := Hex4(d, i + 2).value;
      if 0xD800 <= u < 0xE000 {
        PairBack(u, Hex4(d, i + 8).value);
        assert Pair(d, i, i + 12, r.value.0);
      } else {
        assert Unit(d, i, i + 6, r.value.0);
      }
    }
  }

  lemma PlainIsText(d: Bytes, i: nat)
    requires i < |d| && d[i] != QUOTE && d[i] != BACKSLASH && d[i] >= 0x20 && Decode(d, i).Some?
    ensures var (c, size) := Decode(d, i).value; Plain(d, i, i + size, c)
  {
    var (c, size) := Decode(d, i).value;
    EncodeDecode(d, i);
    forall k | 0 <= k < size ensures d[i + k] == Encode(c)[k] { assert d[i..i + size][k] == d[i + k]; }
    assert c == 0x22 || c == 0x5C || c < 0x20 ==> Encode(c) == [c];
  }

  lemma OneCharIsText(d: Bytes, i: nat)
    requires i < |d| && d[i] != QUOTE
    ensures var r := OneChar(d, i); r.Ok? ==> CharText(d, i, r.value.1, r.value.0)
  {
    if d[i] == BACKSLASH {
      if i + 1 < |d| && d[i + 1] == 0x75 { UnicodeIsText(d, i); }
      else if OneChar(d, i).Ok? { assert Escaped(d, i, i + 2, OneChar(d, i).value.0); }
    } else if d[i] >= 0x20 && Decode(d, i).Some? {
      PlainIsText(d, i);
    }
  }

  lemma {:induction false} StringIsText(d: Bytes, i: nat)
    ensures var r := StringRest(d, i); r.Ok? ==> CharsText(d, i, r.value.1, r.value.0)
    decreases |d| - i
  {
    if i < |d| && d[i] != QUOTE {
      var c := OneChar(d, i);
      OneCharIsText(d, i);
      if c.Ok? {
        var rest := StringRest(d, c.value.1);
        StringIsText(d, c.value.1);
        if rest.Ok? {
          var s := [c.value.0] + rest.value.0;
          assert s[1..] == rest.value.0 && StringRest(d, i) == Ok((s, rest.value.1));
          assert CharText(d, i, c.value.1, s[0]) && CharsText(d, c.value.1, rest.value.1, s[1..]);
        }
      }
    }
  }

  /* ---------- Numbers ---------- */

  lemma FractionIsText(d: Bytes, i: nat)
    requires i <= |d|
    ensures var r := FractionEnd(d, i); r.Ok? ==> FractionText(d, i, r.value)
  {
  }

  lemma ExponentIsText(d: Bytes, i: nat)
    requires i <= |d|
    ensures var r := ExponentEnd(d, i); r.Ok? ==> ExponentText(d, i, r.value)
  {
  }

  lemma NumberIsText(m: Mode, d: Bytes, i: nat)
    requires i < |d|
    ensures var r := ReadNumber(m, d, i); r.Ok? ==> NumberText(m, d, i, r.value.1, r.value.0)
  {
    var r := ReadNumber(m, d, i);
    if r.Ok? {
      var from := if d[i] == MINUS then i + 1 else i;
      var to := DigitsEnd(d, from);
      assert IntegerText(m, d, i, from, to);
      if m.anyNumber {
        var f := FractionEnd(d, to).value;
        FractionIsText(d, to);
        ExponentIsText(d, f);
        assert NumberParts(m, d, i, from, to, f, r.value.1, r.value.0);
      } else {
        assert NumberParts(m, d, i, from, to, to, to, r.value.0);
      }
    }
  }

  lemma ScalarIsText(m: Mode, d: Bytes, i: nat)
    requires i < |d|
    ensures var r := ReadScalar(m, d, i); r.Ok? ==> ValueText(m, d, i, r.value.1, r.value.0)
  {
    if d[i] == QUOTE { StringIsText(d, i + 1); }
    else if d[i] == MINUS || IsDigit(d[i]) { NumberScalar(m, d, i); }
  }

  lemma NumberScalar(m: Mode, d: Bytes, i: nat)
    requires i < |d|
    ensures var r := ReadNumber(m, d, i); r.Ok? ==> ValueText(m, d, i, r.value.1, r.value.0)
  {
    NumberIsText(m, d, i);
    assert ReadNumber(m, d, i).Ok? ==> ReadNumber(m, d, i).value.0.Int? || ReadNumber(m, d, i).value.0.Number?;
  }

  /* ---------- Values ---------- */

  lemma NameIsText(d: Bytes, i: nat, seen: set<Text>)
    requires i <= |d|
    ensures var r := ReadName(d, i, seen); r.Ok? ==> NameText(d, i, r.value.1, r.value.0)
  {
    var r := ReadName(d, i, seen);
    if r.Ok? {
      var a := SkipSpace(d, i);
      StringIsText(d, a + 1);
      NameFrom(d, i, StringRest(d, a + 1).value.1, r.value.0);
    }
  }

  lemma NameFrom(d: Bytes, i: nat, b: nat, name: Text)
    requires i <= |d| && b <= |d| && SkipSpace(d, i) < |d| && d[SkipSpace(d, i)] == QUOTE
    requires CharsText(d, SkipSpace(d, i) + 1, b, name) && SkipSpace(d, b) < |d| && d[SkipSpace(d, b)] == COLON
    ensures NameText(d, i, SkipSpace(d, SkipSpace(d, b) + 1), name)
  {
    var a, c := SkipSpace(d, i), SkipSpace(d, b);
    SkippedIsSpace(d, i);
    SkippedIsSpace(d, b);
    SkippedIsSpace(d, c + 1);
    assert NameParts(d, i, a, b, c, SkipSpace(d, c + 1));
  }

  /** What the elements read are a text of, from the text of the first and of the rest. */
  lemma ItemsTextFrom(m: Mode, d: Bytes, i: nat, v: Parsed<Value>, rest: Result<Parsed<seq<Value>>>)
    requires i <= |d| && v.pos <= |d| && ValueText(m, d, SkipSpace(d, i), v.pos, v.value)
    requires MoreAfter(d, Ok(v)) && rest.Ok? ==>
      rest.value.value != [] && ItemsText(m, d, SkipSpace(d, v.pos) + 1, rest.value.pos, rest.value.value)
    ensures var r := ItemsFrom(d, Ok(v), rest); r.Ok? ==> r.value.value != [] && ItemsText(m, d, i, r.value.pos, r.value.value)
  {
    var r, c := ItemsFrom(d, Ok(v), rest), SkipSpace(d, v.pos);
    SkippedIsSpace(d, i);
    SkippedIsSpace(d, v.pos);
    if r.Ok? {
      var all := r.value.value;
      assert ItemText(m, d, i, SkipSpace(d, i), v.pos, c, all[0]);
      if d[c] == COMMA { assert all[1..] == rest.value.value; }
    }
  }

  lemma MembersTextFrom(m: Mode, d: Bytes, i: nat, name: Text, at: nat, v: Parsed<Value>, rest: Result<Parsed<seq<Named<Value>>>>)
    requires i <= |d| && v.pos <= |d| && NameText(d, i, at, name) && ValueText(m, d, at, v.pos, v.value)
    requires MoreAfter(d, Ok(v)) && rest.Ok? ==>
      rest.value.value != [] && MembersText(m, d, SkipSpace(d, v.pos) + 1, rest.value.pos, rest.value.value)
    ensures var r := MembersFrom(d, name, Ok(v), rest); r.Ok? ==> r.value.value != [] && MembersText(m, d, i, r.value.pos, r.value.value)
  {
    var r, c := MembersFrom(d, name, Ok(v), rest), SkipSpace(d, v.pos);
    SkippedIsSpace(d, v.pos);
    if r.Ok? {
      var all := r.value.value;
      assert MemberText(m, d, i, at, v.pos, c, all[0].name, all[0].value);
      if d[c] == COMMA { assert all[1..] == rest.value.value; }
    }
  }

  /** Space before the first element is part of the container's text. */
  lemma ItemsSpaced(m: Mode, d: Bytes, i: nat, j: nat, items: seq<Value>)
    requires i <= |d| && items != [] && ItemsText(m, d, SkipSpace(d, i), j, items)
    ensures ItemsText(m, d, i, j, items)
  {
    var p := SkipSpace(d, i);
    var a: nat, b: nat, c: nat :| ItemText(m, d, p, a, b, c, items[0])
      && if |items| == 1 then d[c] == RBRACKET && j == c + 1 else d[c] == COMMA && ItemsText(m, d, c + 1, j, items[1..]);
    SpaceJoined(d, i, p, a);
    assert ItemText(m, d, i, a, b, c, items[0]);
  }

  lemma SpaceJoined(d: Bytes, i: nat, p: nat, a: nat)
    requires i <= |d| && p == SkipSpace(d, i) && Space(d, p, a)
    ensures Space(d, i, a)
  {
    SkippedIsSpace(d, i);
    forall k | i <= k < a ensures IsSpace(d[k]) { if k < p { assert IsSpace(d[k]); } }
  }

  lemma MembersSpaced(m: Mode, d: Bytes, i: nat, j: nat, ms: seq<Named<Value>>)
    requires i <= |d| && ms != [] && MembersText(m, d, SkipSpace(d, i), j, ms)
    ensures MembersText(m, d, i, j, ms)
  {
    var p := SkipSpace(d, i);
    var a: nat, b: nat, c: nat :| MemberText(m, d, p, a, b, c, ms[0].name, ms[0].value)
      && if |ms| == 1 then d[c] == RBRACE && j == c + 1 else d[c] == COMMA && MembersText(m, d, c + 1, j, ms[1..]);
    var q: nat, r: nat, t: nat :| NameParts(d, p, q, r, t, a) && CharsText(d, q + 1, r, ms[0].name);
    SpaceJoined(d, i, p, q);
    assert NameParts(d, i, q, r, t, a);
    assert NameText(d, i, a, ms[0].name);
    assert MemberText(m, d, i, a, b, c, ms[0].name, ms[0].value);
  }

  lemma ArrayText(m: Mode, d: Bytes, i: nat, values: nat, items: Result<Parsed<seq<Value>>>)
    requires i < |d| && d[i] == LBRACKET
    requires items.Ok? ==> items.value.value != [] && ItemsText(m, d, SkipSpace(d, i + 1), items.value.pos, items.value.value)
    ensures var r := ArrayFrom(d, i + 1, values, items); r.Ok? ==> ValueText(m, d, i, r.value.pos, r.value.value)
  {
    SkippedIsSpace(d, i + 1);
    if items.Ok? { ItemsSpaced(m, d, i + 1, items.value.pos, items.value.value); }
  }

  lemma ObjectText(m: Mode, d: Bytes, i: nat, values: nat, ms: Result<Parsed<seq<Named<Value>>>>)
    requires i < |d| && d[i] == LBRACE
    requires ms.Ok? ==> ms.value.value != [] && MembersText(m, d, SkipSpace(d, i + 1), ms.value.pos, ms.value.value)
    ensures var r := ObjectFrom(d, i + 1, values, ms); r.Ok? ==> ValueText(m, d, i, r.value.pos, r.value.value)
  {
    SkippedIsSpace(d, i + 1);
    if ms.Ok? { MembersSpaced(m, d, i + 1, ms.value.pos, ms.value.value); }
  }
}
