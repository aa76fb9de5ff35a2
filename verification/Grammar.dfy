/** JSON text (RFC 8259) as a relation between bytes and the value they spell, stated without a
    reader: which bytes of d, from i to j, are a text of which value. */
module Grammar {
  import opened Wrappers
  import opened Utf8
  import opened Json
  import opened Parser

  predicate Space(d: Bytes, i: nat, j: nat) { i <= j <= |d| && forall k :: i <= k < j ==> d[k] == 0x20 || d[k] == 0x09 || d[k] == 0x0A || d[k] == 0x0D }

  predicate DigitsText(d: Bytes, i: nat, j: nat) { i < j <= |d| && forall k :: i <= k < j ==> 0x30 <= d[k] <= 0x39 }

  /* ---------- Strings ---------- */

  predicate ShortEscape(e: Byte, c: Scalar) {
    (e == QUOTE && c == 0x22) || (e == BACKSLASH && c == 0x5C) || (e == 0x2F && c == 0x2F) || (e == 0x62 && c == 0x08)
    || (e == 0x66 && c == 0x0C) || (e == 0x6E && c == 0x0A) || (e == 0x72 && c == 0x0D) || (e == 0x74 && c == 0x09)
  }

  predicate Plain(d: Bytes, i: nat, j: nat, c: Scalar) {
    c >= 0x20 && c != 0x22 && c != 0x5C && At(d, i, Encode(c)) && j == i + |Encode(c)|
  }

  predicate Escaped(d: Bytes, i: nat, j: nat, c: Scalar) { i + 1 < |d| && d[i] == BACKSLASH && j == i + 2 && ShortEscape(d[i + 1], c) }

  /** A \u escape of four hex digits. */
  predicate UnitAt(d: Bytes, i: nat, u: int) { i + 6 <= |d| && d[i] == BACKSLASH && d[i + 1] == 0x75 && Hex4(d, i + 2) == Some(u) }

  /** A hex digit in either case. */
  predicate HexDigitOf(b: Byte, x: int) {
    (0x30 <= b <= 0x39 && x == b - 0x30) || (0x61 <= b <= 0x66 && x == b - 0x61 + 10) || (0x41 <= b <= 0x46 && x == b - 0x41 + 10)
  }

  /** The four digits of a unit, most significant first. */
  lemma UnitDigits(d: Bytes, i: nat, w: int, x: int, y: int, z: int)
    requires i + 6 <= |d| && d[i] == BACKSLASH && d[i + 1] == 0x75
    requires 0 <= w < 16 && 0 <= x < 16 && 0 <= y < 16 && 0 <= z < 16
    ensures UnitAt(d, i, w * 0x1000 + x * 0x100 + y * 0x10 + z) <==>
      HexDigitOf(d[i + 2], w) && HexDigitOf(d[i + 3], x) && HexDigitOf(d[i + 4], y) && HexDigitOf(d[i + 5], z)
  {
    var a, b, c, e := HexValue(d[i + 2]), HexValue(d[i + 3]), HexValue(d[i + 4]), HexValue(d[i + 5]);
    if a.Some? && b.Some? && c.Some? && e.Some? { SameDigits(w, x, y, z, a.value, b.value, c.value, e.value); }
  }

  lemma SameDigits(w: int, x: int, y: int, z: int, a: int, b: int, c: int, e: int)
    requires 0 <= w < 16 && 0 <= x < 16 && 0 <= y < 16 && 0 <= z < 16 && 0 <= a < 16 && 0 <= b < 16 && 0 <= c < 16 && 0 <= e < 16
    ensures w * 0x1000 + x * 0x100 + y * 0x10 + z == ((a * 16 + b) * 16 + c) * 16 + e <==> w == a && x == b && y == c && z == e
  {
  }

  predicate Unit(d: Bytes, i: nat, j: nat, c: Scalar) { UnitAt(d, i, c) && j == i + 6 }

  /** Two \u escapes, the surrogate pair of a scalar beyond U+FFFF. */
  predicate Pair(d: Bytes, i: nat, j: nat, c: Scalar) {
    c >= 0x10000 && UnitAt(d, i, 0xD800 + (c - 0x10000) / 0x400) && UnitAt(d, i + 6, 0xDC00 + (c - 0x10000) % 0x400) && j == i + 12
  }

  predicate CharText(d: Bytes, i: nat, j: nat, c: Scalar) { Plain(d, i, j, c) || Escaped(d, i, j, c) || Unit(d, i, j, c) || Pair(d, i, j, c) }

  /** The characters and the closing quote. */
  ghost predicate CharsText(d: Bytes, i: nat, j: nat, s: Text)
    decreases |s|
  {
    if s == [] then i < |d| && d[i] == QUOTE && j == i + 1
    else exists k: nat :: CharText(d, i, k, s[0]) && CharsText(d, k, j, s[1..])
  }

  /* ---------- Numbers ---------- */

  predicate IntegerText(m: Mode, d: Bytes, i: nat, from: nat, to: nat) {
    && (from == i || (i < |d| && d[i] == MINUS && !m.unsigned && from == i + 1))
    && DigitsText(d, from, to) && (d[from] == ZERO ==> to == from + 1)
  }

  predicate FractionText(d: Bytes, i: nat, j: nat) { j == i || (i < |d| && d[i] == 0x2E && DigitsText(d, i + 1, j)) }

  predicate ExponentText(d: Bytes, i: nat, j: nat) {
    j == i
    || (i < |d| && (d[i] == 0x65 || d[i] == 0x45)
        && (DigitsText(d, i + 1, j) || (i + 1 < |d| && (d[i + 1] == 0x2B || d[i + 1] == MINUS) && DigitsText(d, i + 2, j))))
  }

  /** An integer in the safe range is read as one, unless numbers are kept as spelled; any other
      number is kept as spelled where the setting admits it. */
  predicate NumberMeans(m: Mode, d: Bytes, i: nat, from: nat, to: nat, j: nat, v: Value)
    requires i <= from <= to <= j <= |d|
  {
    if j == to && Safe(Integer(d, i, from, to)) && !(m.anyNumber && m.spelled) then v == Int(Integer(d, i, from, to))
    else m.anyNumber && v == Number(d[i..j])
  }

  predicate NumberParts(m: Mode, d: Bytes, i: nat, from: nat, to: nat, f: nat, j: nat, v: Value) {
    && IntegerText(m, d, i, from, to) && FractionText(d, to, f) && ExponentText(d, f, j)
    && NumberMeans(m, d, i, from, to, j, v)
  }

  ghost predicate NumberText(m: Mode, d: Bytes, i: nat, j: nat, v: Value) {
    exists from: nat, to: nat, f: nat :: NumberParts(m, d, i, from, to, f, j, v)
  }

  /* ---------- Values ---------- */

  ghost predicate ValueText(m: Mode, d: Bytes, i: nat, j: nat, v: Value)
    decreases v, 2
  {
    i < |d| &&
    match v
    case Null => At(d, i, NULL) && j == i + |NULL|
    case Bool(b) => At(d, i, if b then TRUE else FALSE) && j == i + |if b then TRUE else FALSE|
    case Int(_) => NumberText(m, d, i, j, v)
    case Number(_) => NumberText(m, d, i, j, v)
    case Str(s) => d[i] == QUOTE && CharsText(d, i + 1, j, s)
    case Arr(items) => d[i] == LBRACKET && (if items == [] then EmptyText(d, i + 1, j, RBRACKET) else ItemsText(m, d, i + 1, j, items))
    case Obj(ms) => d[i] == LBRACE && (if ms == [] then EmptyText(d, i + 1, j, RBRACE) else MembersText(m, d, i + 1, j, ms))
  }

  predicate EmptyText(d: Bytes, i: nat, j: nat, close: Byte) { i < j <= |d| && Space(d, i, j - 1) && d[j - 1] == close }

  /** One element with the space around it. */
  ghost predicate ItemText(m: Mode, d: Bytes, i: nat, a: nat, b: nat, c: nat, v: Value)
    decreases v, 3
  {
    Space(d, i, a) && ValueText(m, d, a, b, v) && Space(d, b, c) && c < |d|
  }

  /** Elements with commas between them, and the closing bracket. */
  ghost predicate ItemsText(m: Mode, d: Bytes, i: nat, j: nat, items: seq<Value>)
    requires items != []
    decreases items, 0
  {
    exists a: nat, b: nat, c: nat ::
      ItemText(m, d, i, a, b, c, items[0])
      && if |items| == 1 then d[c] == RBRACKET && j == c + 1 else d[c] == COMMA && ItemsText(m, d, c + 1, j, items[1..])
  }

  predicate NameParts(d: Bytes, i: nat, a: nat, b: nat, c: nat, e: nat) {
    Space(d, i, a) && a < |d| && d[a] == QUOTE && Space(d, b, c) && c < |d| && d[c] == COLON && Space(d, c + 1, e)
  }

  /** A member's name, and the colon, with the space around them. */
  ghost predicate NameText(d: Bytes, i: nat, e: nat, name: Text) {
    exists a: nat, b: nat, c: nat :: NameParts(d, i, a, b, c, e) && CharsText(d, a + 1, b, name)
  }

  ghost predicate MemberText(m: Mode, d: Bytes, i: nat, a: nat, b: nat, c: nat, name: Text, v: Value)
    decreases v, 3
  {
    NameText(d, i, a, name) && ValueText(m, d, a, b, v) && Space(d, b, c) && c < |d|
  }

  ghost predicate MembersText(m: Mode, d: Bytes, i: nat, j: nat, ms: seq<Named<Value>>)
    requires ms != []
    decreases ms, 0
  {
    exists a: nat, b: nat, c: nat ::
      MemberText(m, d, i, a, b, c, ms[0].name, ms[0].value)
      && if |ms| == 1 then d[c] == RBRACE && j == c + 1 else d[c] == COMMA && MembersText(m, d, c + 1, j, ms[1..])
  }

  ghost predicate DocumentParts(m: Mode, d: Bytes, i: nat, j: nat, v: Value) {
    Space(d, 0, i) && ValueText(m, d, i, j, v) && Space(d, j, |d|)
  }

  /** The whole of the bytes is one JSON text of the value. */
  ghost predicate DocumentText(m: Mode, d: Bytes, v: Value) { exists i: nat, j: nat :: DocumentParts(m, d, i, j, v) }
}
