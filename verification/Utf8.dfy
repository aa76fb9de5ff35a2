/** Unicode scalar values and their UTF-8 bytes (RFC 3629), with the byte order Go's string
    comparison uses. */
module Utf8 {
  import opened Wrappers

  type Byte = b: int | 0 <= b < 0x100
  type Bytes = seq<Byte>
  type Scalar = c: int | 0 <= c < 0xD800 || 0xE000 <= c <= 0x10FFFF
  type Text = seq<Scalar>

  /** The text of a literal. */
  function Ascii(s: string): Text { seq(|s|, i requires 0 <= i < |s| => s[i] as int) }

  function Encode(c: Scalar): (bytes: Bytes)
    ensures 1 <= |bytes| <= 4
  {
    var c1 := c / 0x40;
    var c2 := c1 / 0x40;
    var c3 := c2 / 0x40;
    if c < 0x80 then [c]
    else if c < 0x800 then [0xC0 + c1, 0x80 + c % 0x40]
    else if c < 0x10000 then [0xE0 + c2, 0x80 + c1 % 0x40, 0x80 + c % 0x40]
    else [0xF0 + c3, 0x80 + c2 % 0x40, 0x80 + c1 % 0x40, 0x80 + c % 0x40]
  }

  function EncodeAll(s: Text): Bytes {
    if s == [] then [] else Encode(s[0]) + EncodeAll(s[1..])
  }

  /* ---------- Decoding one scalar (utf8.DecodeRune) ---------- */

  predicate InRange(d: Bytes, i: nat, lo: int, hi: int) { i < |d| && lo <= d[i] <= hi }

  predicate Continues(d: Bytes, i: nat) { InRange(d, i, 0x80, 0xBF) }

  /** The scalar at pos and its size, or none for bytes that are not UTF-8: a stray or
      missing continuation, an overlong form, a surrogate, a value past U+10FFFF. */
  function Decode(d: Bytes, pos: nat): (r: Option<(Scalar, nat)>)
    requires pos < |d|
    ensures r.Some? ==> 1 <= r.value.1 && pos + r.value.1 <= |d|
  {
    var b: int := d[pos];
    if b < 0x80 then Some((b, 1))
    else if 0xC2 <= b <= 0xDF then
      if Continues(d, pos + 1) then Some(((b - 0xC0) * 0x40 + Low(d, pos + 1), 2)) else None
    else if 0xE0 <= b <= 0xEF then
      var lo := if b == 0xE0 then 0xA0 else 0x80;
      var hi := if b == 0xED then 0x9F else 0xBF;
      if InRange(d, pos + 1, lo, hi) && Continues(d, pos + 2)
      then Some((((b - 0xE0) * 0x40 + Low(d, pos + 1)) * 0x40 + Low(d, pos + 2), 3)) else None
    else if 0xF0 <= b <= 0xF4 then
      var lo := if b == 0xF0 then 0x90 else 0x80;
      var hi := if b == 0xF4 then 0x8F else 0xBF;
      if InRange(d, pos + 1, lo, hi) && Continues(d, pos + 2) && Continues(d, pos + 3)
      then Some(((((b - 0xF0) * 0x40 + Low(d, pos + 1)) * 0x40 + Low(d, pos + 2)) * 0x40 + Low(d, pos + 3), 4))
      else None
    else None
  }

  /** The six bits a continuation byte carries. */
  function Low(d: Bytes, i: nat): int
    requires i < |d|
  {
    var b: int := d[i];
    b - 0x80
  }

  /** The bytes at pos are exactly these. */
  predicate At(d: Bytes, pos: nat, bytes: Bytes) {
    pos + |bytes| <= |d| && forall i :: 0 <= i < |bytes| ==> d[pos + i] == bytes[i]
  }

  lemma AtConcat(d: Bytes, pos: nat, a: Bytes, b: Bytes)
    ensures At(d, pos, a + b) <==> At(d, pos, a) && At(d, pos + |a|, b)
  {
    var both := a + b;
    if At(d, pos, both) {
      forall i | 0 <= i < |a| ensures d[pos + i] == a[i] { assert both[i] == a[i]; }
      forall i | 0 <= i < |b| ensures d[pos + |a| + i] == b[i] { assert both[|a| + i] == b[i]; }
    }
    if At(d, pos, a) && At(d, pos + |a|, b) {
      forall i | 0 <= i < |both| ensures d[pos + i] == both[i] {
        if i >= |a| { assert d[pos + |a| + (i - |a|)] == b[i - |a|]; }
      }
    }
  }

  lemma AtByte(d: Bytes, pos: nat, bytes: Bytes, i: nat)
    requires At(d, pos, bytes) && i < |bytes|
    ensures d[pos + i] == bytes[i]
  {
  }

  lemma AtSlice(d: Bytes, pos: nat, bytes: Bytes)
    requires At(d, pos, bytes)
    ensures d[pos..pos + |bytes|] == bytes
  {
  }

  lemma DecodeEncode(d: Bytes, pos: nat, c: Scalar)
    requires At(d, pos, Encode(c))
    ensures pos < |d| && Decode(d, pos) == Some((c, |Encode(c)|))
  {
    var e := Encode(c);
    AtByte(d, pos, e, 0);
    if |e| > 1 { AtByte(d, pos, e, 1); }
    if |e| > 2 { AtByte(d, pos, e, 2); }
    if |e| > 3 { AtByte(d, pos, e, 3); }
  }

  lemma SplitDigits(h: int, l: int)
    requires 0 <= l < 0x40
    ensures (h * 0x40 + l) / 0x40 == h && (h * 0x40 + l) % 0x40 == l
  {
  }

  lemma EncodeDecode(d: Bytes, pos: nat)
    requires pos < |d| && Decode(d, pos).Some?
    ensures var (c, size) := Decode(d, pos).value; Encode(c) == d[pos..pos + size]
  {
    var b: int, size := d[pos], Decode(d, pos).value.1;
    if size == 2 {
      SplitDigits(b - 0xC0, Low(d, pos + 1));
    } else if size == 3 {
      var h := (b - 0xE0) * 0x40 + Low(d, pos + 1);
      SplitDigits(b - 0xE0, Low(d, pos + 1));
      SplitDigits(h, Low(d, pos + 2));
    } else if size == 4 {
      var h := (b - 0xF0) * 0x40 + Low(d, pos + 1);
      var g := h * 0x40 + Low(d, pos + 2);
      SplitDigits(b - 0xF0, Low(d, pos + 1));
      SplitDigits(h, Low(d, pos + 2));
      SplitDigits(g, Low(d, pos + 3));
    }
  }

  /* ---------- Order ---------- */

  predicate BytesLess(a: Bytes, b: Bytes) {
    b != [] && (a == [] || a[0] < b[0] || (a[0] == b[0] && BytesLess(a[1..], b[1..])))
  }

  predicate CodePointLess(a: Text, b: Text) {
    b != [] && (a == [] || a[0] < b[0] || (a[0] == b[0] && CodePointLess(a[1..], b[1..])))
  }

  /** The one text comes first where they first differ, or it is a part of the other. */
  lemma {:induction false} LessExactly(a: Text, b: Text)
    ensures CodePointLess(a, b) <==>
      exists k :: 0 <= k <= |a| && k < |b| && a[..k] == b[..k] && (k == |a| || a[k] < b[k])
  {
    if a != [] && b != [] && a[0] == b[0] {
      LessExactly(a[1..], b[1..]);
      if k :| 0 <= k <= |a[1..]| && k < |b[1..]| && a[1..][..k] == b[1..][..k] && (k == |a[1..]| || a[1..][k] < b[1..][k]) {
        assert a[..k + 1] == [a[0]] + a[1..][..k] && b[..k + 1] == [b[0]] + b[1..][..k];
      }
      if k :| 0 <= k <= |a| && k < |b| && a[..k] == b[..k] && (k == |a| || a[k] < b[k]) {
        assert a[1..][..k - 1] == a[..k][1..] && b[1..][..k - 1] == b[..k][1..];
      }
    } else if b != [] {
      assert a[..0] == b[..0];
      if k :| 0 <= k <= |a| && k < |b| && a[..k] == b[..k] && (k == |a| || a[k] < b[k]) {
        if k > 0 { assert a[..k][0] == b[..k][0]; }
      }
    }
  }

  /** The forms of RFC 3629, section 3: how many bytes a scalar takes, what the first is, that the others
      carry six bits each, and which scalar they are. */
  lemma EncodeForms(c: Scalar)
    ensures |Encode(c)| == if c < 0x80 then 1 else if c < 0x800 then 2 else if c < 0x10000 then 3 else 4
    ensures forall i :: 1 <= i < |Encode(c)| ==> 0x80 <= Encode(c)[i] < 0xC0
    ensures var e := Encode(c);
      match |e|
      case 1 => e[0] == c
      case 2 => ((e[0] as int) - 0xC0) * 0x40 + Low(e, 1) == c
      case 3 => (((e[0] as int) - 0xE0) * 0x40 + Low(e, 1)) * 0x40 + Low(e, 2) == c
      case _ => ((((e[0] as int) - 0xF0) * 0x40 + Low(e, 1)) * 0x40 + Low(e, 2)) * 0x40 + Low(e, 3) == c
  {
  }

  lemma {:induction false} CommonPrefix(p: Bytes, a: Bytes, b: Bytes)
    ensures BytesLess(p + a, p + b) <==> BytesLess(a, b)
  {
    if p == [] {
      assert p + a == a && p + b == b;
    } else {
      CommonPrefix(p[1..], a, b);
      assert (p + a)[1..] == p[1..] + a && (p + b)[1..] == p[1..] + b;
    }
  }

  /** The first byte in which two encodings differ orders them as the scalars are ordered. */
  lemma FirstDifference(c: Scalar, d: Scalar) returns (i: nat)
    requires c < d
    ensures i < |Encode(c)| && i < |Encode(d)|
    ensures Encode(c)[..i] == Encode(d)[..i] && Encode(c)[i] < Encode(d)[i]
  {
    var x, y := Encode(c), Encode(d);
    LongerLarger(c, d);
    i := 0;
    if x[0] == y[0] {
      i := 1;
      if x[1] == y[1] {
        i := 2;
        if x[2] == y[2] { i := 3; }
      }
    }
  }

  lemma LongerLarger(c: Scalar, d: Scalar)
    requires c < d
    ensures |Encode(c)| <= |Encode(d)| && Encode(c)[0] <= Encode(d)[0]
    ensures |Encode(c)| < |Encode(d)| ==> Encode(c)[0] < Encode(d)[0]
  {
  }

  lemma DecidedAt(x: Bytes, y: Bytes, i: nat)
    requires i < |x| && i < |y| && x[..i] == y[..i] && x[i] < y[i]
    ensures BytesLess(x, y) && !BytesLess(y, x)
  {
    var p := x[..i];
    assert x == p + x[i..] && y == p + y[i..];
    CommonPrefix(p, x[i..], y[i..]);
    CommonPrefix(p, y[i..], x[i..]);
  }

  lemma DifferentHeads(c: Scalar, d: Scalar, a: Bytes, b: Bytes)
    requires c < d
    ensures BytesLess(Encode(c) + a, Encode(d) + b) && !BytesLess(Encode(d) + b, Encode(c) + a)
  {
    var i := FirstDifference(c, d);
    var x, y := Encode(c), Encode(d);
    assert (x + a)[..i] == x[..i] && (y + b)[..i] == y[..i];
    DecidedAt(x + a, y + b, i);
  }

  /** UTF-8 byte order is code-point order, for all strings of Unicode scalars. */
  lemma {:induction false} ByteOrderIsCodePointOrder(a: Text, b: Text)
    ensures BytesLess(EncodeAll(a), EncodeAll(b)) <==> CodePointLess(a, b)
  {
    if a != [] && b != [] {
      if a[0] == b[0] {
        CommonPrefix(Encode(a[0]), EncodeAll(a[1..]), EncodeAll(b[1..]));
        ByteOrderIsCodePointOrder(a[1..], b[1..]);
      } else if a[0] < b[0] {
        DifferentHeads(a[0], b[0], EncodeAll(a[1..]), EncodeAll(b[1..]));
      } else {
        DifferentHeads(b[0], a[0], EncodeAll(b[1..]), EncodeAll(a[1..]));
      }
    }
  }

  /* Code-point order is a strict total order. */

  lemma {:induction false} LessTotal(a: Text, b: Text)
    ensures a == b || CodePointLess(a, b) || CodePointLess(b, a)
  {
    if a != [] && b != [] && a[0] == b[0] {
      LessTotal(a[1..], b[1..]);
      if a[1..] == b[1..] { assert a == [a[0]] + a[1..] && b == [b[0]] + b[1..]; }
    }
  }

  lemma {:induction false} LessAsymmetric(a: Text, b: Text)
    ensures !(CodePointLess(a, b) && CodePointLess(b, a))
  {
    if a != [] && b != [] && a[0] == b[0] { LessAsymmetric(a[1..], b[1..]); }
  }

  lemma {:induction false} LessTransitive(a: Text, b: Text, c: Text)
    requires CodePointLess(a, b) && CodePointLess(b, c)
    ensures CodePointLess(a, c)
  {
    if a != [] && a[0] == b[0] && b[0] == c[0] { LessTransitive(a[1..], b[1..], c[1..]); }
  }

  /* ---------- Encoding is injective, and a prefix of bytes is a prefix of scalars ---------- */

  lemma {:induction false} PrefixBytes(a: Text, b: Text)
    ensures EncodeAll(a) <= EncodeAll(b) <==> a <= b
  {
    if a == [] {
    } else if b == [] {
    } else {
      var x, y := EncodeAll(a), EncodeAll(b);
      PrefixBytes(a[1..], b[1..]);
      assert a == [a[0]] + a[1..] && b == [b[0]] + b[1..];
      if a[0] == b[0] {
        var e := Encode(a[0]);
        assert x == e + EncodeAll(a[1..]) && y == e + EncodeAll(b[1..]);
        if x <= y {
          assert y[|e|..][..|x| - |e|] == y[|e|..|x|] == x[|e|..];
        }
        if a <= b { assert b[1..][..|a| - 1] == b[1..|a|] == a[1..]; }
      } else {
        var i: nat;
        if a[0] < b[0] { i := FirstDifference(a[0], b[0]); } else { i := FirstDifference(b[0], a[0]); }
        assert x[i] == Encode(a[0])[i] && y[i] == Encode(b[0])[i];
      }
    }
  }
}
