/** JSON pointers (RFC 6901) as go/decision_policy.go reads them. Pointers are texts; Go compares
    their UTF-8 bytes, which Utf8.PrefixBytes shows to be the same. */
module Pointers {
  import opened Wrappers
  import opened Utf8
  import opened Json
  import opened Parser
  import RoundTrip

  const SLASH: Scalar := 0x2F
  const TILDE: Scalar := 0x7E
  const DIGIT_0: Scalar := 0x30
  const DIGIT_1: Scalar := 0x31

  /* ---------- Tokens ---------- */

  /** strings.ReplaceAll of a one-character text. */
  function ReplaceOne(s: Text, a: Scalar, with: Text): Text {
    if s == [] then [] else (if s[0] == a then with else [s[0]]) + ReplaceOne(s[1..], a, with)
  }

  /** strings.ReplaceAll of a two-character text by one character. */
  function ReplaceTwo(s: Text, a: Scalar, b: Scalar, with: Scalar): Text {
    if s == [] then []
    else if |s| >= 2 && s[0] == a && s[1] == b then [with] + ReplaceTwo(s[2..], a, b, with)
    else [s[0]] + ReplaceTwo(s[1..], a, b, with)
  }

  function EscapeToken(name: Text): Text { ReplaceOne(ReplaceOne(name, TILDE, [TILDE, DIGIT_0]), SLASH, [TILDE, DIGIT_1]) }

  function Unescape(token: Text): Text { ReplaceTwo(ReplaceTwo(token, TILDE, DIGIT_1, SLASH), TILDE, DIGIT_0, TILDE) }

  function Spelling(c: Scalar): (s: Text)
    ensures |s| > 0
  {
    if c == TILDE then [TILDE, DIGIT_0] else if c == SLASH then [TILDE, DIGIT_1] else [c]
  }

  lemma {:induction false} ReplaceOneConcat(s: Text, t: Text, a: Scalar, with: Text)
    ensures ReplaceOne(s + t, a, with) == ReplaceOne(s, a, with) + ReplaceOne(t, a, with)
  {
    if s == [] {
      assert s + t == t;
    } else {
      ReplaceOneConcat(s[1..], t, a, with);
      var first := if s[0] == a then with else [s[0]];
      assert (s + t)[1..] == s[1..] + t && (s + t)[0] == s[0];
      assert first + (ReplaceOne(s[1..], a, with) + ReplaceOne(t, a, with))
        == (first + ReplaceOne(s[1..], a, with)) + ReplaceOne(t, a, with);
    }
  }

  lemma ReplaceSingle(c: Scalar, a: Scalar, with: Text)
    ensures ReplaceOne([c], a, with) == if c == a then with else [c]
  {
    assert [c][1..] == [] && ReplaceOne([], a, with) == [];
    assert with + [] == with;
  }

  /** Escaping goes character by character. */
  lemma EscapeFirst(c: Scalar, t: Text)
    ensures EscapeToken([c] + t) == Spelling(c) + EscapeToken(t)
  {
    var first := ReplaceOne([c], TILDE, [TILDE, DIGIT_0]);
    ReplaceSingle(c, TILDE, [TILDE, DIGIT_0]);
    ReplaceOneConcat([c], t, TILDE, [TILDE, DIGIT_0]);
    ReplaceOneConcat(first, ReplaceOne(t, TILDE, [TILDE, DIGIT_0]), SLASH, [TILDE, DIGIT_1]);
    if c == TILDE {
      assert first == [TILDE] + [DIGIT_0];
      ReplaceOneConcat([TILDE], [DIGIT_0], SLASH, [TILDE, DIGIT_1]);
      ReplaceSingle(DIGIT_0, SLASH, [TILDE, DIGIT_1]);
    }
    ReplaceSingle(c, SLASH, [TILDE, DIGIT_1]);
  }

  lemma PassesPlain(c: Scalar, t: Text, a: Scalar, b: Scalar, with: Scalar)
    requires c != a
    ensures ReplaceTwo([c] + t, a, b, with) == [c] + ReplaceTwo(t, a, b, with)
  {
    assert ([c] + t)[1..] == t;
  }

  lemma PassesPair(a: Scalar, b: Scalar, with: Scalar, t: Text)
    ensures ReplaceTwo([a, b] + t, a, b, with) == [with] + ReplaceTwo(t, a, b, with)
  {
    assert ([a, b] + t)[2..] == t;
  }

  lemma PassesOther(a: Scalar, x: Scalar, b: Scalar, with: Scalar, t: Text)
    requires x != b && x != a
    ensures ReplaceTwo([a, x] + t, a, b, with) == [a, x] + ReplaceTwo(t, a, b, with)
  {
    assert ([a, x] + t)[1..] == [x] + t;
    PassesPlain(x, t, a, b, with);
  }

  /** Unescaping undoes one character's spelling, whatever follows: "~1" is replaced before "~0",
      so that "~01" is "~1" and not "/". */
  lemma UnescapeFirst(c: Scalar, t: Text)
    ensures Unescape(Spelling(c) + t) == [c] + Unescape(t)
  {
    var rest := ReplaceTwo(t, TILDE, DIGIT_1, SLASH);
    if c == TILDE {
      PassesOther(TILDE, DIGIT_0, DIGIT_1, SLASH, t);
      PassesPair(TILDE, DIGIT_0, TILDE, rest);
    } else if c == SLASH {
      PassesPair(TILDE, DIGIT_1, SLASH, t);
      PassesPlain(SLASH, rest, TILDE, DIGIT_0, TILDE);
    } else {
      PassesPlain(c, t, TILDE, DIGIT_1, SLASH);
      PassesPlain(c, rest, TILDE, DIGIT_0, TILDE);
    }
  }

  predicate TildesPaired(s: Text) {
    forall i :: 0 <= i < |s| && s[i] == TILDE ==> i + 1 < |s| && (s[i + 1] == DIGIT_0 || s[i + 1] == DIGIT_1)
  }

  predicate ValidToken(t: Text) { TildesPaired(t) && SLASH !in t }

  lemma {:induction false} UnescapeEscape(name: Text)
    ensures Unescape(EscapeToken(name)) == name
  {
    if name != [] {
      assert name == [name[0]] + name[1..];
      EscapeFirst(name[0], name[1..]);
      UnescapeFirst(name[0], EscapeToken(name[1..]));
      UnescapeEscape(name[1..]);
    }
  }

  /** A valid token begins with one character's spelling. */
  lemma FirstSpelling(t: Text) returns (c: Scalar, rest: Text)
    requires ValidToken(t) && t != []
    ensures t == Spelling(c) + rest && ValidToken(rest) && |rest| < |t|
  {
    if t[0] == TILDE {
      c, rest := if t[1] == DIGIT_0 then TILDE else SLASH, t[2..];
      forall i | 0 <= i < |rest| && rest[i] == TILDE
        ensures i + 1 < |rest| && (rest[i + 1] == DIGIT_0 || rest[i + 1] == DIGIT_1)
      {
        assert t[i + 2] == TILDE;
        assert t[i + 2 + 1] == rest[i + 1];
      }
    } else {
      c, rest := t[0], t[1..];
      assert t[0] in t;
      forall i | 0 <= i < |rest| && rest[i] == TILDE
        ensures i + 1 < |rest| && (rest[i + 1] == DIGIT_0 || rest[i + 1] == DIGIT_1)
      {
        assert t[i + 1] == TILDE;
        assert t[i + 1 + 1] == rest[i + 1];
      }
    }
  }

  lemma {:induction false} EscapeUnescape(t: Text)
    requires ValidToken(t)
    ensures EscapeToken(Unescape(t)) == t
    decreases |t|
  {
    if t != [] {
      var c, rest := FirstSpelling(t);
      UnescapeFirst(c, rest);
      EscapeFirst(c, Unescape(rest));
      EscapeUnescape(rest);
    }
  }

  lemma SpellingValid(c: Scalar, t: Text)
    requires ValidToken(t)
    ensures ValidToken(Spelling(c) + t)
  {
    var s, k := Spelling(c) + t, |Spelling(c)|;
    forall i | 0 <= i < |s| && s[i] == TILDE ensures i + 1 < |s| && (s[i + 1] == DIGIT_0 || s[i + 1] == DIGIT_1) {
      if i >= k { assert t[i - k] == TILDE; assert s[i + 1] == t[i - k + 1]; }
    }
  }

  lemma {:induction false} EscapeValid(name: Text)
    ensures ValidToken(EscapeToken(name))
  {
    if name != [] {
      assert name == [name[0]] + name[1..];
      EscapeFirst(name[0], name[1..]);
      EscapeValid(name[1..]);
      SpellingValid(name[0], EscapeToken(name[1..]));
    }
  }

  /* ---------- Pointers ---------- */

  predicate ValidPointer(p: Text) { p == [] || (p[0] == SLASH && TildesPaired(p)) }

  /** strings.Split at "/". */
  function Split(s: Text): (parts: seq<Text>)
    ensures |parts| > 0
  {
    if s == [] then [[]]
    else
      var rest := Split(s[1..]);
      if s[0] == SLASH then [[]] + rest else [[s[0]] + rest[0]] + rest[1..]
  }

  function UnescapeAll(parts: seq<Text>): (ts: seq<Text>)
    ensures |ts| == |parts|
  {
    if parts == [] then [] else [Unescape(parts[0])] + UnescapeAll(parts[1..])
  }

  /** The reference tokens of a pointer. */
  function Tokens(p: Text): seq<Text> { if p == [] then [] else UnescapeAll(Split(p[1..])) }

  function Spell(ts: seq<Text>): Text { if ts == [] then [] else [SLASH] + EscapeToken(ts[0]) + Spell(ts[1..]) }

  lemma {:induction false} SplitFirst(t: Text, s: Text)
    requires SLASH !in t
    ensures Split(t + [SLASH] + s) == [t] + Split(s)
    ensures Split(t) == [t]
  {
    if t == [] {
      assert t + [SLASH] + s == [SLASH] + s && ([SLASH] + s)[1..] == s;
    } else {
      SplitFirst(t[1..], s);
      assert t[0] in t && t == [t[0]] + t[1..];
      assert (t + [SLASH] + s)[1..] == t[1..] + [SLASH] + s;
    }
  }

  lemma TokensFirst(t: Text, rest: Text)
    requires SLASH !in t && (rest == [] || rest[0] == SLASH)
    ensures Tokens([SLASH] + t + rest) == [Unescape(t)] + Tokens(rest)
  {
    var p := [SLASH] + t + rest;
    if rest == [] {
      SplitFirst(t, []);
      assert p[1..] == t;
      assert [t][1..] == [];
    } else {
      SplitFirst(t, rest[1..]);
      assert p[1..] == t + [SLASH] + rest[1..];
      assert Split(p[1..])[1..] == Split(rest[1..]);
    }
  }

  /** Every list of tokens is read back from its spelling. */
  lemma {:induction false} TokensOfSpell(ts: seq<Text>)
    ensures Tokens(Spell(ts)) == ts
  {
    if ts != [] {
      EscapeValid(ts[0]);
      UnescapeEscape(ts[0]);
      TokensOfSpell(ts[1..]);
      TokensFirst(EscapeToken(ts[0]), Spell(ts[1..]));
    }
  }

  lemma SpellValid(ts: seq<Text>)
    ensures ValidPointer(Spell(ts))
  {
    if ts != [] { SpellPaired(ts); }
  }

  lemma {:induction false} SpellPaired(ts: seq<Text>)
    ensures TildesPaired(Spell(ts))
  {
    if ts != [] {
      var t, rest := EscapeToken(ts[0]), Spell(ts[1..]);
      EscapeValid(ts[0]);
      SpellPaired(ts[1..]);
      PairedConcat([SLASH], t);
      PairedConcat([SLASH] + t, rest);
    }
  }

  lemma PairedConcat(s: Text, t: Text)
    requires TildesPaired(s) && TildesPaired(t)
    ensures TildesPaired(s + t)
  {
    var both := s + t;
    forall i | 0 <= i < |both| && both[i] == TILDE
      ensures i + 1 < |both| && (both[i + 1] == DIGIT_0 || both[i + 1] == DIGIT_1)
    {
      if i < |s| { assert s[i] == TILDE; }
      else { assert t[i - |s|] == TILDE; assert both[i + 1] == t[i - |s| + 1]; }
    }
  }

  /** The first token of the text after a slash, and what follows it. */
  lemma {:induction false} CutToken(s: Text) returns (t: Text, rest: Text)
    requires TildesPaired(s)
    ensures s == t + rest && ValidToken(t) && ValidPointer(rest)
  {
    if s == [] || s[0] == SLASH {
      t, rest := [], s;
    } else {
      forall i | 0 <= i < |s[1..]| && s[1..][i] == TILDE
        ensures i + 1 < |s[1..]| && (s[1..][i + 1] == DIGIT_0 || s[1..][i + 1] == DIGIT_1)
      {
        assert s[i + 1] == TILDE;
        assert s[1..][i + 1] == s[i + 1 + 1];
      }
      var u;
      u, rest := CutToken(s[1..]);
      t := [s[0]] + u;
      assert s == [s[0]] + s[1..];
      forall i | 0 <= i < |t| && t[i] == TILDE ensures i + 1 < |t| && (t[i + 1] == DIGIT_0 || t[i + 1] == DIGIT_1) {
        if i > 0 {
          assert u[i - 1] == TILDE;
          assert t[i + 1] == u[i - 1 + 1];
        } else {
          assert s[0] == TILDE && s[1] != SLASH;
          assert s[1] == (u + rest)[0];
        }
      }
    }
  }

  /** Every valid pointer is the spelling of its tokens. */
  lemma {:induction false} SpellOfTokens(p: Text)
    requires ValidPointer(p)
    ensures Spell(Tokens(p)) == p
    decreases |p|
  {
    if p != [] {
      forall i | 0 <= i < |p[1..]| && p[1..][i] == TILDE
        ensures i + 1 < |p[1..]| && (p[1..][i + 1] == DIGIT_0 || p[1..][i + 1] == DIGIT_1)
      {
        assert p[i + 1] == TILDE;
        assert p[1..][i + 1] == p[i + 1 + 1];
      }
      var t, rest := CutToken(p[1..]);
      EscapeUnescape(t);
      assert p == [SLASH] + t + rest;
      SpellOfTokens(rest);
      TokensFirst(t, rest);
      assert Tokens(p) == [Unescape(t)] + Tokens(rest);
    }
  }

  /* ---------- Prefixes of pointers are prefixes of token lists ---------- */

  /** Two slash-free texts, one followed by a slash: a prefix only if they are the same text. */
  lemma {:induction false} SameToken(x: Text, a: Text, y: Text, b: Text)
    requires SLASH !in x && SLASH !in y && (b == [] || b[0] == SLASH)
    ensures x + [SLASH] + a <= y + b <==> x == y && [SLASH] + a <= b
  {
    if x == [] {
      assert x + [SLASH] + a == [SLASH] + a;
      if y != [] { assert y[0] in y && (y + b)[0] == y[0]; } else { assert y + b == b; }
    } else if y == [] {
      assert x[0] in x && (x + [SLASH] + a)[0] == x[0];
      assert y + b == b;
    } else {
      SameToken(x[1..], a, y[1..], b);
      assert x == [x[0]] + x[1..] && y == [y[0]] + y[1..];
      assert x + [SLASH] + a == [x[0]] + (x[1..] + [SLASH] + a);
      assert y + b == [y[0]] + (y[1..] + b);
      PrefixFirst(x[0], x[1..] + [SLASH] + a, y[0], y[1..] + b);
    }
  }

  lemma PrefixFirst<T>(a: T, s: seq<T>, b: T, t: seq<T>)
    ensures [a] + s <= [b] + t <==> a == b && s <= t
  {
    var x, y := [a] + s, [b] + t;
    if x <= y {
      assert x[0] == a && y[0] == b && x[1..] == s && y[1..] == t;
      assert y[1..][..|s|] == y[1..|x|] == s;
    }
    if a == b && s <= t { assert y[..|x|] == [b] + t[..|s|]; }
  }

  lemma SpellBegins(ts: seq<Text>)
    ensures if ts == [] then Spell(ts) == [] else Spell(ts) != [] && Spell(ts)[0] == SLASH
  {
  }

  /** strings.HasPrefix(q, p + "/") says that p's tokens are a proper prefix of q's. */
  lemma {:induction false} ProperPrefix(a: seq<Text>, b: seq<Text>)
    ensures Spell(a) + [SLASH] <= Spell(b) <==> a < b
  {
    SpellBegins(b);
    if a == [] {
      assert Spell(a) + [SLASH] == [SLASH];
    } else if b == [] {
    } else {
      SpellBegins(a[1..]);
      SpellBegins(b[1..]);
      EscapeInjective(a[0], b[0]);
      HeadPrefix(EscapeToken(a[0]), Spell(a[1..]), EscapeToken(b[0]), Spell(b[1..]));
      ProperPrefix(a[1..], b[1..]);
      assert a == [a[0]] + a[1..] && b == [b[0]] + b[1..];
      PrefixFirst(a[0], a[1..], b[0], b[1..]);
    }
  }

  lemma HeadPrefix(x: Text, a: Text, y: Text, b: Text)
    requires SLASH !in x && SLASH !in y && (a == [] || a[0] == SLASH) && (b == [] || b[0] == SLASH)
    ensures ([SLASH] + x + a) + [SLASH] <= [SLASH] + y + b <==> x == y && a + [SLASH] <= b
  {
    var rest := (a + [SLASH])[1..];
    assert a + [SLASH] == [SLASH] + rest;
    assert ([SLASH] + x + a) + [SLASH] == [SLASH] + (x + [SLASH] + rest);
    assert [SLASH] + y + b == [SLASH] + (y + b);
    PrefixFirst(SLASH, x + [SLASH] + rest, SLASH, y + b);
    SameToken(x, rest, y, b);
  }

  lemma EscapeInjective(s: Text, t: Text)
    ensures EscapeToken(s) == EscapeToken(t) <==> s == t
    ensures SLASH !in EscapeToken(s) && SLASH !in EscapeToken(t)
  {
    EscapeValid(s);
    EscapeValid(t);
    UnescapeEscape(s);
    UnescapeEscape(t);
  }

  lemma SpellInjective(a: seq<Text>, b: seq<Text>)
    ensures Spell(a) == Spell(b) <==> a == b
  {
    TokensOfSpell(a);
    TokensOfSpell(b);
  }

  /* ---------- Array indices ---------- */

  /** The index a token names: decimal digits with no leading zero. */
  function IndexOf(token: Text): Option<nat> {
    if token == [] || (|token| > 1 && token[0] == DIGIT_0) || !(forall i :: 0 <= i < |token| ==> DIGIT_0 <= token[i] <= 0x39)
    then None
    else if Decimal(token) >= 0 then Some(Decimal(token)) else None
  }

  /** strconv.Itoa. */
  function Itoa(i: nat): Text { Digits(i) }

  lemma SplitTen(h: nat, l: int)
    requires 0 <= l < 10
    ensures (h * 10 + l) / 10 == h && (h * 10 + l) % 10 == l
  {
  }

  lemma DigitsOnto(h: nat, l: int)
    requires 0 <= l < 10 && h > 0
    ensures Digits(h * 10 + l) == Digits(h) + [ZERO + l]
  {
    SplitTen(h, l);
  }

  lemma {:induction false} DecimalBack(ds: Bytes)
    requires ds != [] && forall i :: 0 <= i < |ds| ==> IsDigit(ds[i])
    requires |ds| > 1 ==> ds[0] != ZERO
    ensures Decimal(ds) >= 0 && Digits(Decimal(ds)) == ds
    ensures ds[0] != ZERO ==> Decimal(ds) > 0
  {
    var front, last := ds[..|ds| - 1], ds[|ds| - 1];
    assert ds == front + [last];
    var l: int := (last as int) - 0x30;
    assert Decimal(ds) == Decimal(front) * 10 + l;
    if front != [] {
      assert front[0] == ds[0];
      DecimalBack(front);
      DigitsOnto(Decimal(front), l);
    } else {
      assert Decimal(front) == 0;
    }
  }

  /** A token names an index exactly when it is the index's decimal spelling. */
  lemma IndexSpelling(token: Text, i: nat)
    ensures IndexOf(token) == Some(i) <==> token == Itoa(i)
  {
    RoundTrip.DigitsBack(i);
    if IndexOf(token).Some? { DecimalBack(token); }
  }

  /* ---------- Resolution ---------- */

  function Get(ms: seq<Named<Value>>, name: Text): Option<Value> {
    if ms == [] then None else if ms[0].name == name then Some(ms[0].value) else Get(ms[1..], name)
  }

  /** One token applied to a value. */
  function Into(v: Value, token: Text): Option<Value> {
    match v
    case Obj(ms) => Get(ms, token)
    case Arr(items) =>
      var i := IndexOf(token);
      if i.Some? && i.value < |items| then Some(items[i.value]) else None
    case _ => None
  }

  /** The value a list of tokens leads to. */
  function Follow(v: Value, ts: seq<Text>): Option<Value>
    decreases |ts|
  {
    if ts == [] then Some(v)
    else
      var next := Into(v, ts[0]);
      if next.Some? then Follow(next.value, ts[1..]) else None
  }

  function Resolve(v: Value, p: Text): Option<Value> { Follow(v, Tokens(p)) }

  method ResolvePointer(v: Value, p: Text) returns (r: Option<Value>)
    ensures r == Resolve(v, p)
  {
    if p == [] { return Some(v); }
    var parts := Split(p[1..]);
    var at, i := v, 0;
    while i < |parts|
      invariant 0 <= i <= |parts|
      invariant Follow(v, UnescapeAll(parts)) == Follow(at, UnescapeAll(parts[i..]))
    {
      var token := Unescape(parts[i]);
      assert parts[i..][1..] == parts[i + 1..];
      var next := None;
      match at {
        case Obj(ms) => next := Get(ms, token);
        case Arr(items) =>
          var k := IndexOf(token);
          if k.None? || k.value >= |items| { return None; }
          next := Some(items[k.value]);
        case _ =>
      }
      if next.None? { return None; }
      at := next.value;
      i := i + 1;
    }
    return Some(at);
  }

  /** RFC 6901's syntax, as the loop checks it. */
  method CheckPointer(p: Text) returns (ok: bool)
    ensures ok == ValidPointer(p)
    ensures ok <==> exists ts :: p == Spell(ts)
  {
    ok := true;
    if p != [] {
      if p[0] != SLASH {
        ok := false;
      } else {
        var i := 0;
        while i < |p|
          invariant 0 <= i <= |p|
          invariant forall k :: 0 <= k < i && p[k] == TILDE ==> k + 1 < |p| && (p[k + 1] == DIGIT_0 || p[k + 1] == DIGIT_1)
        {
          if p[i] == TILDE && (i + 1 >= |p| || (p[i + 1] != DIGIT_0 && p[i + 1] != DIGIT_1)) {
            ok := false;
            break;
          }
          i := i + 1;
        }
      }
    }
    ValidSpells(p);
  }

  lemma ValidSpells(p: Text)
    ensures ValidPointer(p) <==> exists ts :: p == Spell(ts)
  {
    if ValidPointer(p) { SpellOfTokens(p); }
    if ts :| p == Spell(ts) { SpellValid(ts); }
  }

  /** A name is escaped letter by letter: "~" as "~0", "/" as "~1", any other as itself (RFC 6901,
      section 3). */
  lemma EscapeByLetter(c: Scalar, rest: Text)
    ensures EscapeToken([]) == []
    ensures EscapeToken([c] + rest) ==
      (if c == 0x7E then [0x7E, 0x30] else if c == 0x2F then [0x7E, 0x31] else [c]) + EscapeToken(rest)
  {
    EscapeFirst(c, rest);
  }

  /* ---------- Positions ---------- */

  datatype Step = Member(name: Text) | Index(i: nat)

  function Token(s: Step): Text { match s case Member(name) => name case Index(i) => Itoa(i) }

  function PathTokens(path: seq<Step>): (ts: seq<Text>)
    ensures |ts| == |path|
  {
    if path == [] then [] else [Token(path[0])] + PathTokens(path[1..])
  }

  function Next(v: Value, s: Step): Option<Value> {
    if v.Obj? && s.Member? then Get(v.members, s.name)
    else if v.Arr? && s.Index? && s.i < |v.items| then Some(v.items[s.i])
    else None
  }

  /** The value at a position, when the value has that position. */
  function ValueAt(v: Value, path: seq<Step>): Option<Value>
    decreases |path|
  {
    if path == [] then Some(v)
    else
      var next := Next(v, path[0]);
      if next.Some? then ValueAt(next.value, path[1..]) else None
  }

  /** The position a list of tokens leads to. */
  function Locate(v: Value, ts: seq<Text>): Option<seq<Step>>
    decreases |ts|
  {
    if ts == [] then Some([])
    else
      var next := Into(v, ts[0]);
      if next.None? then None
      else
        var rest := Locate(next.value, ts[1..]);
        if rest.None? then None
        else Some([if v.Obj? then Member(ts[0]) else Index(IndexOf(ts[0]).value)] + rest.value)
  }

  /** Resolution ends at the value of the position it leads to. */
  lemma {:induction false} LocateValue(v: Value, ts: seq<Text>)
    ensures Locate(v, ts).Some? <==> Follow(v, ts).Some?
    ensures Locate(v, ts).Some? ==> ValueAt(v, Locate(v, ts).value) == Follow(v, ts)
    decreases |ts|
  {
    if ts != [] && Into(v, ts[0]).Some? { LocateValue(Into(v, ts[0]).value, ts[1..]); }
  }

  lemma {:induction false} LocateTokens(v: Value, ts: seq<Text>, path: seq<Step>)
    requires ValueAt(v, path).Some?
    ensures Locate(v, ts) == Some(path) <==> ts == PathTokens(path)
    decreases |path|
  {
    if path != [] {
      var token := Token(path[0]);
      if path[0].Index? { IndexSpelling(token, path[0].i); }
      assert Into(v, token).Some?;
      if ts != [] {
        if path[0].Index? { IndexSpelling(ts[0], path[0].i); }
        assert ts == [ts[0]] + ts[1..] && path == [path[0]] + path[1..];
        if ts[0] == token { LocateTokens(Into(v, token).value, ts[1..], path[1..]); }
      }
    }
  }

  /** A valid pointer resolves to a position exactly when it is the position's escaped spelling. */
  lemma ResolvesToItsSpelling(v: Value, p: Text, path: seq<Step>)
    requires ValidPointer(p) && ValueAt(v, path).Some?
    ensures Locate(v, Tokens(p)) == Some(path) <==> p == Spell(PathTokens(path))
    ensures p == Spell(PathTokens(path)) ==> Resolve(v, p) == ValueAt(v, path)
  {
    SpellOfTokens(p);
    TokensOfSpell(PathTokens(path));
    LocateTokens(v, Tokens(p), path);
    LocateValue(v, Tokens(p));
  }
}
