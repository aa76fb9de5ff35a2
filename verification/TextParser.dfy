/** The parser object of go/canon.go, moving its position through the bytes. Each method is
    proved to do what the reading function of the same construct says. */
module TextParsers {
  import opened Wrappers
  import opened Utf8
  import opened Json
  import opened Parser
  import opened Reading

  function Outcome<T>(r: Result<T>, pos: nat, values: nat): Result<Parsed<T>> {
    if r.Ok? then Ok(Parsed(r.value, pos, values)) else Refusal
  }

  function Ended<T>(r: Result<T>, pos: nat): Result<(T, nat)> { if r.Ok? then Ok((r.value, pos)) else Refusal }

  /** Reading goes on after what was read so far. */
  function After<T>(done: seq<T>, rest: Result<Parsed<seq<T>>>): Result<Parsed<seq<T>>> {
    if rest.Ok? then Ok(Parsed(done + rest.value.value, rest.value.pos, rest.value.values)) else Refusal
  }

  /* One turn of the loop over a list, for what the loop has still to read. */

  lemma ItemsAgree(m: Mode, d: Bytes, pos: nat, depth: nat, values: nat, r: Result<Parsed<seq<Value>>>, s: Result<Parsed<seq<Value>>>)
    requires ItemsAre(m, d, pos, depth, values, r) && ItemsAre(m, d, pos, depth, values, s)
    ensures r == s
  {
    assert ReadItems(m, d, pos, depth, values) == r;
  }

  /** What the whole list is after this value of it, given what comes next. */
  function Turned<T, U>(done: seq<T>, d: Bytes, v: Parsed<U>, close: Byte, next: Result<Parsed<seq<T>>>): Result<Parsed<seq<T>>> {
    var p := SkipSpace(d, v.pos);
    if p < |d| && d[p] == COMMA then After(done, next)
    else if p < |d| && d[p] == close then Ok(Parsed(done, p + 1, v.values))
    else Refusal
  }

  lemma AfterNothing<T>(rest: Result<Parsed<seq<T>>>)
    ensures After([], rest) == rest
  {
    if rest.Ok? { assert [] + rest.value.value == rest.value.value; }
  }

  lemma AfterAlong<T, U>(done: seq<T>, one: T, d: Bytes, v: Result<Parsed<U>>, close: Byte, rest: Result<Parsed<seq<T>>>)
    requires v.Ok?
    ensures After(done, Along(d, one, v, close, rest)) == Turned(done + [one], d, v.value, close, rest)
  {
    if rest.Ok? { assert done + ([one] + rest.value.value) == (done + [one]) + rest.value.value; }
  }

  lemma ItemsTurn(m: Mode, d: Bytes, pos: nat, depth: nat, values: nat, done: seq<Value>, rest: Result<Parsed<seq<Value>>>,
                  v: Result<Parsed<Value>>) returns (next: Result<Parsed<seq<Value>>>)
    requires pos <= |d| && ItemsAre(m, d, pos, depth, values, rest) && ValueIs(m, d, SkipSpace(d, pos), depth, values, v)
    requires v.Ok? ==> v.value.pos <= |d|
    ensures v.Refusal? ==> rest.Refusal?
    ensures v.Ok? ==> After(done, rest) == Turned(done + [v.value.value], d, v.value, RBRACKET, next)
    ensures MoreAfter(d, v) ==> ItemsAre(m, d, SkipSpace(d, v.value.pos) + 1, depth, v.value.values, next)
  {
    next := Refusal;
    if MoreAfter(d, v) { next := PeekItems(m, d, SkipSpace(d, v.value.pos) + 1, depth, v.value.values); }
    var all := ItemsFrom(d, v, next);
    ItemsStep(m, d, pos, depth, values, v, next, all);
    ItemsAgree(m, d, pos, depth, values, rest, all);
    if v.Ok? { AfterAlong(done, v.value.value, d, v, RBRACKET, next); }
  }

  lemma MembersAgree(m: Mode, d: Bytes, pos: nat, depth: nat, values: nat, seen: set<Text>,
                     r: Result<Parsed<seq<Named<Value>>>>, s: Result<Parsed<seq<Named<Value>>>>)
    requires MembersAre(m, d, pos, depth, values, seen, r) && MembersAre(m, d, pos, depth, values, seen, s)
    ensures r == s
  {
    assert ReadMembers(m, d, pos, depth, values, seen) == r;
  }

  lemma MembersTurn(m: Mode, d: Bytes, pos: nat, depth: nat, values: nat, seen: set<Text>, done: seq<Named<Value>>,
                    rest: Result<Parsed<seq<Named<Value>>>>, name: Text, at: nat, v: Result<Parsed<Value>>)
    returns (next: Result<Parsed<seq<Named<Value>>>>)
    requires pos <= |d| && MembersAre(m, d, pos, depth, values, seen, rest)
    requires ReadName(d, pos, seen) == Ok((name, at)) && ValueIs(m, d, at, depth, values, v)
    requires v.Ok? ==> v.value.pos <= |d|
    ensures v.Refusal? ==> rest.Refusal?
    ensures v.Ok? ==> After(done, rest) == Turned(done + [Named(name, v.value.value)], d, v.value, RBRACE, next)
    ensures MoreAfter(d, v) ==>
      MembersAre(m, d, SkipSpace(d, v.value.pos) + 1, depth, v.value.values, seen + {name}, next)
  {
    next := Refusal;
    if MoreAfter(d, v) {
      next := PeekMembers(m, d, SkipSpace(d, v.value.pos) + 1, depth, v.value.values, seen + {name});
    }
    var all := MembersFrom(d, name, v, next);
    MembersStep(m, d, pos, depth, values, seen, name, at, v, next, all);
    MembersAgree(m, d, pos, depth, values, seen, rest, all);
    if v.Ok? { AfterAlong(done, Named(name, v.value.value), d, v, RBRACE, next); }
  }

  lemma NamelessMembers(m: Mode, d: Bytes, pos: nat, depth: nat, values: nat, seen: set<Text>, rest: Result<Parsed<seq<Named<Value>>>>)
    requires pos <= |d| && MembersAre(m, d, pos, depth, values, seen, rest) && ReadName(d, pos, seen).Refusal?
    ensures rest.Refusal?
  {
    NoName(m, d, pos, depth, values, seen, Refusal);
    MembersAgree(m, d, pos, depth, values, seen, rest, Refusal);
  }

  lemma ScalarIs(m: Mode, d: Bytes, pos: nat, depth: nat, values: nat, r: Result<Parsed<Value>>)
    requires pos < |d| && d[pos] != LBRACE && d[pos] != LBRACKET
    requires var s := ReadScalar(m, d, pos);
      var counts := m.maxValues > 0 && StartsValue(d[pos]);
      r == if s.Refusal? || (counts && values >= m.maxValues) then Refusal
           else Ok(Parsed(s.value.0, s.value.1, if counts then values + 1 else values))
    ensures ValueIs(m, d, pos, depth, values, r)
  {
  }

  lemma SliceAt(d: Bytes, pos: nat, bytes: Bytes)
    requires pos + |bytes| <= |d| && d[pos..pos + |bytes|] == bytes
    ensures At(d, pos, bytes)
  {
    forall i | 0 <= i < |bytes| ensures d[pos + i] == bytes[i] { assert d[pos..pos + |bytes|][i] == d[pos + i]; }
  }

  /* Strings and hex digits. */

  function TextAfter(done: Text, rest: Result<(Text, nat)>): Result<(Text, nat)> {
    if rest.Ok? then Ok((done + rest.value.0, rest.value.1)) else Refusal
  }

  lemma NothingBefore(d: Bytes, pos: nat)
    ensures TextAfter([], StringRest(d, pos)) == StringRest(d, pos)
  {
    var rest := StringRest(d, pos);
    if rest.Ok? { assert [] + rest.value.0 == rest.value.0; }
  }

  lemma TextStep(d: Bytes, pos: nat, done: Text, c: Result<(Scalar, nat)>)
    requires pos < |d| && d[pos] != QUOTE && c == OneChar(d, pos)
    ensures TextAfter(done, StringRest(d, pos)) ==
      if c.Ok? then TextAfter(done + [c.value.0], StringRest(d, c.value.1)) else Refusal
  {
    if c.Ok? {
      var rest := StringRest(d, c.value.1);
      if rest.Ok? { assert done + ([c.value.0] + rest.value.0) == (done + [c.value.0]) + rest.value.0; }
    }
  }

  /** The value of the first k hex digits. */
  function HexPrefix(d: Bytes, pos: nat, k: nat): (r: Option<nat>)
    requires pos + k <= |d|
  {
    if k == 0 then Some(0)
    else
      var high, low := HexPrefix(d, pos, k - 1), HexValue(d[pos + k - 1]);
      if high.Some? && low.Some? then Some(high.value * 16 + low.value) else None
  }

  lemma HexPrefixFour(d: Bytes, pos: nat)
    requires pos + 4 <= |d|
    ensures Hex4(d, pos) == HexPrefix(d, pos, 4)
  {
    assert HexPrefix(d, pos, 1) == HexValue(d[pos]);
    var two, three := HexPrefix(d, pos, 2), HexPrefix(d, pos, 3);
    assert two.Some? <==> HexValue(d[pos]).Some? && HexValue(d[pos + 1]).Some?;
    assert three.Some? <==> two.Some? && HexValue(d[pos + 2]).Some?;
  }

  lemma {:induction false} HexPrefixStops(d: Bytes, pos: nat, k: nat, n: nat)
    requires k <= n && pos + n <= |d| && HexPrefix(d, pos, k).None?
    ensures HexPrefix(d, pos, n).None?
  {
    if k < n { HexPrefixStops(d, pos, k, n - 1); }
  }

  /** The settings of go/canon.go's entry points: an integer in the safe range is read as one. */
  type ParserMode = m: Mode | !m.spelled witness JSON

  class TextParser {
    const data: Bytes
    const mode: ParserMode
    var pos: nat
    var depth: nat
    var values: nat

    constructor (data: Bytes, mode: ParserMode)
      ensures this.data == data && this.mode == mode && pos == 0 && depth == 0 && values == 0
    {
      this.data, this.mode, pos, depth, values := data, mode, 0, 0, 0;
    }

    method Document() returns (r: Result<Value>)
      requires pos == 0 && depth == 0 && values == 0
      modifies this
      ensures r == Parser.Document(mode, data)
    {
      SkipWhitespace();
      ghost var start := pos;
      r := ParseValue();
      assert ReadValue(mode, data, start, 0, 0) == Outcome(r, pos, values);
      if r.Refusal? { return; }
      SkipWhitespace();
      if pos != |data| { r := Refusal; }
    }

    method SkipWhitespace()
      requires pos <= |data|
      modifies this`pos
      ensures pos == SkipSpace(data, old(pos)) && old(pos) <= pos <= |data|
    {
      while pos < |data|
        invariant old(pos) <= pos <= |data| && SkipSpace(data, old(pos)) == SkipSpace(data, pos)
      {
        if !IsSpace(data[pos]) { return; }
        pos := pos + 1;
      }
    }

    method SkipDigits()
      requires pos <= |data|
      modifies this`pos
      ensures pos == DigitsEnd(data, old(pos)) && old(pos) <= pos <= |data|
    {
      while pos < |data| && IsDigit(data[pos])
        invariant old(pos) <= pos <= |data| && DigitsEnd(data, old(pos)) == DigitsEnd(data, pos)
      {
        pos := pos + 1;
      }
    }

    method ExpectLiteral(literal: Bytes) returns (ok: bool)
      requires pos <= |data|
      modifies this`pos
      ensures ok == At(data, old(pos), literal)
      ensures pos == if ok then old(pos) + |literal| else old(pos)
      ensures pos <= |data|
    {
      ok := pos + |literal| <= |data| && data[pos..pos + |literal|] == literal;
      if ok {
        SliceAt(data, pos, literal);
        pos := pos + |literal|;
      } else if At(data, pos, literal) {
        AtSlice(data, pos, literal);
      }
    }

    method ReadHex4() returns (r: Result<int>)
      requires pos <= |data|
      modifies this`pos
      ensures r == match Hex4(data, old(pos)) { case None => Refusal case Some(u) => Ok(u) }
      ensures pos == if r.Ok? then old(pos) + 4 else old(pos)
      ensures pos <= |data|
    {
      if pos + 4 > |data| { return Refusal; }
      HexPrefixFour(data, pos);
      var n, i := 0, 0;
      while i < 4
        invariant 0 <= i <= 4 && HexPrefix(data, pos, i) == Some(n)
      {
        var digit := HexValue(data[pos + i]);
        if digit.None? {
          HexPrefixStops(data, pos, i + 1, 4);
          return Refusal;
        }
        n := n * 16 + digit.value;
        i := i + 1;
      }
      pos := pos + 4;
      return Ok(n);
    }

    /** The "\u" itself is already read. */
    method ParseUnicodeEscape() returns (r: Result<Scalar>)
      requires pos <= |data|
      modifies this`pos
      ensures Ended(r, pos) == UnicodeEscape(data, old(pos))
      ensures pos <= |data|
    {
      var u :- ReadHex4();
      if !(0xD800 <= u < 0xE000) { return Ok(u); }
      if pos + 1 < |data| && data[pos] == BACKSLASH && data[pos + 1] == 0x75 {
        var save := pos;
        pos := pos + 2;
        var low :- ReadHex4();
        if u < 0xDC00 && 0xDC00 <= low < 0xE000 { return Ok(0x10000 + (u - 0xD800) * 0x400 + (low - 0xDC00)); }
        pos := save;
      }
      return Refusal;
    }

    method ParseChar() returns (r: Result<Scalar>)
      requires pos < |data| && data[pos] != QUOTE
      modifies this`pos
      ensures Ended(r, pos) == OneChar(data, old(pos))
      ensures pos <= |data|
    {
      var c := data[pos];
      if c == BACKSLASH {
        pos := pos + 1;
        if pos >= |data| { return Refusal; }
        var e := data[pos];
        pos := pos + 1;
        if e == QUOTE || e == BACKSLASH || e == 0x2F { return Ok(e); }
        if e == 0x62 { return Ok(0x08); }
        if e == 0x66 { return Ok(0x0C); }
        if e == 0x6E { return Ok(0x0A); }
        if e == 0x72 { return Ok(0x0D); }
        if e == 0x74 { return Ok(0x09); }
        if e == 0x75 { r := ParseUnicodeEscape(); return; }
        return Refusal;
      }
      if c < 0x20 { return Refusal; }
      match Decode(data, pos) {
        case None => return Refusal;
        case Some((scalar, size)) =>
          pos := pos + size;
          return Ok(scalar);
      }
    }

    method ParseString() returns (r: Result<Text>)
      requires pos < |data| && data[pos] == QUOTE
      modifies this`pos
      ensures Ended(r, pos) == StringRest(data, old(pos) + 1)
      ensures pos <= |data| && (r.Ok? ==> old(pos) < pos)
    {
      pos := pos + 1;
      var s: Text := [];
      NothingBefore(data, pos);
      while true
        invariant old(pos) < pos <= |data|
        invariant StringRest(data, old(pos) + 1) == TextAfter(s, StringRest(data, pos))
        decreases |data| - pos
      {
        if pos >= |data| { return Refusal; }
        if data[pos] == QUOTE {
          pos := pos + 1;
          assert s + [] == s;
          return Ok(s);
        }
        ghost var start := pos;
        var c := ParseChar();
        TextStep(data, start, s, Ended(c, pos));
        if c.Refusal? { return Refusal; }
        s := s + [c.value];
      }
    }

    method ParseNumber() returns (r: Result<Value>)
      requires pos < |data|
      modifies this`pos
      ensures Ended(r, pos) == ReadNumber(mode, data, old(pos))
      ensures pos <= |data|
    {
      var start := pos;
      if data[pos] == MINUS {
        if mode.unsigned { return Refusal; }
        pos := pos + 1;
      }
      var from := pos;
      SkipDigits();
      if pos == from { return Refusal; }
      if data[from] == ZERO && pos - from > 1 { return Refusal; }
      if mode.anyNumber {
        r := ParseAnyNumber(start, from);
        return;
      }
      if pos < |data| && (data[pos] == 0x2E || data[pos] == 0x65 || data[pos] == 0x45) { return Refusal; }
      var n := Integer(data, start, from, pos);
      return if Safe(n) then Ok(Int(n)) else Refusal;
    }

    method ParseAnyNumber(start: nat, from: nat) returns (r: Result<Value>)
      requires start <= from < pos <= |data|
      modifies this`pos
      ensures Ended(r, pos) == AnyNumber(mode, data, start, from, old(pos))
      ensures pos <= |data|
    {
      var to := pos;
      var fraction :- SkipFraction();
      var exponent :- SkipExponent();
      var integer := !fraction && !exponent;
      if integer && Safe(Integer(data, start, from, to)) { return Ok(Int(Integer(data, start, from, to))); }
      return Ok(Number(data[start..pos]));
    }

    /** Reads a fraction if one begins here, and says whether one did. */
    method SkipFraction() returns (r: Result<bool>)
      requires pos <= |data|
      modifies this`pos
      ensures FractionEnd(data, old(pos)) == if r.Ok? then Ok(pos) else Refusal
      ensures old(pos) <= pos <= |data| && (r.Ok? ==> r.value == (pos > old(pos)))
    {
      if pos < |data| && data[pos] == 0x2E {
        pos := pos + 1;
        var digits := pos;
        SkipDigits();
        return if pos == digits then Refusal else Ok(true);
      }
      return Ok(false);
    }

    method SkipExponent() returns (r: Result<bool>)
      requires pos <= |data|
      modifies this`pos
      ensures ExponentEnd(data, old(pos)) == if r.Ok? then Ok(pos) else Refusal
      ensures old(pos) <= pos <= |data| && (r.Ok? ==> r.value == (pos > old(pos)))
    {
      if pos < |data| && (data[pos] == 0x65 || data[pos] == 0x45) {
        pos := pos + 1;
        if pos < |data| && (data[pos] == 0x2B || data[pos] == MINUS) { pos := pos + 1; }
        var digits := pos;
        SkipDigits();
        return if pos == digits then Refusal else Ok(true);
      }
      return Ok(false);
    }

    method ParseValue() returns (r: Result<Value>)
      requires pos <= |data|
      modifies this
      ensures ValueIs(mode, data, old(pos), old(depth), old(values), Outcome(r, pos, values))
      ensures depth == old(depth) && pos <= |data| && (r.Ok? ==> old(pos) < pos)
      decreases |data| - pos, 1
    {
      ghost var p0, v0 := pos, values;
      if pos >= |data| { return Refusal; }
      if mode.maxValues > 0 && StartsValue(data[pos]) {
        if values >= mode.maxValues { return Refusal; }
        values := values + 1;
      }
      var c := data[pos];
      if c == LBRACE || c == LBRACKET {
        if depth >= MAX_NESTING { return Refusal; }
        depth := depth + 1;
        if c == LBRACE { r := ParseObject(); } else { r := ParseArray(); }
        depth := depth - 1;
        ContainerStep(mode, data, p0, depth, v0, Outcome(r, pos, values), Outcome(r, pos, values));
      } else {
        r := ParseScalar();
        ScalarIs(mode, data, p0, depth, v0, Outcome(r, pos, values));
      }
    }

    method ParseScalar() returns (r: Result<Value>)
      requires pos < |data| && data[pos] != LBRACE && data[pos] != LBRACKET
      modifies this`pos
      ensures Ended(r, pos) == ReadScalar(mode, data, old(pos))
      ensures pos <= |data|
    {
      var c := data[pos];
      if c == QUOTE {
        var s :- ParseString();
        return Ok(Str(s));
      } else if c == 0x74 {
        var ok := ExpectLiteral(TRUE);
        return if ok then Ok(Bool(true)) else Refusal;
      } else if c == 0x66 {
        var ok := ExpectLiteral(FALSE);
        return if ok then Ok(Bool(false)) else Refusal;
      } else if c == 0x6E {
        var ok := ExpectLiteral(NULL);
        return if ok then Ok(Null) else Refusal;
      } else if c == MINUS || IsDigit(c) {
        r := ParseNumber();
      } else {
        return Refusal;
      }
    }

    method ParseArray() returns (r: Result<Value>)
      requires pos < |data|
      modifies this
      ensures ArrayIs(mode, data, old(pos) + 1, old(depth), old(values), Outcome(r, pos, values))
      ensures depth == old(depth) && pos <= |data| && (r.Ok? ==> old(pos) < pos)
      decreases |data| - pos, 0
    {
      pos := pos + 1;
      SkipWhitespace();
      ghost var p0, v0 := pos, values;
      if pos < |data| && data[pos] == RBRACKET {
        ghost var inside := PeekItems(mode, data, pos, depth, values);
        pos := pos + 1;
        ArrayStep(mode, data, old(pos) + 1, depth, v0, inside, Ok(Parsed(Arr([]), pos, v0)));
        return Ok(Arr([]));
      }
      var inside := ParseItems();
      r := if inside.Ok? then Ok(Arr(inside.value)) else Refusal;
      ArrayStep(mode, data, old(pos) + 1, depth, v0, Outcome(inside, pos, values), Outcome(r, pos, values));
    }

    /** The loop over an array's elements, to its closing bracket. */
    method ParseItems() returns (r: Result<seq<Value>>)
      requires pos <= |data|
      modifies this
      ensures ItemsAre(mode, data, old(pos), old(depth), old(values), Outcome(r, pos, values))
      ensures depth == old(depth) && pos <= |data| && (r.Ok? ==> old(pos) < pos)
      decreases |data| - pos, 2
    {
      var items: seq<Value> := [];
      ghost var all := PeekItems(mode, data, pos, depth, values);
      ghost var rest := all;
      AfterNothing(all);
      while true
        invariant old(pos) <= pos <= |data| && depth == old(depth)
        invariant ItemsAre(mode, data, pos, depth, values, rest) && all == After(items, rest)
        decreases |data| - pos
      {
        ghost var p0, v0 := pos, values;
        SkipWhitespace();
        var v := ParseValue();
        ghost var next := ItemsTurn(mode, data, p0, depth, v0, items, rest, Outcome(v, pos, values));
        if v.Refusal? { return Refusal; }
        items := items + [v.value];
        SkipWhitespace();
        if pos >= |data| { return Refusal; }
        if data[pos] == COMMA {
          pos := pos + 1;
          rest := next;
        } else if data[pos] == RBRACKET {
          pos := pos + 1;
          assert all == Outcome(Ok(items), pos, values);
          return Ok(items);
        } else {
          return Refusal;
        }
      }
    }

    method ParseObject() returns (r: Result<Value>)
      requires pos < |data|
      modifies this
      ensures ObjectIs(mode, data, old(pos) + 1, old(depth), old(values), Outcome(r, pos, values))
      ensures depth == old(depth) && pos <= |data| && (r.Ok? ==> old(pos) < pos)
      decreases |data| - pos, 0
    {
      pos := pos + 1;
      SkipWhitespace();
      ghost var p0, v0 := pos, values;
      if pos < |data| && data[pos] == RBRACE {
        ghost var inside := PeekMembers(mode, data, pos, depth, values, {});
        pos := pos + 1;
        ObjectStep(mode, data, old(pos) + 1, depth, v0, inside, Ok(Parsed(Obj([]), pos, v0)));
        return Ok(Obj([]));
      }
      var inside := ParseMembers();
      r := if inside.Ok? then Ok(Obj(inside.value)) else Refusal;
      ObjectStep(mode, data, old(pos) + 1, depth, v0, Outcome(inside, pos, values), Outcome(r, pos, values));
    }

    /** The loop over an object's members, to its closing brace. */
    method ParseMembers() returns (r: Result<seq<Named<Value>>>)
      requires pos <= |data|
      modifies this
      ensures MembersAre(mode, data, old(pos), old(depth), old(values), {}, Outcome(r, pos, values))
      ensures depth == old(depth) && pos <= |data| && (r.Ok? ==> old(pos) < pos)
      decreases |data| - pos, 2
    {
      var members: seq<Named<Value>> := [];
      var seen: set<Text> := {};
      ghost var all := PeekMembers(mode, data, pos, depth, values, {});
      ghost var rest := all;
      AfterNothing(all);
      while true
        invariant old(pos) <= pos <= |data| && depth == old(depth)
        invariant MembersAre(mode, data, pos, depth, values, seen, rest) && all == After(members, rest)
        decreases |data| - pos
      {
        ghost var p0, v0 := pos, values;
        var name := ParseName(seen);
        if name.Refusal? {
          NamelessMembers(mode, data, p0, depth, v0, seen, rest);
          assert all.Refusal?;
          return Refusal;
        }
        ghost var at := pos;
        var v := ParseValue();
        ghost var next := MembersTurn(mode, data, p0, depth, v0, seen, members, rest, name.value, at, Outcome(v, pos, values));
        if v.Refusal? { return Refusal; }
        members, seen := members + [Named(name.value, v.value)], seen + {name.value};
        SkipWhitespace();
        if pos >= |data| { return Refusal; }
        if data[pos] == COMMA {
          pos := pos + 1;
          rest := next;
        } else if data[pos] == RBRACE {
          pos := pos + 1;
          assert all == Outcome(Ok(members), pos, values);
          return Ok(members);
        } else {
          return Refusal;
        }
      }
    }

    /** A member's name and the colon after it. */
    method ParseName(seen: set<Text>) returns (r: Result<Text>)
      requires pos <= |data|
      modifies this`pos
      ensures Ended(r, pos) == ReadName(data, old(pos), seen)
      ensures pos <= |data|
    {
      SkipWhitespace();
      if pos >= |data| || data[pos] != QUOTE { return Refusal; }
      var name :- ParseString();
      if name in seen { return Refusal; }
      SkipWhitespace();
      if pos >= |data| || data[pos] != COLON { return Refusal; }
      pos := pos + 1;
      SkipWhitespace();
      return Ok(name);
    }
  }
}
