/** What the canonical parser of go/canon.go reads, as functions of the bytes and a position. */
module Parser {
  import opened Wrappers
  import opened Utf8
  import opened Json

  /** The parser's settings: a value budget (zero is none), whether a number of any form is
      admitted, whether a sign is refused; and whether every number is kept as spelled, which is
      how a schema's text is decoded (go/descriptor_schema.go). */
  datatype Mode = Mode(maxValues: nat, anyNumber: bool, unsigned: bool, spelled: bool)

  const JSON := Mode(0, false, false, false)
  const RECORD := Mode(0, true, false, false)
  const WRITTEN := Mode(0, true, false, true)
  function Within(maxValues: nat): Mode { Mode(maxValues, false, false, false) }

  /** What was read, where reading stands, and how many values were made so far. */
  datatype Parsed<+T> = Parsed(value: T, pos: nat, values: nat)

  predicate IsSpace(b: Byte) { b == 0x20 || b == 0x09 || b == 0x0A || b == 0x0D }
  predicate IsDigit(b: Byte) { 0x30 <= b <= 0x39 }

  predicate StartsValue(b: Byte) {
    b == LBRACE || b == LBRACKET || b == QUOTE || b == 0x74 || b == 0x66 || b == 0x6E || b == MINUS || IsDigit(b)
  }

  function SkipSpace(d: Bytes, pos: nat): (p: nat)
    ensures pos <= p && (pos <= |d| ==> p <= |d|)
    ensures p < |d| ==> !IsSpace(d[p])
    decreases |d| - pos
  {
    if pos < |d| && IsSpace(d[pos]) then SkipSpace(d, pos + 1) else pos
  }

  function DigitsEnd(d: Bytes, pos: nat): (p: nat)
    ensures pos <= p && (pos <= |d| ==> p <= |d|)
    ensures forall i :: pos <= i < p && i < |d| ==> IsDigit(d[i])
    ensures p < |d| ==> !IsDigit(d[p])
    decreases |d| - pos
  {
    if pos < |d| && IsDigit(d[pos]) then DigitsEnd(d, pos + 1) else pos
  }

  function Decimal(ds: Bytes): int {
    if ds == [] then 0 else Decimal(ds[..|ds| - 1]) * 10 + ((ds[|ds| - 1] as int) - 0x30)
  }

  /* ---------- Strings ---------- */

  function HexValue(b: Byte): (r: Option<int>)
    ensures r.Some? ==> 0 <= r.value < 16
  {
    if 0x30 <= b <= 0x39 then Some((b as int) - 0x30)
    else if 0x61 <= b <= 0x66 then Some((b as int) - 0x61 + 10)
    else if 0x41 <= b <= 0x46 then Some((b as int) - 0x41 + 10)
    else None
  }

  function Hex4(d: Bytes, pos: nat): (r: Option<int>)
    ensures r.Some? ==> pos + 4 <= |d| && 0 <= r.value < 0x10000
  {
    if pos + 4 > |d| then None
    else
      var a, b, c, e := HexValue(d[pos]), HexValue(d[pos + 1]), HexValue(d[pos + 2]), HexValue(d[pos + 3]);
      if a.Some? && b.Some? && c.Some? && e.Some?
      then Some(((a.value * 16 + b.value) * 16 + c.value) * 16 + e.value) else None
  }

  /** The four hex digits at pos, and the low surrogate that must follow a high one. */
  function UnicodeEscape(d: Bytes, pos: nat): (r: Result<(Scalar, nat)>)
    ensures r.Ok? ==> pos < r.value.1 <= |d|
  {
    match Hex4(d, pos)
    case None => Refusal
    case Some(u) =>
      if !(0xD800 <= u < 0xE000) then Ok((u, pos + 4))
      else if pos + 5 < |d| && d[pos + 4] == BACKSLASH && d[pos + 5] == 0x75 then
        match Hex4(d, pos + 6)
        case None => Refusal
        case Some(low) =>
          if u < 0xDC00 && 0xDC00 <= low < 0xE000
          then Ok((0x10000 + (u - 0xD800) * 0x400 + (low - 0xDC00), pos + 10)) else Refusal
      else Refusal
  }

  /** One character of a string, after its opening quote. */
  function OneChar(d: Bytes, pos: nat): (r: Result<(Scalar, nat)>)
    requires pos < |d| && d[pos] != QUOTE
    ensures r.Ok? ==> pos < r.value.1 <= |d|
  {
    if d[pos] == BACKSLASH then
      if pos + 1 >= |d| then Refusal
      else
        var e := d[pos + 1];
        if e == QUOTE || e == BACKSLASH || e == 0x2F then Ok((e, pos + 2))
        else if e == 0x62 then Ok((0x08, pos + 2))
        else if e == 0x66 then Ok((0x0C, pos + 2))
        else if e == 0x6E then Ok((0x0A, pos + 2))
        else if e == 0x72 then Ok((0x0D, pos + 2))
        else if e == 0x74 then Ok((0x09, pos + 2))
        else if e == 0x75 then UnicodeEscape(d, pos + 2)
        else Refusal
    else if d[pos] < 0x20 then Refusal
    else
      match Decode(d, pos)
      case None => Refusal
      case Some((c, size)) => Ok((c, pos + size))
  }

  function StringRest(d: Bytes, pos: nat): (r: Result<(Text, nat)>)
    ensures r.Ok? ==> pos < r.value.1 <= |d|
    decreases |d| - pos
  {
    if pos >= |d| then Refusal
    else if d[pos] == QUOTE then Ok(([], pos + 1))
    else
      var (c, next) :- OneChar(d, pos);
      var (rest, end) :- StringRest(d, next);
      Ok(([c] + rest, end))
  }

  /* ---------- Numbers ---------- */

  function ReadNumber(m: Mode, d: Bytes, pos: nat): (r: Result<(Value, nat)>)
    requires pos < |d|
    ensures r.Ok? ==> pos < r.value.1 <= |d|
  {
    var negative := d[pos] == MINUS;
    var from := if negative then pos + 1 else pos;
    var to := DigitsEnd(d, from);
    if negative && m.unsigned then Refusal
    else if to == from || (d[from] == ZERO && to - from > 1) then Refusal
    else if m.anyNumber then AnyNumber(m, d, pos, from, to)
    else if to < |d| && (d[to] == 0x2E || d[to] == 0x65 || d[to] == 0x45) then Refusal
    else
      var n := Integer(d, pos, from, to);
      if Safe(n) then Ok((Int(n), to)) else Refusal
  }

  function Integer(d: Bytes, pos: nat, from: nat, to: nat): int
    requires pos <= from <= to <= |d|
  {
    if from > pos then -Decimal(d[from..to]) else Decimal(d[from..to])
  }

  /** The end of a fraction at pos, pos itself when there is none, or a refusal. */
  function FractionEnd(d: Bytes, pos: nat): (r: Result<nat>)
    requires pos <= |d|
    ensures r.Ok? ==> pos <= r.value <= |d|
  {
    if pos < |d| && d[pos] == 0x2E then
      var end := DigitsEnd(d, pos + 1);
      if end == pos + 1 then Refusal else Ok(end)
    else Ok(pos)
  }

  function ExponentEnd(d: Bytes, pos: nat): (r: Result<nat>)
    requires pos <= |d|
    ensures r.Ok? ==> pos <= r.value <= |d|
  {
    if pos < |d| && (d[pos] == 0x65 || d[pos] == 0x45) then
      var sign := pos + 1 < |d| && (d[pos + 1] == 0x2B || d[pos + 1] == MINUS);
      var from := if sign then pos + 2 else pos + 1;
      var end := DigitsEnd(d, from);
      if end == from then Refusal else Ok(end)
    else Ok(pos)
  }

  function AnyNumber(m: Mode, d: Bytes, pos: nat, from: nat, to: nat): (r: Result<(Value, nat)>)
    requires pos <= from < to <= |d|
    ensures r.Ok? ==> to <= r.value.1 <= |d|
  {
    var fraction :- FractionEnd(d, to);
    var end :- ExponentEnd(d, fraction);
    if !m.spelled && end == to && Safe(Integer(d, pos, from, to)) then Ok((Int(Integer(d, pos, from, to)), end))
    else Ok((Number(d[pos..end]), end))
  }

  /* ---------- Values ---------- */

  function ReadValue(m: Mode, d: Bytes, pos: nat, depth: nat, values: nat): (r: Result<Parsed<Value>>)
    ensures r.Ok? ==> pos < r.value.pos <= |d|
    decreases |d| - pos, 0
  {
    if pos >= |d| then Refusal
    else
      var c := d[pos];
      var counts := m.maxValues > 0 && StartsValue(c);
      if counts && values >= m.maxValues then Refusal
      else
        var made := if counts then values + 1 else values;
        if c == LBRACE then
          if depth >= MAX_NESTING then Refusal else ReadObject(m, d, pos + 1, depth + 1, made)
        else if c == LBRACKET then
          if depth >= MAX_NESTING then Refusal else ReadArray(m, d, pos + 1, depth + 1, made)
        else
          var (v, end) :- ReadScalar(m, d, pos);
          Ok(Parsed(v, end, made))
  }

  /** A string, a literal or a number. */
  function ReadScalar(m: Mode, d: Bytes, pos: nat): (r: Result<(Value, nat)>)
    requires pos < |d|
    ensures r.Ok? ==> pos < r.value.1 <= |d|
  {
    var c := d[pos];
    if c == QUOTE then
      var (s, end) :- StringRest(d, pos + 1);
      Ok((Str(s), end))
    else if c == 0x74 then if At(d, pos, TRUE) then Ok((Bool(true), pos + 4)) else Refusal
    else if c == 0x66 then if At(d, pos, FALSE) then Ok((Bool(false), pos + 5)) else Refusal
    else if c == 0x6E then if At(d, pos, NULL) then Ok((Null, pos + 4)) else Refusal
    else if c == MINUS || IsDigit(c) then ReadNumber(m, d, pos)
    else Refusal
  }

  function ReadObject(m: Mode, d: Bytes, pos: nat, depth: nat, values: nat): (r: Result<Parsed<Value>>)
    requires pos <= |d|
    ensures r.Ok? ==> pos < r.value.pos <= |d|
    decreases |d| - pos, 2
  {
    var p := SkipSpace(d, pos);
    if p < |d| && d[p] == RBRACE then Ok(Parsed(Obj([]), p + 1, values))
    else
      var ms :- ReadMembers(m, d, p, depth, values, {});
      Ok(Parsed(Obj(ms.value), ms.pos, ms.values))
  }

  function ReadArray(m: Mode, d: Bytes, pos: nat, depth: nat, values: nat): (r: Result<Parsed<Value>>)
    requires pos <= |d|
    ensures r.Ok? ==> pos < r.value.pos <= |d|
    decreases |d| - pos, 2
  {
    var p := SkipSpace(d, pos);
    if p < |d| && d[p] == RBRACKET then Ok(Parsed(Arr([]), p + 1, values))
    else
      var items :- ReadItems(m, d, p, depth, values);
      Ok(Parsed(Arr(items.value), items.pos, items.values))
  }

  /** A member's name, and where its value begins; a name already seen is refused. */
  function ReadName(d: Bytes, pos: nat, seen: set<Text>): (r: Result<(Text, nat)>)
    requires pos <= |d|
    ensures r.Ok? ==> pos < r.value.1 <= |d|
  {
    var p := SkipSpace(d, pos);
    if p >= |d| || d[p] != QUOTE then Refusal
    else
      var (name, after) :- StringRest(d, p + 1);
      var colon := SkipSpace(d, after);
      if name in seen || colon >= |d| || d[colon] != COLON then Refusal
      else Ok((name, SkipSpace(d, colon + 1)))
  }

  /** The members from pos to the object's end. */
  function ReadMembers(m: Mode, d: Bytes, pos: nat, depth: nat, values: nat, seen: set<Text>): (r: Result<Parsed<seq<Named<Value>>>>)
    requires pos <= |d|
    ensures r.Ok? ==> pos < r.value.pos <= |d|
    decreases |d| - pos, 1
  {
    var (name, at) :- ReadName(d, pos, seen);
    var v :- ReadValue(m, d, at, depth, values);
    var p := SkipSpace(d, v.pos);
    if p >= |d| then Refusal
    else if d[p] == COMMA then
      var rest :- ReadMembers(m, d, p + 1, depth, v.values, seen + {name});
      Ok(Parsed([Named(name, v.value)] + rest.value, rest.pos, rest.values))
    else if d[p] == RBRACE then Ok(Parsed([Named(name, v.value)], p + 1, v.values))
    else Refusal
  }

  /** The elements from pos to the array's end. */
  function ReadItems(m: Mode, d: Bytes, pos: nat, depth: nat, values: nat): (r: Result<Parsed<seq<Value>>>)
    requires pos <= |d|
    ensures r.Ok? ==> pos < r.value.pos <= |d|
    decreases |d| - pos, 1
  {
    var at := SkipSpace(d, pos);
    var v :- ReadValue(m, d, at, depth, values);
    var p := SkipSpace(d, v.pos);
    if p >= |d| then Refusal
    else if d[p] == COMMA then
      var rest :- ReadItems(m, d, p + 1, depth, v.values);
      Ok(Parsed([v.value] + rest.value, rest.pos, rest.values))
    else if d[p] == RBRACKET then Ok(Parsed([v.value], p + 1, v.values))
    else Refusal
  }

  /** document(): the whole of the bytes is one value and white space around it. */
  function Document(m: Mode, d: Bytes): Result<Value> {
    var v :- ReadValue(m, d, SkipSpace(d, 0), 0, 0);
    if SkipSpace(d, v.pos) == |d| then Ok(v.value) else Refusal
  }

  function CanonText(d: Bytes): Result<Bytes> {
    var v :- Document(JSON, d);
    Ok(Canon(v))
  }
}
