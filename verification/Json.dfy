/** JSON values as the gateway holds them (go/canon.go), and their canonical bytes. */
module Json {
  import opened Utf8

  datatype Named<+T> = Named(name: Text, value: T)

  /** An object's members keep the order they were set in, as vObject.names does; Number is a
      number outside the canonical domain, kept as spelled. */
  datatype Value =
    | Null
    | Bool(b: bool)
    | Int(n: int)
    | Number(spelling: Bytes)
    | Str(s: Text)
    | Arr(items: seq<Value>)
    | Obj(members: seq<Named<Value>>)

  const MAX_SAFE: int := 9007199254740991
  const MAX_NESTING: nat := 10000

  predicate Safe(n: int) { -MAX_SAFE <= n <= MAX_SAFE }

  predicate DistinctNames<T>(ms: seq<Named<T>>) {
    forall i, j :: 0 <= i < j < |ms| ==> ms[i].name != ms[j].name
  }

  /** canonicalValue: the value holds no number kept as spelled. */
  predicate Canonical(v: Value) {
    match v
    case Number(_) => false
    case Arr(items) => forall i :: 0 <= i < |items| ==> Canonical(items[i])
    case Obj(ms) => forall i :: 0 <= i < |ms| ==> Canonical(ms[i].value)
    case _ => true
  }

  /** What every value made by the engine is: an object's names differ, integers are safe. */
  predicate WellFormed(v: Value) {
    match v
    case Int(n) => Safe(n)
    case Arr(items) => forall i :: 0 <= i < |items| ==> WellFormed(items[i])
    case Obj(ms) => DistinctNames(ms) && forall i :: 0 <= i < |ms| ==> WellFormed(ms[i].value)
    case _ => true
  }

  predicate NestsWithin(v: Value, k: nat) {
    match v
    case Arr(items) => k > 0 && forall i :: 0 <= i < |items| ==> NestsWithin(items[i], k - 1)
    case Obj(ms) => k > 0 && forall i :: 0 <= i < |ms| ==> NestsWithin(ms[i].value, k - 1)
    case _ => true
  }

  /** The canonical domain: what the canonical parser reads. */
  predicate InDomain(v: Value) { Canonical(v) && WellFormed(v) && NestsWithin(v, MAX_NESTING) }

  /** Equal as JSON values: objects as maps, whatever order their members were set in. */
  ghost predicate Same(v: Value, w: Value)
    decreases v, 0
  {
    match v
    case Arr(items) =>
      w.Arr? && |w.items| == |items| && forall i :: 0 <= i < |items| ==> Same(items[i], w.items[i])
    case Obj(ms) =>
      w.Obj? && |w.members| == |ms| && forall i :: 0 <= i < |ms| ==> HasSame(w.members, ms[i].name, ms[i].value)
    case _ => v == w
  }

  ghost predicate HasSame(ws: seq<Named<Value>>, name: Text, v: Value)
    decreases v, 1
  {
    exists j :: 0 <= j < |ws| && ws[j].name == name && Same(v, ws[j].value)
  }

  /* ---------- Sorting members by name, as sort.Strings sorts their bytes ---------- */

  predicate NameLess(a: Text, b: Text) { BytesLess(EncodeAll(a), EncodeAll(b)) }

  function Insert<T>(m: Named<T>, sorted: seq<Named<T>>): seq<Named<T>> {
    if sorted == [] then [m]
    else if NameLess(sorted[0].name, m.name) then [sorted[0]] + Insert(m, sorted[1..])
    else [m] + sorted
  }

  function Sort<T>(ms: seq<Named<T>>): seq<Named<T>> {
    if ms == [] then [] else Insert(ms[0], Sort(ms[1..]))
  }

  /* ---------- Canonical bytes ---------- */

  const QUOTE: Byte := 0x22
  const BACKSLASH: Byte := 0x5C
  const COMMA: Byte := 0x2C
  const COLON: Byte := 0x3A
  const LBRACE: Byte := 0x7B
  const RBRACE: Byte := 0x7D
  const LBRACKET: Byte := 0x5B
  const RBRACKET: Byte := 0x5D
  const MINUS: Byte := 0x2D
  const ZERO: Byte := 0x30

  const TRUE: Bytes := [0x74, 0x72, 0x75, 0x65]
  const FALSE: Bytes := [0x66, 0x61, 0x6C, 0x73, 0x65]
  const NULL: Bytes := [0x6E, 0x75, 0x6C, 0x6C]

  function HexDigit(x: int): Byte
    requires 0 <= x < 16
  {
    if x < 10 then 0x30 + x else 0x61 + (x - 10)
  }

  /** One character of a canonical string. */
  function Escape(c: Scalar): (bytes: Bytes)
    ensures |bytes| >= 1
  {
    if c == 0x22 then [BACKSLASH, QUOTE]
    else if c == 0x5C then [BACKSLASH, BACKSLASH]
    else if c == 0x08 then [BACKSLASH, 0x62]
    else if c == 0x0C then [BACKSLASH, 0x66]
    else if c == 0x0A then [BACKSLASH, 0x6E]
    else if c == 0x0D then [BACKSLASH, 0x72]
    else if c == 0x09 then [BACKSLASH, 0x74]
    else if c < 0x20 then [BACKSLASH, 0x75, ZERO, ZERO, HexDigit(c / 16), HexDigit(c % 16)]
    else Encode(c)
  }

  function EscapeAll(s: Text): Bytes {
    if s == [] then [] else Escape(s[0]) + EscapeAll(s[1..])
  }

  function CanonString(s: Text): Bytes { [QUOTE] + EscapeAll(s) + [QUOTE] }

  function Digits(n: nat): (ds: Bytes)
    ensures |ds| >= 1
  {
    if n < 10 then [ZERO + n] else Digits(n / 10) + [ZERO + n % 10]
  }

  function CanonInt(n: int): Bytes { if n < 0 then [MINUS] + Digits(-n) else Digits(n) }

  function Canon(v: Value): Bytes
    decreases v, 1
  {
    match v
    case Null => NULL
    case Bool(b) => if b then TRUE else FALSE
    case Int(n) => CanonInt(n)
    case Number(spelling) => spelling
    case Str(s) => CanonString(s)
    case Arr(items) => [LBRACKET] + CanonItems(items) + [RBRACKET]
    case Obj(ms) => [LBRACE] + Join(Sort(CanonMembers(ms))) + [RBRACE]
  }

  function CanonItems(items: seq<Value>): Bytes
    decreases items, 0
  {
    if items == [] then []
    else if |items| == 1 then Canon(items[0])
    else Canon(items[0]) + [COMMA] + CanonItems(items[1..])
  }

  /** Each member's value in canonical bytes, under its name. */
  function CanonMembers(ms: seq<Named<Value>>): (ps: seq<Named<Bytes>>)
    ensures |ps| == |ms|
    ensures forall i {:trigger ps[i]} :: 0 <= i < |ms| ==> ps[i] == Named(ms[i].name, Canon(ms[i].value))
    decreases ms, 0
  {
    if ms == [] then [] else [Named(ms[0].name, Canon(ms[0].value))] + CanonMembers(ms[1..])
  }

  function Part(p: Named<Bytes>): Bytes { CanonString(p.name) + [COLON] + p.value }

  function Join(ps: seq<Named<Bytes>>): Bytes {
    if ps == [] then []
    else if |ps| == 1 then Part(ps[0])
    else Part(ps[0]) + [COMMA] + Join(ps[1..])
  }

  /** The value with every object's members in canonical order. */
  function Normal(v: Value): Value
    decreases v, 1
  {
    match v
    case Arr(items) => Arr(NormalItems(items))
    case Obj(ms) => Obj(Sort(NormalMembers(ms)))
    case _ => v
  }

  function NormalItems(items: seq<Value>): (ns: seq<Value>)
    ensures |ns| == |items|
    ensures forall i {:trigger ns[i]} :: 0 <= i < |items| ==> ns[i] == Normal(items[i])
    decreases items, 0
  {
    if items == [] then [] else [Normal(items[0])] + NormalItems(items[1..])
  }

  function NormalMembers(ms: seq<Named<Value>>): (ns: seq<Named<Value>>)
    ensures |ns| == |ms|
    ensures forall i {:trigger ns[i]} :: 0 <= i < |ms| ==> ns[i] == Named(ms[i].name, Normal(ms[i].value))
    decreases ms, 0
  {
    if ms == [] then [] else [Named(ms[0].name, Normal(ms[0].value))] + NormalMembers(ms[1..])
  }
}
