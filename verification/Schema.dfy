/** Tool schemas of schema grammar 1: which instances one admits, and the schema as served
    (go/descriptor_schema.go). A schema's values are JSON values whose numbers stay as spelled. */
module Schema {
  import opened Wrappers
  import opened Utf8
  import opened Json
  import opened Parser
  import opened Pointers

  datatype Keyword =
    | Type | Properties | Required | AdditionalProperties | Items | Enum | Const
    | Minimum | Maximum | ExclusiveMinimum | ExclusiveMaximum | MultipleOf
    | MinLength | MaxLength | MinItems | MaxItems | MinProperties | MaxProperties
    | AnyOf | OneOf | AllOf | Not
    | Described | Examples | Default | Flag | Dialect | NoKeyword

  /** The keywords by name. */
  function KeywordRow(i: nat): (string, Keyword) {
    match i
    case 0 => ("type", Type)
    case 1 => ("properties", Properties)
    case 2 => ("required", Required)
    case 3 => ("additionalProperties", AdditionalProperties)
    case 4 => ("items", Items)
    case 5 => ("enum", Enum)
    case 6 => ("const", Const)
    case 7 => ("minimum", Minimum)
    case 8 => ("maximum", Maximum)
    case 9 => ("exclusiveMinimum", ExclusiveMinimum)
    case 10 => ("exclusiveMaximum", ExclusiveMaximum)
    case 11 => ("multipleOf", MultipleOf)
    case 12 => ("minLength", MinLength)
    case 13 => ("maxLength", MaxLength)
    case 14 => ("minItems", MinItems)
    case 15 => ("maxItems", MaxItems)
    case 16 => ("minProperties", MinProperties)
    case 17 => ("maxProperties", MaxProperties)
    case 18 => ("anyOf", AnyOf)
    case 19 => ("oneOf", OneOf)
    case 20 => ("allOf", AllOf)
    case 21 => ("not", Not)
    case 22 => ("description", Described)
    case 23 => ("title", Described)
    case 24 => ("$comment", Described)
    case 25 => ("examples", Examples)
    case 26 => ("default", Default)
    case 27 => ("deprecated", Flag)
    case 28 => ("readOnly", Flag)
    case 29 => ("writeOnly", Flag)
    case 30 => ("$schema", Dialect)
    case _ => ("", NoKeyword)
  }

  function KeywordFrom(i: nat, name: Text): Keyword
    decreases 31 - i
  {
    if i >= 31 then NoKeyword else if name == Ascii(KeywordRow(i).0) then KeywordRow(i).1 else KeywordFrom(i + 1, name)
  }

  function KeywordOf(name: Text): Keyword { KeywordFrom(0, name) }

  /** annotationKeywords: nothing that bears on validation. */
  predicate Annotation(k: Keyword) { k == Described || k == Examples || k == Default || k == Flag }

  predicate OneSchema(k: Keyword) { k == Items || k == AdditionalProperties || k == Not }

  predicate Branches(k: Keyword) { k == AnyOf || k == OneOf || k == AllOf }

  /* ---------- Which instances a schema admits (JSON Schema Validation 2020-12) ---------- */

  datatype TypeName = NullType | BooleanType | ObjectType | ArrayType | NumberType | StringType | IntegerType

  function TypeNameOf(name: Text): Option<TypeName> {
    if name == Ascii("null") then Some(NullType)
    else if name == Ascii("boolean") then Some(BooleanType)
    else if name == Ascii("object") then Some(ObjectType)
    else if name == Ascii("array") then Some(ArrayType)
    else if name == Ascii("number") then Some(NumberType)
    else if name == Ascii("string") then Some(StringType)
    else if name == Ascii("integer") then Some(IntegerType)
    else None
  }

  /** What number a spelling names. The schema's meaning is stated for any reading of spellings. */
  type Numerals = Bytes -> real

  function NumberOf(num: Numerals, v: Value): Option<real> {
    match v
    case Int(n) => Some(n as real)
    case Number(spelling) => Some(num(spelling))
    case _ => None
  }

  predicate HasType(num: Numerals, v: Value, t: TypeName) {
    match t
    case NullType => v.Null?
    case BooleanType => v.Bool?
    case ObjectType => v.Obj?
    case ArrayType => v.Arr?
    case StringType => v.Str?
    case NumberType => NumberOf(num, v).Some?
    case IntegerType => NumberOf(num, v).Some? && NumberOf(num, v).value == NumberOf(num, v).value.Floor as real
  }

  predicate NamesType(num: Numerals, name: Value, v: Value) {
    name.Str? && TypeNameOf(name.s).Some? && HasType(num, v, TypeNameOf(name.s).value)
  }

  /** Equal as JSON data, at every depth: numbers by value, objects as maps. */
  ghost predicate Equals(num: Numerals, a: Value, b: Value)
    decreases a, 0
  {
    match a
    case Arr(items) => b.Arr? && |b.items| == |items| && forall i :: 0 <= i < |items| ==> Equals(num, items[i], b.items[i])
    case Obj(ms) => b.Obj? && |b.members| == |ms| && forall i :: 0 <= i < |ms| ==> HasEqual(num, b.members, ms[i].name, ms[i].value)
    case _ => ScalarEquals(num, a, b)
  }

  ghost predicate HasEqual(num: Numerals, bs: seq<Named<Value>>, name: Text, a: Value)
    decreases a, 1
  {
    exists j :: 0 <= j < |bs| && bs[j].name == name && Equals(num, a, bs[j].value)
  }

  predicate ScalarEquals(num: Numerals, a: Value, b: Value) {
    if NumberOf(num, a).Some? && NumberOf(num, b).Some? then NumberOf(num, a) == NumberOf(num, b) else a == b
  }

  function Times(k: int, m: real): real { k as real * m }

  ghost predicate Multiple(x: real, m: real) { exists k: int :: x == Times(k, m) }

  /** A limit on a number: what is not a number meets it. */
  ghost predicate NumberLimit(num: Numerals, k: Keyword, limit: Value, v: Value) {
    var x, y := NumberOf(num, v), NumberOf(num, limit);
    x.Some? && y.Some? ==>
      match k
      case Minimum => y.value <= x.value
      case Maximum => x.value <= y.value
      case ExclusiveMinimum => y.value < x.value
      case ExclusiveMaximum => x.value < y.value
      case MultipleOf => Multiple(x.value, y.value)
      case _ => true
  }

  /** A limit on a size: on a string's characters, an array's elements, an object's members. */
  predicate SizeLimit(num: Numerals, k: Keyword, limit: Value, v: Value) {
    var y := NumberOf(num, limit);
    y.Some? ==>
      match k
      case MinLength => v.Str? ==> y.value <= |v.s| as real
      case MaxLength => v.Str? ==> |v.s| as real <= y.value
      case MinItems => v.Arr? ==> y.value <= |v.items| as real
      case MaxItems => v.Arr? ==> |v.items| as real <= y.value
      case MinProperties => v.Obj? ==> y.value <= |v.members| as real
      case MaxProperties => v.Obj? ==> |v.members| as real <= y.value
      case _ => true
  }

  /** The names a schema's properties member lists. */
  function PropertyNames(ms: seq<Named<Value>>): set<Text> {
    set i, j | 0 <= i < |ms| && KeywordOf(ms[i].name) == Properties && ms[i].value.Obj? && 0 <= j < |ms[i].value.members|
      :: ms[i].value.members[j].name
  }

  /** The instance is valid under the schema. */
  ghost predicate Validates(num: Numerals, s: Value, v: Value)
    decreases s, 2
  {
    match s
    case Bool(b) => b
    case Obj(ms) => MeetsAll(num, ms, PropertyNames(ms), v)
    case _ => true
  }

  ghost predicate MeetsAll(num: Numerals, ms: seq<Named<Value>>, listed: set<Text>, v: Value)
    decreases ms, 0
  {
    ms == [] || (Meets(num, KeywordOf(ms[0].name), ms[0].value, listed, v) && MeetsAll(num, ms[1..], listed, v))
  }

  ghost predicate Meets(num: Numerals, k: Keyword, x: Value, listed: set<Text>, v: Value)
    decreases x, 3
  {
    match k
    case Type => if x.Arr? then exists i :: 0 <= i < |x.items| && NamesType(num, x.items[i], v) else NamesType(num, x, v)
    case Properties => x.Obj? && v.Obj? ==> MembersValid(num, x.members, v)
    case Required => x.Arr? && v.Obj? ==> forall i :: 0 <= i < |x.items| && x.items[i].Str? ==> Get(v.members, x.items[i].s).Some?
    case AdditionalProperties =>
      v.Obj? ==> forall i :: 0 <= i < |v.members| && v.members[i].name !in listed ==> Validates(num, x, v.members[i].value)
    case Items => v.Arr? ==> forall i :: 0 <= i < |v.items| ==> Validates(num, x, v.items[i])
    case Enum => x.Arr? ==> exists i :: 0 <= i < |x.items| && Equals(num, x.items[i], v)
    case Const => Equals(num, x, v)
    case AnyOf => x.Arr? ==> Passing(num, x.items, v) > 0
    case OneOf => x.Arr? ==> Passing(num, x.items, v) == 1
    case AllOf => x.Arr? ==> Passing(num, x.items, v) == |x.items|
    case Not => !Validates(num, x, v)
    case _ => NumberLimit(num, k, x, v) && SizeLimit(num, k, x, v)
  }

  /** Each property the instance has is valid under its schema. */
  ghost predicate MembersValid(num: Numerals, ps: seq<Named<Value>>, v: Value)
    requires v.Obj?
    decreases ps, 0
  {
    ps == []
    || ((Get(v.members, ps[0].name).Some? ==> Validates(num, ps[0].value, Get(v.members, ps[0].name).value))
        && MembersValid(num, ps[1..], v))
  }

  /** How many of the branches the instance is valid under. */
  ghost function Passing(num: Numerals, ss: seq<Value>, v: Value): nat
    decreases ss, 0
  {
    if ss == [] then 0 else (if Validates(num, ss[0], v) then 1 else 0) + Passing(num, ss[1..], v)
  }

  /* ---------- The grammar ---------- */

  const MAX_DEPTH: nat := 32
  const MAX_LOCATIONS: nat := 2048
  const MAX_LIST: nat := 256
  const MAX_BRANCHES: nat := 16

  const MAX_TEXT: nat := 16384
  const NAME_BOUND: nat := 128
  const STRING_BOUND: nat := 1024

  /** Which texts display policy 1 shows, and what number a spelling names. */
  datatype Rules = Rules(shows: Text -> bool, num: Numerals)

  predicate StringOk(r: Rules, s: Text, bound: nat) { |EncodeAll(s)| <= bound && r.shows(s) }

  predicate IsNumber(x: Value) { x.Int? || x.Number? }

  predicate IsScalar(x: Value) { !x.Arr? && !x.Obj? }

  function TrimLeft(s: Bytes, cut: set<Byte>): Bytes { if s != [] && s[0] in cut then TrimLeft(s[1..], cut) else s }

  /** What follows the first e or E of a literal. */
  function AfterExponent(s: Bytes): Option<Bytes> {
    if s == [] then None else if s[0] == 0x65 || s[0] == 0x45 then Some(s[1..]) else AfterExponent(s[1..])
  }

  /** A number as written: at most 32 characters, an exponent within 308 either way. */
  predicate NumberOk(literal: Bytes) {
    |literal| <= 32
    && (AfterExponent(literal).Some? ==>
          var digits := TrimLeft(TrimLeft(AfterExponent(literal).value, {0x2B, 0x2D}), {0x30});
          |digits| <= 3 && Decimal(digits) <= 308)
  }

  /** A non-negative integer with neither fraction nor exponent, at most 2^53-1. */
  predicate LengthSpelling(literal: Bytes) {
    literal != [] && !(literal[0] == ZERO && |literal| > 1)
    && (forall i :: 0 <= i < |literal| ==> IsDigit(literal[i])) && Decimal(literal) <= MAX_SAFE
  }

  predicate ScalarOk(r: Rules, x: Value) {
    IsScalar(x) && (x.Str? ==> StringOk(r, x.s, STRING_BOUND)) && (IsNumber(x) ==> NumberOk(Canon(x)))
  }

  /** Data, a default or an example: every string, name and number within its bounds. */
  predicate DataOk(r: Rules, x: Value) {
    match x
    case Str(s) => StringOk(r, s, STRING_BOUND)
    case Int(_) => NumberOk(Canon(x))
    case Number(_) => NumberOk(Canon(x))
    case Arr(items) => forall i :: 0 <= i < |items| ==> DataOk(r, items[i])
    case Obj(ms) => forall i :: 0 <= i < |ms| ==> StringOk(r, ms[i].name, STRING_BOUND) && DataOk(r, ms[i].value)
    case _ => true
  }

  predicate Distinct(items: seq<Value>) { forall i, j :: 0 <= i < j < |items| ==> items[i] != items[j] }

  predicate IsTypeName(x: Value) { x.Str? && TypeNameOf(x.s).Some? }

  predicate IsTypeList(x: Value) {
    x.Arr? && |x.items| > 0 && Distinct(x.items) && forall i :: 0 <= i < |x.items| ==> IsTypeName(x.items[i])
  }

  /** The value of a keyword that holds no schema, at a depth. */
  predicate LeafConforms(r: Rules, k: Keyword, x: Value, depth: nat) {
    match k
    case Type =>
      if depth == 1 then x == Str(Ascii("object")) else IsTypeName(x) || IsTypeList(x)
    case Required =>
      x.Arr? && |x.items| <= MAX_LIST && Distinct(x.items)
      && forall i :: 0 <= i < |x.items| ==> x.items[i].Str? && StringOk(r, x.items[i].s, STRING_BOUND)
    case Enum =>
      x.Arr? && 0 < |x.items| <= MAX_LIST && (forall i :: 0 <= i < |x.items| ==> ScalarOk(r, x.items[i]))
      && forall i, j :: 0 <= i < j < |x.items| ==> !ScalarEquals(r.num, x.items[i], x.items[j])
    case Const => ScalarOk(r, x)
    case Minimum => IsNumber(x) && NumberOk(Canon(x))
    case Maximum => IsNumber(x) && NumberOk(Canon(x))
    case ExclusiveMinimum => IsNumber(x) && NumberOk(Canon(x))
    case ExclusiveMaximum => IsNumber(x) && NumberOk(Canon(x))
    case MultipleOf => IsNumber(x) && NumberOk(Canon(x)) && NumberOf(r.num, x).value > 0.0
    case Described => x.Str? && StringOk(r, x.s, STRING_BOUND)
    case Examples => x.Arr? && DataOk(r, x)
    case Default => DataOk(r, x)
    case Flag => x.Bool?
    case Dialect =>
      depth == 1 && (x == Str(Ascii("https://json-schema.org/draft/2020-12/schema")) || x == Str(Ascii("http://json-schema.org/draft-07/schema#")))
    case _ => IsNumber(x) && LengthSpelling(Canon(x))
  }

  /** A schema at this depth is one of the grammar. */
  predicate Conforms(r: Rules, n: Value, depth: nat)
    decreases n, 2
  {
    && depth <= MAX_DEPTH && n.Obj? && KeywordsConform(r, n.members, depth)
    && (depth == 1 ==> exists i :: 0 <= i < |n.members| && KeywordOf(n.members[i].name) == Type)
  }

  predicate KeywordsConform(r: Rules, ms: seq<Named<Value>>, depth: nat)
    decreases ms, 0
  {
    ms == [] || (KeywordConforms(r, KeywordOf(ms[0].name), ms[0].value, depth) && KeywordsConform(r, ms[1..], depth))
  }

  predicate KeywordConforms(r: Rules, k: Keyword, x: Value, depth: nat)
    decreases x, 3
  {
    match k
    case Properties => x.Obj? && |x.members| <= MAX_LIST && MapConforms(r, x.members, depth + 1)
    case AdditionalProperties => x.Bool? || Conforms(r, x, depth + 1)
    case Items => !x.Arr? && Conforms(r, x, depth + 1)
    case Not => Conforms(r, x, depth + 1)
    case AnyOf => x.Arr? && 0 < |x.items| <= MAX_BRANCHES && AllConform(r, x.items, depth + 1)
    case OneOf => x.Arr? && 0 < |x.items| <= MAX_BRANCHES && AllConform(r, x.items, depth + 1)
    case AllOf => x.Arr? && 0 < |x.items| <= MAX_BRANCHES && AllConform(r, x.items, depth + 1)
    case NoKeyword => false
    case _ => LeafConforms(r, k, x, depth)
  }

  predicate MapConforms(r: Rules, ps: seq<Named<Value>>, depth: nat)
    decreases ps, 0
  {
    ps == [] || (StringOk(r, ps[0].name, NAME_BOUND) && Conforms(r, ps[0].value, depth) && MapConforms(r, ps[1..], depth))
  }

  predicate AllConform(r: Rules, ss: seq<Value>, depth: nat)
    decreases ss, 0
  {
    ss == [] || (Conforms(r, ss[0], depth) && AllConform(r, ss[1..], depth))
  }

  /** How many schema locations the walk meets. */
  function Locations(n: Value): nat
    decreases n, 2
  {
    1 + if n.Obj? then KeywordLocations(n.members) else 0
  }

  function KeywordLocations(ms: seq<Named<Value>>): nat
    decreases ms, 0
  {
    if ms == [] then 0 else LocationsUnder(KeywordOf(ms[0].name), ms[0].value) + KeywordLocations(ms[1..])
  }

  function LocationsUnder(k: Keyword, x: Value): nat
    decreases x, 3
  {
    if k == Properties && x.Obj? then MapLocations(x.members)
    else if k == AdditionalProperties && x.Bool? then 0
    else if OneSchema(k) then Locations(x)
    else if Branches(k) && x.Arr? then AllLocations(x.items)
    else 0
  }

  function MapLocations(ps: seq<Named<Value>>): nat
    decreases ps, 0
  {
    if ps == [] then 0 else Locations(ps[0].value) + MapLocations(ps[1..])
  }

  function AllLocations(ss: seq<Value>): nat
    decreases ss, 0
  {
    if ss == [] then 0 else Locations(ss[0]) + AllLocations(ss[1..])
  }

  /** What the walk accepts of a schema parsed. */
  predicate Judged(r: Rules, root: Value) { Conforms(r, root, 1) && Locations(root) <= MAX_LOCATIONS }

  /** The walk that judges: it counts locations as it goes and stops at the first refusal. */
  class GrammarWalk {
    const rules: Rules
    var locations: nat
    var refused: bool

    constructor (rules: Rules)
      ensures this.rules == rules && locations == 0 && !refused
    {
      this.rules, locations, refused := rules, 0, false;
    }

    /** What walking something adds: refused unless it conforms and its locations fit. */
    twostate predicate Walked(conforms: bool, count: nat)
      reads this
    {
      && (refused <==> old(refused) || !conforms || old(locations) + count > MAX_LOCATIONS)
      && (!refused ==> locations == old(locations) + count)
    }

    method Schema(n: Value, depth: nat)
      requires !refused && locations <= MAX_LOCATIONS
      modifies this
      ensures Walked(Conforms(rules, n, depth), Locations(n))
      decreases n, 2, 0
    {
      locations := locations + 1;
      if locations > MAX_LOCATIONS || depth > MAX_DEPTH || !n.Obj? {
        refused := true;
        return;
      }
      Keywords(n.members, depth);
      if refused { return; }
      refused := depth == 1 && !(exists i :: 0 <= i < |n.members| && KeywordOf(n.members[i].name) == Type);
    }

    method Keywords(ms: seq<Named<Value>>, depth: nat)
      requires !refused && locations <= MAX_LOCATIONS
      modifies this
      ensures Walked(KeywordsConform(rules, ms, depth), KeywordLocations(ms))
      decreases ms, 0
    {
      for i := 0 to |ms|
        invariant !refused && locations <= MAX_LOCATIONS
        invariant locations + KeywordLocations(ms[i..]) == old(locations) + KeywordLocations(ms)
        invariant KeywordsConform(rules, ms, depth) <==> KeywordsConform(rules, ms[i..], depth)
      {
        assert ms[i..][1..] == ms[i + 1..];
        Keyword(KeywordOf(ms[i].name), ms[i].value, depth);
        if refused { return; }
      }
    }

    method Keyword(k: Keyword, x: Value, depth: nat)
      requires !refused && locations <= MAX_LOCATIONS
      modifies this
      ensures Walked(KeywordConforms(rules, k, x, depth), LocationsUnder(k, x))
      decreases x, 3
    {
      if k == Properties {
        if !x.Obj? || |x.members| > MAX_LIST { refused := true; } else { Map(x.members, depth + 1); }
      } else if OneSchema(k) {
        One(k, x, depth);
      } else if Branches(k) {
        Several(k, x, depth);
      } else {
        Leaf(k, x, depth);
      }
    }

    method Several(k: Keyword, x: Value, depth: nat)
      requires Branches(k) && !refused && locations <= MAX_LOCATIONS
      modifies this
      ensures Walked(KeywordConforms(rules, k, x, depth), LocationsUnder(k, x))
      decreases x, 2, 1
    {
      if !x.Arr? || |x.items| == 0 || |x.items| > MAX_BRANCHES { refused := true; } else { All(x.items, depth + 1); }
    }

    method Leaf(k: Keyword, x: Value, depth: nat)
      requires k != Properties && !OneSchema(k) && !Branches(k) && !refused && locations <= MAX_LOCATIONS
      modifies this
      ensures Walked(KeywordConforms(rules, k, x, depth), LocationsUnder(k, x))
    {
      refused := k == NoKeyword || !LeafConforms(rules, k, x, depth);
    }

    /** additionalProperties, items and not: one schema, or for the first a boolean. */
    method One(k: Keyword, x: Value, depth: nat)
      requires OneSchema(k) && !refused && locations <= MAX_LOCATIONS
      modifies this
      ensures Walked(KeywordConforms(rules, k, x, depth), LocationsUnder(k, x))
      decreases x, 2, 1
    {
      if k == Items && x.Arr? {
        refused := true;
      } else if !(k == AdditionalProperties && x.Bool?) {
        Schema(x, depth + 1);
      }
    }

    method Map(ps: seq<Named<Value>>, depth: nat)
      requires !refused && locations <= MAX_LOCATIONS
      modifies this
      ensures Walked(MapConforms(rules, ps, depth), MapLocations(ps))
      decreases ps, 0
    {
      for i := 0 to |ps|
        invariant !refused && locations <= MAX_LOCATIONS
        invariant locations + MapLocations(ps[i..]) == old(locations) + MapLocations(ps)
        invariant MapConforms(rules, ps, depth) <==> MapConforms(rules, ps[i..], depth)
      {
        assert ps[i..][1..] == ps[i + 1..];
        if !StringOk(rules, ps[i].name, NAME_BOUND) {
          refused := true;
          return;
        }
        Schema(ps[i].value, depth);
        if refused { return; }
      }
    }

    method All(ss: seq<Value>, depth: nat)
      requires !refused && locations <= MAX_LOCATIONS
      modifies this
      ensures Walked(AllConform(rules, ss, depth), AllLocations(ss))
      decreases ss, 0
    {
      for i := 0 to |ss|
        invariant !refused && locations <= MAX_LOCATIONS
        invariant locations + AllLocations(ss[i..]) == old(locations) + AllLocations(ss)
        invariant AllConform(rules, ss, depth) <==> AllConform(rules, ss[i..], depth)
      {
        assert ss[i..][1..] == ss[i + 1..];
        Schema(ss[i], depth);
        if refused { return; }
      }
    }
  }

  /** judgeSchema: a text within its bound, one strict JSON value with its numbers kept as written,
      of the grammar. */
  method JudgeSchema(rules: Rules, text: Bytes) returns (r: Result<Value>)
    ensures r == if |text| <= MAX_TEXT && Document(WRITTEN, text).Ok? && Judged(rules, Document(WRITTEN, text).value)
                 then Document(WRITTEN, text) else Refusal
  {
    if |text| > MAX_TEXT { return Refusal; }
    var root :- Document(WRITTEN, text);
    var walk := new GrammarWalk(rules);
    walk.Schema(root, 1);
    return if walk.refused then Refusal else Ok(root);
  }

  /* ---------- The projection ---------- */

  /** The schema without its annotations, as a value. */
  function Strip(s: Value): Value
    decreases s, 2
  {
    match s
    case Obj(ms) => Obj(StripMembers(ms))
    case _ => s
  }

  function StripMembers(ms: seq<Named<Value>>): seq<Named<Value>>
    decreases ms, 0
  {
    if ms == [] then []
    else if Annotation(KeywordOf(ms[0].name)) then StripMembers(ms[1..])
    else [Named(ms[0].name, StripUnder(KeywordOf(ms[0].name), ms[0].value))] + StripMembers(ms[1..])
  }

  function StripUnder(k: Keyword, x: Value): Value
    decreases x, 3
  {
    if k == Properties && x.Obj? then Obj(StripMap(x.members))
    else if OneSchema(k) then Strip(x)
    else if Branches(k) && x.Arr? then Arr(StripAll(x.items))
    else x
  }

  function StripMap(ps: seq<Named<Value>>): (r: seq<Named<Value>>)
    ensures |r| == |ps| && forall i :: 0 <= i < |ps| ==> r[i] == Named(ps[i].name, Strip(ps[i].value))
    decreases ps, 0
  {
    if ps == [] then [] else [Named(ps[0].name, Strip(ps[0].value))] + StripMap(ps[1..])
  }

  function StripAll(ss: seq<Value>): (r: seq<Value>)
    ensures |r| == |ss| && forall i :: 0 <= i < |ss| ==> r[i] == Strip(ss[i])
    decreases ss, 0
  {
    if ss == [] then [] else [Strip(ss[0])] + StripAll(ss[1..])
  }

  /** projectSchema's write: the bytes served, the annotations left out as they are met. */
  function Write(n: Value, location: bool): Bytes
    decreases n, 2
  {
    match n
    case Obj(ms) => [LBRACE] + Join(Sort(WriteMembers(ms, location))) + [RBRACE]
    case Arr(items) => [LBRACKET] + WriteItems(items, false) + [RBRACKET]
    case _ => Canon(n)
  }

  function WriteMembers(ms: seq<Named<Value>>, location: bool): seq<Named<Bytes>>
    decreases ms, 0
  {
    if ms == [] then []
    else
      var k := KeywordOf(ms[0].name);
      if location && Annotation(k) then WriteMembers(ms[1..], location)
      else
        [Named(ms[0].name, if location then WriteUnder(k, ms[0].value) else Write(ms[0].value, false))]
        + WriteMembers(ms[1..], location)
  }

  function WriteUnder(k: Keyword, x: Value): Bytes
    decreases x, 3
  {
    if k == Properties && x.Obj? then [LBRACE] + Join(Sort(WriteMap(x.members))) + [RBRACE]
    else if OneSchema(k) then Write(x, x.Obj?)
    else if Branches(k) && x.Arr? then [LBRACKET] + WriteItems(x.items, true) + [RBRACKET]
    else Write(x, false)
  }

  /** writeSchemaMap: each member's value is a schema location. */
  function WriteMap(ps: seq<Named<Value>>): seq<Named<Bytes>>
    decreases ps, 0
  {
    if ps == [] then [] else [Named(ps[0].name, Write(ps[0].value, true))] + WriteMap(ps[1..])
  }

  function WriteItems(items: seq<Value>, location: bool): Bytes
    decreases items, 0
  {
    if items == [] then []
    else if |items| == 1 then Write(items[0], location)
    else Write(items[0], location) + [COMMA] + WriteItems(items[1..], location)
  }
}
