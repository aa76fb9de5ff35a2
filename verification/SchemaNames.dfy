/** The members of a schema by their names: which keyword each name spells, and what the grammar holds
    the value of each to (go/descriptor_schema.go). */
module SchemaNames {
  import opened Wrappers
  import opened Utf8
  import opened Json
  import opened Parser
  import opened Pointers
  import opened Schema

  /* ---------- The names ---------- */

  lemma SameAscii(a: string, b: string)
    requires Ascii(a) == Ascii(b)
    ensures a == b
  {
    assert |a| == |Ascii(a)| == |b|;
    forall i | 0 <= i < |a| ensures a[i] == b[i] { assert Ascii(a)[i] == Ascii(b)[i]; }
  }

  /** Which row a keyword is in, by its length and a letter or two. */
  function RowNumber(s: string): nat {
    match |s|
    case 3 => 21
    case 4 => if s[0] == 't' then 0 else 5
    case 5 =>
      if s[0] == 'i' then 4 else if s[0] == 'c' then 6 else if s[0] == 'o' then 19 else if s[0] == 't' then 23
      else if s[1] == 'n' then 18 else 20
    case 7 => if s[0] == 'd' then 26 else if s[0] == '$' then 30 else if s[1] == 'i' then 7 else 8
    case 8 =>
      if s[0] == '$' then 24 else if s[0] == 'e' then 25 else if s[0] == 'r' then (if s[2] == 'q' then 2 else 28)
      else if s[1] == 'i' then 14 else 15
    case 9 => if s[0] == 'w' then 29 else if s[1] == 'i' then 12 else 13
    case 10 => if s[0] == 'p' then 1 else if s[0] == 'm' then 11 else 27
    case 11 => 22
    case 13 => if s[1] == 'i' then 16 else 17
    case 16 => if s[10] == 'i' then 9 else 10
    case 20 => 3
    case _ => 31
  }

  lemma RowsDiffer(i: nat)
    requires i < 31
    ensures RowNumber(KeywordRow(i).0) == i
  {
  }

  lemma RowsUnlike(i: nat, j: nat)
    requires i < j < 31
    ensures Ascii(KeywordRow(i).0) != Ascii(KeywordRow(j).0)
  {
    RowsDiffer(i);
    RowsDiffer(j);
    if Ascii(KeywordRow(i).0) == Ascii(KeywordRow(j).0) { SameAscii(KeywordRow(i).0, KeywordRow(j).0); }
  }

  lemma {:induction false} SpellsFrom(i: nat, j: nat, name: Text, k: Keyword)
    requires i <= j < 31 && name == Ascii(KeywordRow(j).0) && k == KeywordRow(j).1
    ensures KeywordFrom(i, name) == k
    decreases j - i
  {
    if i < j {
      RowsUnlike(i, j);
      SpellsFrom(i + 1, j, name, k);
    }
  }

  /** Each row's name spells its keyword. */
  lemma Spells(j: nat, s: string, k: Keyword)
    requires j < 31 && KeywordRow(j) == (s, k)
    ensures KeywordOf(Ascii(s)) == k
  {
    SpellsFrom(0, j, Ascii(s), k);
  }

  /** A name that is a keyword is in some row. */
  lemma {:induction false} InSomeRow(i: nat, name: Text) returns (j: nat)
    requires i <= 31 && KeywordFrom(i, name) != NoKeyword
    ensures j < 31 && name == Ascii(KeywordRow(j).0) && KeywordFrom(i, name) == KeywordRow(j).1
    decreases 31 - i
  {
    if name == Ascii(KeywordRow(i).0) { j := i; } else { j := InSomeRow(i + 1, name); }
  }

  /** The first row of a keyword. */
  function FirstRow(k: Keyword): nat {
    match k
    case Type => 0
    case Properties => 1
    case Required => 2
    case AdditionalProperties => 3
    case Items => 4
    case Enum => 5
    case Const => 6
    case Minimum => 7
    case Maximum => 8
    case ExclusiveMinimum => 9
    case ExclusiveMaximum => 10
    case MultipleOf => 11
    case MinLength => 12
    case MaxLength => 13
    case MinItems => 14
    case MaxItems => 15
    case MinProperties => 16
    case MaxProperties => 17
    case AnyOf => 18
    case OneOf => 19
    case AllOf => 20
    case Not => 21
    case Described => 22
    case Examples => 25
    case Default => 26
    case Flag => 27
    case Dialect => 30
    case NoKeyword => 31
  }

  lemma RowFirst(i: nat)
    requires i < 31
    ensures FirstRow(KeywordRow(i).1) == if i == 23 || i == 24 then 22 else if i == 28 || i == 29 then 27 else i
  {
  }

  /** A keyword of one name is spelled by that name alone. */
  lemma OneName(j: nat, s: string, k: Keyword, name: Text)
    requires j < 31 && KeywordRow(j) == (s, k) && k != Described && k != Flag
    ensures KeywordOf(name) == k <==> name == Ascii(s)
  {
    if KeywordOf(name) == k {
      RowFirst(j);
      var i := InSomeRow(0, name);
      RowFirst(i);
    } else if name == Ascii(s) {
      Spells(j, s, k);
    }
  }

  /** A name spells one of these keywords exactly when it is this text. */
  lemma ShapeKeywords(name: Text)
    ensures KeywordOf(name) == Type <==> name == Ascii("type")
    ensures KeywordOf(name) == Properties <==> name == Ascii("properties")
    ensures KeywordOf(name) == Required <==> name == Ascii("required")
    ensures KeywordOf(name) == AdditionalProperties <==> name == Ascii("additionalProperties")
    ensures KeywordOf(name) == Items <==> name == Ascii("items")
    ensures KeywordOf(name) == Enum <==> name == Ascii("enum")
    ensures KeywordOf(name) == Const <==> name == Ascii("const")
    ensures KeywordOf(name) == Minimum <==> name == Ascii("minimum")
    ensures KeywordOf(name) == Maximum <==> name == Ascii("maximum")
    ensures KeywordOf(name) == ExclusiveMinimum <==> name == Ascii("exclusiveMinimum")
    ensures KeywordOf(name) == ExclusiveMaximum <==> name == Ascii("exclusiveMaximum")
  {
    OneName(0, "type", Type, name);
    OneName(1, "properties", Properties, name);
    OneName(2, "required", Required, name);
    OneName(3, "additionalProperties", AdditionalProperties, name);
    OneName(4, "items", Items, name);
    OneName(5, "enum", Enum, name);
    OneName(6, "const", Const, name);
    OneName(7, "minimum", Minimum, name);
    OneName(8, "maximum", Maximum, name);
    OneName(9, "exclusiveMinimum", ExclusiveMinimum, name);
    OneName(10, "exclusiveMaximum", ExclusiveMaximum, name);
  }

  /** The same of the limits and of the keywords that combine schemas. */
  lemma LimitKeywords(name: Text)
    ensures KeywordOf(name) == MultipleOf <==> name == Ascii("multipleOf")
    ensures KeywordOf(name) == MinLength <==> name == Ascii("minLength")
    ensures KeywordOf(name) == MaxLength <==> name == Ascii("maxLength")
    ensures KeywordOf(name) == MinItems <==> name == Ascii("minItems")
    ensures KeywordOf(name) == MaxItems <==> name == Ascii("maxItems")
    ensures KeywordOf(name) == MinProperties <==> name == Ascii("minProperties")
    ensures KeywordOf(name) == MaxProperties <==> name == Ascii("maxProperties")
    ensures KeywordOf(name) == AnyOf <==> name == Ascii("anyOf")
    ensures KeywordOf(name) == OneOf <==> name == Ascii("oneOf")
    ensures KeywordOf(name) == AllOf <==> name == Ascii("allOf")
    ensures KeywordOf(name) == Not <==> name == Ascii("not")
  {
    OneName(11, "multipleOf", MultipleOf, name);
    OneName(12, "minLength", MinLength, name);
    OneName(13, "maxLength", MaxLength, name);
    OneName(14, "minItems", MinItems, name);
    OneName(15, "maxItems", MaxItems, name);
    OneName(16, "minProperties", MinProperties, name);
    OneName(17, "maxProperties", MaxProperties, name);
    OneName(18, "anyOf", AnyOf, name);
    OneName(19, "oneOf", OneOf, name);
    OneName(20, "allOf", AllOf, name);
    OneName(21, "not", Not, name);
  }

  /** A keyword in three rows is spelled by their three names. */
  lemma ThreeNames(a: nat, s: string, t: string, u: string, k: Keyword, name: Text)
    requires (a == 22 && k == Described) || (a == 27 && k == Flag)
    requires KeywordRow(a) == (s, k) && KeywordRow(a + 1) == (t, k) && KeywordRow(a + 2) == (u, k)
    ensures KeywordOf(name) == k <==> name == Ascii(s) || name == Ascii(t) || name == Ascii(u)
  {
    Spells(a, s, k);
    Spells(a + 1, t, k);
    Spells(a + 2, u, k);
    if KeywordOf(name) == k {
      var i := InSomeRow(0, name);
      RowFirst(i);
      assert i == a || i == a + 1 || i == a + 2;
    }
  }

  lemma DescribedNames(name: Text)
    ensures KeywordOf(name) == Described <==> name == Ascii("description") || name == Ascii("title") || name == Ascii("$comment")
  {
    ThreeNames(22, "description", "title", "$comment", Described, name);
  }

  lemma FlagNames(name: Text)
    ensures KeywordOf(name) == Flag <==> name == Ascii("deprecated") || name == Ascii("readOnly") || name == Ascii("writeOnly")
  {
    ThreeNames(27, "deprecated", "readOnly", "writeOnly", Flag, name);
  }

  lemma DataNames(name: Text)
    ensures KeywordOf(name) == Examples <==> name == Ascii("examples")
    ensures KeywordOf(name) == Default <==> name == Ascii("default")
    ensures KeywordOf(name) == Dialect <==> name == Ascii("$schema")
  {
    OneName(25, "examples", Examples, name);
    OneName(26, "default", Default, name);
    OneName(30, "$schema", Dialect, name);
  }

  /** The keywords that bear on no instance, and the dialect's, by name. */
  lemma AnnotationKeywords(name: Text)
    ensures KeywordOf(name) == Described <==> name == Ascii("description") || name == Ascii("title") || name == Ascii("$comment")
    ensures KeywordOf(name) == Examples <==> name == Ascii("examples")
    ensures KeywordOf(name) == Default <==> name == Ascii("default")
    ensures KeywordOf(name) == Flag <==> name == Ascii("deprecated") || name == Ascii("readOnly") || name == Ascii("writeOnly")
    ensures KeywordOf(name) == Dialect <==> name == Ascii("$schema")
  {
    DescribedNames(name);
    DataNames(name);
    FlagNames(name);
  }

  /** The eight names the projection removes at a schema location. */
  predicate AnnotationName(name: Text) {
    || name == Ascii("description") || name == Ascii("title") || name == Ascii("examples") || name == Ascii("default")
    || name == Ascii("$comment") || name == Ascii("deprecated") || name == Ascii("readOnly") || name == Ascii("writeOnly")
  }

  /** A keyword is an annotation exactly when its name is one of the eight. */
  lemma AnnotationNames(name: Text)
    ensures Annotation(KeywordOf(name)) <==> AnnotationName(name)
  {
    AnnotationKeywords(name);
  }

  /** The seven type names, each its own type. */
  lemma TypeNames(name: Text)
    ensures TypeNameOf(name) == Some(NullType) <==> name == Ascii("null")
    ensures TypeNameOf(name) == Some(BooleanType) <==> name == Ascii("boolean")
    ensures TypeNameOf(name) == Some(ObjectType) <==> name == Ascii("object")
    ensures TypeNameOf(name) == Some(ArrayType) <==> name == Ascii("array")
    ensures TypeNameOf(name) == Some(NumberType) <==> name == Ascii("number")
    ensures TypeNameOf(name) == Some(StringType) <==> name == Ascii("string")
    ensures TypeNameOf(name) == Some(IntegerType) <==> name == Ascii("integer")
  {
    assert |Ascii("null")| == 4 && |Ascii("array")| == 5;
    assert |Ascii("boolean")| == 7 && Ascii("boolean")[0] == 0x62 && |Ascii("integer")| == 7 && Ascii("integer")[0] == 0x69;
    assert |Ascii("object")| == 6 && Ascii("object")[0] == 0x6F && |Ascii("number")| == 6 && Ascii("number")[0] == 0x6E;
    assert |Ascii("string")| == 6 && Ascii("string")[0] == 0x73;
  }

  /* ---------- What the grammar holds each member to, by its name ---------- */

  /** A string of at most so many bytes of UTF-8 that the display policy shows. */
  predicate ShortString(r: Rules, x: Value, bytes: nat) { x.Str? && |EncodeAll(x.s)| <= bytes && r.shows(x.s) }

  predicate NamesAType(x: Value) {
    x.Str? && (x.s == Ascii("null") || x.s == Ascii("boolean") || x.s == Ascii("object") || x.s == Ascii("array")
               || x.s == Ascii("number") || x.s == Ascii("string") || x.s == Ascii("integer"))
  }

  lemma TypeNamed(x: Value)
    ensures IsTypeName(x) <==> NamesAType(x)
  {
    if x.Str? { TypeNames(x.s); }
  }

  /** type is "object" at the root, and elsewhere one of the seven names or some of them, each once. */
  lemma TypeRule(r: Rules, x: Value, depth: nat)
    ensures KeywordConforms(r, KeywordOf(Ascii("type")), x, depth) <==>
      if depth == 1 then x == Str(Ascii("object"))
      else NamesAType(x)
           || (x.Arr? && |x.items| > 0 && (forall i :: 0 <= i < |x.items| ==> NamesAType(x.items[i]))
               && forall i, j :: 0 <= i < j < |x.items| ==> x.items[i] != x.items[j])
  {
    Spells(0, "type", Type);
    TypeNamed(x);
    if x.Arr? {
      forall i | 0 <= i < |x.items| ensures IsTypeName(x.items[i]) <==> NamesAType(x.items[i]) { TypeNamed(x.items[i]); }
    }
  }

  /** required is at most 256 distinct strings of at most 1024 bytes. */
  lemma RequiredRule(r: Rules, x: Value, depth: nat)
    ensures KeywordConforms(r, KeywordOf(Ascii("required")), x, depth) <==>
      && x.Arr? && |x.items| <= 256 && (forall i :: 0 <= i < |x.items| ==> ShortString(r, x.items[i], 1024))
      && forall i, j :: 0 <= i < j < |x.items| ==> x.items[i] != x.items[j]
  {
    Spells(2, "required", Required);
  }

  /** A scalar: neither array nor object, a string of at most 1024 bytes, a number as NumberOk has it. */
  predicate Scalar(r: Rules, x: Value) {
    match x
    case Str(_) => ShortString(r, x, 1024)
    case Int(_) => NumberOk(Canon(x))
    case Number(_) => NumberOk(Canon(x))
    case Arr(_) => false
    case Obj(_) => false
    case _ => true
  }

  lemma ConstRule(r: Rules, x: Value, depth: nat)
    ensures KeywordConforms(r, KeywordOf(Ascii("const")), x, depth) <==> Scalar(r, x)
  {
    Spells(6, "const", Const);
  }

  /** enum is one to 256 scalars, no two of one value. */
  lemma EnumRule(r: Rules, x: Value, depth: nat)
    ensures KeywordConforms(r, KeywordOf(Ascii("enum")), x, depth) <==>
      && x.Arr? && 1 <= |x.items| <= 256 && (forall i :: 0 <= i < |x.items| ==> Scalar(r, x.items[i]))
      && forall i, j :: 0 <= i < j < |x.items| ==> !ScalarEquals(r.num, x.items[i], x.items[j])
  {
    Spells(5, "enum", Enum);
    if x.Arr? {
      forall i | 0 <= i < |x.items| ensures ScalarOk(r, x.items[i]) <==> Scalar(r, x.items[i]) { ScalarMeans(r, x.items[i]); }
    }
  }

  lemma ScalarMeans(r: Rules, x: Value)
    ensures ScalarOk(r, x) <==> Scalar(r, x)
  {
  }

  /** A limit on a number is a number. */
  lemma NumberRule(r: Rules, name: Text, x: Value, depth: nat)
    requires name == Ascii("minimum") || name == Ascii("maximum") || name == Ascii("exclusiveMinimum") || name == Ascii("exclusiveMaximum")
    ensures KeywordConforms(r, KeywordOf(name), x, depth) <==> IsNumber(x) && NumberOk(Canon(x))
  {
    ShapeKeywords(name);
  }

  /** multipleOf is a number above zero. */
  lemma MultipleRule(r: Rules, x: Value, depth: nat)
    ensures KeywordConforms(r, KeywordOf(Ascii("multipleOf")), x, depth) <==>
      IsNumber(x) && NumberOk(Canon(x)) && NumberOf(r.num, x).value > 0.0
  {
    Spells(11, "multipleOf", MultipleOf);
  }

  /** A limit on a size is a number spelled in decimal digits, of no leading zero, at most 2^53-1. */
  predicate SizeSpelled(x: Value) {
    && IsNumber(x) && Canon(x) != [] && (|Canon(x)| > 1 ==> Canon(x)[0] != 0x30)
    && (forall i :: 0 <= i < |Canon(x)| ==> 0x30 <= Canon(x)[i] <= 0x39) && Decimal(Canon(x)) <= 9007199254740991
  }

  lemma SizeRule(r: Rules, name: Text, x: Value, depth: nat)
    requires name == Ascii("minLength") || name == Ascii("maxLength") || name == Ascii("minItems") || name == Ascii("maxItems")
      || name == Ascii("minProperties") || name == Ascii("maxProperties")
    ensures KeywordConforms(r, KeywordOf(name), x, depth) <==> SizeSpelled(x)
  {
    LimitKeywords(name);
    SizeConforms(r, KeywordOf(name), x, depth);
  }

  lemma SizeConforms(r: Rules, k: Keyword, x: Value, depth: nat)
    requires k == MinLength || k == MaxLength || k == MinItems || k == MaxItems || k == MinProperties || k == MaxProperties
    ensures KeywordConforms(r, k, x, depth) <==> SizeSpelled(x)
  {
  }

  /** The annotations: texts of at most 1024 bytes, lists of examples, data, booleans. */
  lemma AnnotationRule(r: Rules, name: Text, x: Value, depth: nat)
    requires AnnotationName(name)
    ensures KeywordConforms(r, KeywordOf(name), x, depth) <==>
      if name == Ascii("description") || name == Ascii("title") || name == Ascii("$comment") then ShortString(r, x, 1024)
      else if name == Ascii("examples") then x.Arr? && DataOk(r, x)
      else if name == Ascii("default") then DataOk(r, x)
      else x.Bool?
  {
    AnnotationKeywords(name);
    AnnotationNames(name);
  }

  /** $schema is for the root, and names one of two dialects. */
  lemma DialectRule(r: Rules, x: Value, depth: nat)
    ensures KeywordConforms(r, KeywordOf(Ascii("$schema")), x, depth) <==>
      depth == 1 && (x == Str(Ascii("https://json-schema.org/draft/2020-12/schema")) || x == Str(Ascii("http://json-schema.org/draft-07/schema#")))
  {
    Spells(30, "$schema", Dialect);
  }

  lemma {:induction false} EachConforms(r: Rules, ss: seq<Value>, depth: nat)
    ensures AllConform(r, ss, depth) <==> forall i :: 0 <= i < |ss| ==> Conforms(r, ss[i], depth)
  {
    if ss != [] {
      EachConforms(r, ss[1..], depth);
      assert forall i :: 0 < i < |ss| ==> ss[i] == ss[1..][i - 1];
    }
  }

  lemma {:induction false} EachPropertyConforms(r: Rules, ps: seq<Named<Value>>, depth: nat)
    ensures MapConforms(r, ps, depth) <==> forall i :: 0 <= i < |ps| ==> PropertyConforms(r, ps[i], depth)
  {
    if ps != [] {
      EachPropertyConforms(r, ps[1..], depth);
      assert forall i :: 0 < i < |ps| ==> ps[i] == ps[1..][i - 1];
      assert PropertyConforms(r, ps[0], depth) <==> StringOk(r, ps[0].name, NAME_BOUND) && Conforms(r, ps[0].value, depth);
    }
  }

  /** A property's name of at most 128 bytes that the display policy shows, and its schema. */
  predicate PropertyConforms(r: Rules, p: Named<Value>, depth: nat) {
    |EncodeAll(p.name)| <= 128 && r.shows(p.name) && Conforms(r, p.value, depth)
  }

  lemma {:induction false} EachMemberConforms(r: Rules, ms: seq<Named<Value>>, depth: nat)
    ensures KeywordsConform(r, ms, depth) <==> forall i :: 0 <= i < |ms| ==> KeywordConforms(r, KeywordOf(ms[i].name), ms[i].value, depth)
  {
    if ms != [] {
      EachMemberConforms(r, ms[1..], depth);
      assert forall i :: 0 < i < |ms| ==> ms[i] == ms[1..][i - 1];
    }
  }

  /** items and not hold a schema, additionalProperties a schema or a boolean. */
  lemma OneSchemaRule(r: Rules, name: Text, x: Value, depth: nat)
    requires name == Ascii("items") || name == Ascii("not") || name == Ascii("additionalProperties")
    ensures KeywordConforms(r, KeywordOf(name), x, depth) <==>
      (name == Ascii("additionalProperties") && x.Bool?) || Conforms(r, x, depth + 1)
  {
    OneName(3, "additionalProperties", AdditionalProperties, name);
    OneName(4, "items", Items, name);
    OneName(21, "not", Not, name);
  }

  /** anyOf, oneOf and allOf hold one to 16 schemas. */
  lemma BranchRule(r: Rules, name: Text, x: Value, depth: nat)
    requires name == Ascii("anyOf") || name == Ascii("oneOf") || name == Ascii("allOf")
    ensures KeywordConforms(r, KeywordOf(name), x, depth) <==>
      x.Arr? && 1 <= |x.items| <= 16 && forall i :: 0 <= i < |x.items| ==> Conforms(r, x.items[i], depth + 1)
  {
    LimitKeywords(name);
    BranchConforms(r, KeywordOf(name), x, depth);
  }

  lemma BranchConforms(r: Rules, k: Keyword, x: Value, depth: nat)
    requires Branches(k)
    ensures KeywordConforms(r, k, x, depth) <==>
      x.Arr? && 1 <= |x.items| <= 16 && forall i :: 0 <= i < |x.items| ==> Conforms(r, x.items[i], depth + 1)
  {
    if x.Arr? { EachConforms(r, x.items, depth + 1); }
  }

  /** properties holds at most 256 schemas by name. */
  lemma PropertiesRule(r: Rules, x: Value, depth: nat)
    ensures KeywordConforms(r, KeywordOf(Ascii("properties")), x, depth) <==>
      x.Obj? && |x.members| <= 256 && forall i :: 0 <= i < |x.members| ==> PropertyConforms(r, x.members[i], depth + 1)
  {
    Spells(1, "properties", Properties);
    if x.Obj? { EachPropertyConforms(r, x.members, depth + 1); }
  }

  /** No other name is of the grammar. */
  lemma OtherNames(r: Rules, name: Text, x: Value, depth: nat)
    requires forall j :: 0 <= j < 31 ==> name != Ascii(KeywordRow(j).0)
    ensures !KeywordConforms(r, KeywordOf(name), x, depth)
  {
    if KeywordOf(name) != NoKeyword { var j := InSomeRow(0, name); }
  }

  /** A schema is an object, at most 32 deep, whose members each conform, the root's with a type. */
  lemma SchemaConforms(r: Rules, n: Value, depth: nat)
    ensures Conforms(r, n, depth) <==>
      && depth <= 32 && n.Obj?
      && (forall i :: 0 <= i < |n.members| ==> KeywordConforms(r, KeywordOf(n.members[i].name), n.members[i].value, depth))
      && (depth == 1 ==> exists i :: 0 <= i < |n.members| && n.members[i].name == Ascii("type"))
  {
    if n.Obj? {
      EachMemberConforms(r, n.members, depth);
      forall i | 0 <= i < |n.members| ensures KeywordOf(n.members[i].name) == Type <==> n.members[i].name == Ascii("type") {
        OneName(0, "type", Type, n.members[i].name);
      }
    }
  }

  /* ---------- Numbers as written ---------- */

  predicate NoExponent(s: Bytes) { forall i :: 0 <= i < |s| ==> s[i] != 0x65 && s[i] != 0x45 }

  predicate AllDigits(s: Bytes) { forall i :: 0 <= i < |s| ==> IsDigit(s[i]) }

  lemma {:induction false} ExponentAfter(front: Bytes, e: Byte, rest: Bytes)
    requires NoExponent(front) && (e == 0x65 || e == 0x45)
    ensures AfterExponent(front + [e] + rest) == Some(rest)
  {
    var s := front + [e] + rest;
    if front == [] {
      assert s[1..] == rest;
    } else {
      ExponentAfter(front[1..], e, rest);
      assert s[1..] == front[1..] + [e] + rest && s[0] == front[0];
    }
  }

  lemma {:induction false} NoneAfter(s: Bytes)
    requires NoExponent(s)
    ensures AfterExponent(s).None?
  {
    if s != [] { NoneAfter(s[1..]); }
  }

  lemma {:induction false} LeadingZero(s: Bytes)
    ensures Decimal([ZERO] + s) == Decimal(s)
  {
    var z := [ZERO] + s;
    if s == [] {
      assert z[..0] == [] && z[|z| - 1] == ZERO;
    } else {
      LeadingZero(s[..|s| - 1]);
      assert z[..|z| - 1] == [ZERO] + s[..|s| - 1] && z[|z| - 1] == s[|s| - 1];
    }
  }

  lemma {:induction false} TrimmedZeros(s: Bytes)
    requires AllDigits(s)
    ensures var t := TrimLeft(s, {ZERO}); AllDigits(t) && Decimal(t) == Decimal(s) && (t != [] ==> t[0] != ZERO)
  {
    if s != [] && s[0] == ZERO {
      TrimmedZeros(s[1..]);
      LeadingZero(s[1..]);
      assert s == [ZERO] + s[1..];
    }
  }

  lemma {:induction false} DigitsAtLeast(s: Bytes)
    requires AllDigits(s) && s != [] && s[0] != ZERO
    ensures Decimal(s) >= 1 && (|s| >= 2 ==> Decimal(s) >= 10) && (|s| >= 3 ==> Decimal(s) >= 100) && (|s| >= 4 ==> Decimal(s) >= 1000)
  {
    if |s| == 1 { assert s[..0] == []; } else { DigitsAtLeast(s[..|s| - 1]); }
  }

  /** A number with an exponent is within its bounds exactly when it is at most 32 characters long and the
      exponent, signed either way and with leading zeros or not, is at most 308. */
  lemma ExponentRule(front: Bytes, e: Byte, sign: Bytes, digits: Bytes)
    requires NoExponent(front) && (e == 0x65 || e == 0x45) && (sign == [] || sign == [0x2B] || sign == [0x2D])
    requires digits != [] && AllDigits(digits)
    ensures NumberOk(front + [e] + (sign + digits)) <==> |front + [e] + (sign + digits)| <= 32 && Decimal(digits) <= 308
  {
    ExponentAfter(front, e, sign + digits);
    assert TrimLeft(digits, {0x2B, 0x2D}) == digits;
    assert TrimLeft(sign + digits, {0x2B, 0x2D}) == digits by {
      if sign == [] { assert sign + digits == digits; } else { assert (sign + digits)[1..] == digits; }
    }
    TrimmedZeros(digits);
    var t := TrimLeft(digits, {0x30});
    if |t| > 3 { DigitsAtLeast(t); }
  }

  /** One without an exponent, exactly when it is at most 32 characters long. */
  lemma PlainRule(s: Bytes)
    requires NoExponent(s)
    ensures NumberOk(s) <==> |s| <= 32
  {
    NoneAfter(s);
  }
}
