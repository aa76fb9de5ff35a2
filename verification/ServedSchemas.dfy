/** What a reader of a served schema's bytes gets: the schema read back admits exactly the instances
    of the schema registered, is of the grammar, and is served again as the same bytes
    (go/descriptor_schema.go). */
module ServedSchemas {
  import opened Wrappers
  import opened Utf8
  import opened Json
  import opened Parser
  import opened Pointers
  import opened Schema
  import opened SchemaNames
  import opened SchemaTheorems
  import opened Sorting
  import opened GrammarReads
  import opened RoundTrip
  import CanonTheorems
  import ParserTheorems

  /** The schema as its served bytes are read back. */
  function Served(root: Value): Value { Normal(Strip(root)) }

  /* ---------- Sorting and removing keep what the parser asks ---------- */

  predicate KeptAs(m: Named<Value>, kept: Named<Value>) {
    !Annotation(KeywordOf(m.name)) && kept == Named(m.name, StripUnder(KeywordOf(m.name), m.value))
  }

  /** Each member kept is a member, its value projected. */
  lemma {:induction false} StripMember(ms: seq<Named<Value>>, i: nat) returns (j: nat)
    requires i < |StripMembers(ms)|
    ensures j < |ms| && KeptAs(ms[j], StripMembers(ms)[i])
    decreases |ms|
  {
    var k := StripStep(ms, i);
    if k < 0 {
      j := 0;
    } else {
      j := StripMember(ms[1..], k);
      assert ms[1..][j] == ms[j + 1];
      j := j + 1;
    }
  }

  /** The i-th member kept is the first, or one kept of the rest. */
  lemma StripStep(ms: seq<Named<Value>>, i: nat) returns (k: int)
    requires i < |StripMembers(ms)|
    ensures ms != [] && k < |StripMembers(ms[1..])|
    ensures k < 0 ==> KeptAs(ms[0], StripMembers(ms)[i])
    ensures k >= 0 ==> StripMembers(ms)[i] == StripMembers(ms[1..])[k]
  {
    StripFirst(ms);
    k := if Annotation(KeywordOf(ms[0].name)) then i else i - 1;
  }

  lemma {:induction false} StripNames(ms: seq<Named<Value>>)
    requires DistinctNames(ms)
    ensures DistinctNames(StripMembers(ms))
  {
    if ms != [] {
      StripNames(ms[1..]);
      var r, rest := StripMembers(ms), StripMembers(ms[1..]);
      if !Annotation(KeywordOf(ms[0].name)) {
        forall i | 0 <= i < |rest| ensures rest[i].name != ms[0].name {
          var j := StripMember(ms[1..], i);
        }
        assert r == [r[0]] + rest;
      }
    }
  }

  /** Read by the setting, and within the nesting. */
  ghost predicate Readable(m: Mode, v: Value, k: nat) { Spellable(m, v) && Bounded(v, k) }

  lemma ReadableObject(m: Mode, ms: seq<Named<Value>>, k: nat)
    requires k > 0 && DistinctNames(ms) && forall i :: 0 <= i < |ms| ==> Readable(m, ms[i].value, k - 1)
    ensures Readable(m, Obj(ms), k)
  {
    forall i | 0 <= i < |ms| ensures Bounded(ms[i].value, k - 1) && Spellable(m, ms[i].value) {
      assert Readable(m, ms[i].value, k - 1);
    }
    ObjectBounded(ms, k);
  }

  lemma ReadableArray(m: Mode, items: seq<Value>, k: nat)
    requires k > 0 && forall i :: 0 <= i < |items| ==> Readable(m, items[i], k - 1)
    ensures Readable(m, Arr(items), k)
  {
    forall i | 0 <= i < |items| ensures WellFormed(items[i]) && NestsWithin(items[i], k - 1) && Spellable(m, items[i]) {
      assert Readable(m, items[i], k - 1);
    }
  }

  lemma {:induction false} StripReadable(m: Mode, n: Value, k: nat)
    requires Readable(m, n, k)
    ensures Readable(m, Strip(n), k)
    decreases n, 2
  {
    if n.Obj? {
      var ms, r := n.members, StripMembers(n.members);
      StripNames(ms);
      forall i | 0 <= i < |r| ensures Readable(m, r[i].value, k - 1) {
        var j := StripMember(ms, i);
        UnderReadable(m, KeywordOf(ms[j].name), ms[j].value, k - 1);
      }
      ReadableObject(m, r, k);
    }
  }

  lemma {:induction false} UnderReadable(m: Mode, kw: Keyword, x: Value, k: nat)
    requires Readable(m, x, k)
    ensures Readable(m, StripUnder(kw, x), k)
    decreases x, 3
  {
    if kw == Properties && x.Obj? { MapReadable(m, x.members, k); }
    else if OneSchema(kw) { StripReadable(m, x, k); }
    else if Branches(kw) && x.Arr? { AllReadable(m, x.items, k); }
  }

  lemma {:induction false} MapReadable(m: Mode, ms: seq<Named<Value>>, k: nat)
    requires Readable(m, Obj(ms), k)
    ensures Readable(m, Obj(StripMap(ms)), k)
    decreases ms, 0
  {
    var ps := StripMap(ms);
    forall i | 0 <= i < |ps| ensures Readable(m, ps[i].value, k - 1) { StripReadable(m, ms[i].value, k - 1); }
    forall i, j | 0 <= i < j < |ps| ensures ps[i].name != ps[j].name { assert ms[i].name != ms[j].name; }
    ReadableObject(m, ps, k);
  }

  lemma {:induction false} AllReadable(m: Mode, items: seq<Value>, k: nat)
    requires Readable(m, Arr(items), k)
    ensures Readable(m, Arr(StripAll(items)), k)
    decreases items, 0
  {
    var ss := StripAll(items);
    forall i | 0 <= i < |ss| ensures Readable(m, ss[i], k - 1) { StripReadable(m, items[i], k - 1); }
    ReadableArray(m, ss, k);
  }

  /** The bytes served of a schema read from text decode to the schema without its annotations. */
  lemma ServedReads(text: Bytes, root: Value)
    requires Document(WRITTEN, text) == Ok(root)
    ensures Document(WRITTEN, Write(root, true)) == Ok(Served(root))
  {
    ParserTheorems.ReadSpellable(WRITTEN, text, root);
    StripReadable(WRITTEN, root, MAX_NESTING);
    WriteIsCanon(root);
    WrittenReadsBack(WRITTEN, Strip(root));
  }

  /* ---------- The order of members bears on no instance ---------- */

  lemma NormalNumber(num: Numerals, x: Value)
    ensures NumberOf(num, Normal(x)) == NumberOf(num, x)
  {
  }

  lemma {:induction false} NormalEquals(num: Numerals, a: Value, b: Value)
    ensures Equals(num, Normal(a), b) <==> Equals(num, a, b)
    decreases a, 2
  {
    match a
    case Arr(items) => if b.Arr? && |b.items| == |items| { ArrayEquals(num, items, b.items); }
    case Obj(ms) =>
      if b.Obj? { ObjectEquals(num, ms, b.members); }
      ObjectMeaning(num, ms, b);
      ObjectMeaning(num, Sort(NormalMembers(ms)), b);
      SortKeeps(NormalMembers(ms));
    case _ =>
  }

  lemma ObjectMeaning(num: Numerals, ms: seq<Named<Value>>, b: Value)
    ensures Equals(num, Obj(ms), b) == (b.Obj? && |b.members| == |ms| && EachEqual(num, ms, b.members))
  {
  }

  lemma {:induction false} ArrayEquals(num: Numerals, items: seq<Value>, bs: seq<Value>)
    requires |bs| == |items|
    ensures (forall i :: 0 <= i < |items| ==> Equals(num, NormalItems(items)[i], bs[i]))
       <==> (forall i :: 0 <= i < |items| ==> Equals(num, items[i], bs[i]))
    decreases items, 0
  {
    forall i | 0 <= i < |items| ensures Equals(num, NormalItems(items)[i], bs[i]) <==> Equals(num, items[i], bs[i]) {
      NormalEquals(num, items[i], bs[i]);
    }
  }

  ghost predicate EachEqual(num: Numerals, ms: seq<Named<Value>>, bs: seq<Named<Value>>) {
    forall i :: 0 <= i < |ms| ==> HasEqual(num, bs, ms[i].name, ms[i].value)
  }

  lemma {:induction false} ObjectEquals(num: Numerals, ms: seq<Named<Value>>, bs: seq<Named<Value>>)
    ensures EachEqual(num, Sort(NormalMembers(ms)), bs) <==> EachEqual(num, ms, bs)
    decreases ms, 0
  {
    var ns := NormalMembers(ms);
    SortEach(ns, (m: Named<Value>) => HasEqual(num, bs, m.name, m.value));
    forall i | 0 <= i < |ms| ensures HasEqual(num, bs, ns[i].name, ns[i].value) <==> HasEqual(num, bs, ms[i].name, ms[i].value) {
      MemberEquals(num, bs, ms[i].name, ms[i].value);
    }
  }

  lemma {:induction false} MemberEquals(num: Numerals, bs: seq<Named<Value>>, name: Text, a: Value)
    ensures HasEqual(num, bs, name, Normal(a)) <==> HasEqual(num, bs, name, a)
    decreases a, 3
  {
    forall j | 0 <= j < |bs| ensures Equals(num, Normal(a), bs[j].value) <==> Equals(num, a, bs[j].value) {
      NormalEquals(num, a, bs[j].value);
    }
  }

  /* Lists of keywords and of properties as what holds of each. */

  lemma {:induction false} MeetsEach(num: Numerals, ms: seq<Named<Value>>, listed: set<Text>, v: Value)
    ensures MeetsAll(num, ms, listed, v) <==> forall i :: 0 <= i < |ms| ==> Meets(num, KeywordOf(ms[i].name), ms[i].value, listed, v)
  {
    if ms != [] {
      MeetsEach(num, ms[1..], listed, v);
      assert forall i :: 0 < i < |ms| ==> ms[i] == ms[1..][i - 1];
      if MeetsAll(num, ms, listed, v) {
        forall i | 0 <= i < |ms| ensures Meets(num, KeywordOf(ms[i].name), ms[i].value, listed, v) {
          if i > 0 { assert ms[i] == ms[1..][i - 1]; }
        }
      }
    }
  }

  ghost predicate MemberValid(num: Numerals, name: Text, s: Value, v: Value) {
    v.Obj? && Get(v.members, name).Some? ==> Validates(num, s, Get(v.members, name).value)
  }

  lemma {:induction false} ValidEach(num: Numerals, ps: seq<Named<Value>>, v: Value)
    requires v.Obj?
    ensures MembersValid(num, ps, v) <==> forall i :: 0 <= i < |ps| ==> MemberValid(num, ps[i].name, ps[i].value, v)
  {
    if ps != [] {
      ValidEach(num, ps[1..], v);
      if MembersValid(num, ps, v) {
        forall i | 0 <= i < |ps| ensures MemberValid(num, ps[i].name, ps[i].value, v) {
          if i > 0 { assert ps[i] == ps[1..][i - 1]; }
        }
      }
      assert forall i :: 0 < i < |ps| ==> ps[i] == ps[1..][i - 1];
    }
  }

  predicate Unlisted(m: Named<Value>, name: Text) {
    KeywordOf(m.name) == Properties && m.value.Obj? ==> forall j :: 0 <= j < |m.value.members| ==> m.value.members[j].name != name
  }

  lemma UnlistedBy(ms: seq<Named<Value>>, name: Text)
    ensures name !in PropertyNames(ms) <==> forall i :: 0 <= i < |ms| ==> Unlisted(ms[i], name)
  {
    if name in PropertyNames(ms) {
      var i, j :| 0 <= i < |ms| && KeywordOf(ms[i].name) == Properties && ms[i].value.Obj? && 0 <= j < |ms[i].value.members|
        && ms[i].value.members[j].name == name;
      assert !Unlisted(ms[i], name);
    }
  }

  lemma NormalUnlisted(m: Named<Value>, name: Text)
    ensures Unlisted(Named(m.name, Normal(m.value)), name) <==> Unlisted(m, name)
  {
    if m.value.Obj? {
      var ps := m.value.members;
      var ns := NormalMembers(ps);
      SortEach(ns, (p: Named<Value>) => p.name != name);
      assert forall j :: 0 <= j < |ps| ==> ns[j].name == ps[j].name;
    }
  }

  lemma NormalListed(ms: seq<Named<Value>>)
    ensures PropertyNames(Sort(NormalMembers(ms))) == PropertyNames(ms)
  {
    forall name ensures name !in PropertyNames(Sort(NormalMembers(ms))) <==> name !in PropertyNames(ms) {
      ListedAlike(ms, name);
    }
  }

  lemma ListedAlike(ms: seq<Named<Value>>, name: Text)
    ensures name !in PropertyNames(Sort(NormalMembers(ms))) <==> name !in PropertyNames(ms)
  {
    var ns := NormalMembers(ms);
    UnlistedBy(Sort(ns), name);
    UnlistedBy(ms, name);
    SortEach(ns, (m: Named<Value>) => Unlisted(m, name));
    forall i | 0 <= i < |ms| ensures Unlisted(ns[i], name) <==> Unlisted(ms[i], name) { NormalUnlisted(ms[i], name); }
  }

  /** Sorting a schema's members changes nothing of what it admits. */
  lemma {:induction false} NormalValidates(num: Numerals, s: Value, v: Value)
    ensures Validates(num, Normal(s), v) <==> Validates(num, s, v)
    decreases s, 2, 0
  {
    if s.Obj? {
      NormalListed(s.members);
      NormalMeetsAll(num, s.members, PropertyNames(s.members), v);
    }
  }

  lemma {:induction false} NormalMeetsAll(num: Numerals, ms: seq<Named<Value>>, listed: set<Text>, v: Value)
    ensures MeetsAll(num, Sort(NormalMembers(ms)), listed, v) <==> MeetsAll(num, ms, listed, v)
    decreases ms, 0
  {
    var ns := NormalMembers(ms);
    MeetsEach(num, Sort(ns), listed, v);
    MeetsEach(num, ms, listed, v);
    SortEach(ns, (m: Named<Value>) => Meets(num, KeywordOf(m.name), m.value, listed, v));
    forall i | 0 <= i < |ms|
      ensures Meets(num, KeywordOf(ns[i].name), ns[i].value, listed, v) == Meets(num, KeywordOf(ms[i].name), ms[i].value, listed, v)
    {
      NormalMeets(num, KeywordOf(ms[i].name), ms[i].value, Normal(ms[i].value), listed, v);
    }
  }

  lemma {:induction false} NormalMeets(num: Numerals, k: Keyword, x: Value, y: Value, listed: set<Text>, v: Value)
    requires y == Normal(x)
    ensures Meets(num, k, y, listed, v) == Meets(num, k, x, listed, v)
    decreases x, 3
  {
    if k == Properties {
      NormalMap(num, x, y, listed, v);
    } else if OneSchema(k) {
      NormalOne(num, k, x, y, listed, v);
    } else if Branches(k) {
      NormalBranches(num, k, x, y, listed, v);
    } else if k == Enum || k == Const {
      NormalConstant(num, k, x, y, listed, v);
    } else {
      NormalLeaf(num, k, x, y, listed, v);
    }
  }

  lemma {:induction false} NormalMap(num: Numerals, x: Value, y: Value, listed: set<Text>, v: Value)
    requires y == Normal(x)
    ensures Meets(num, Properties, y, listed, v) == Meets(num, Properties, x, listed, v)
    decreases x, 2, 1
  {
    if x.Obj? && v.Obj? { NormalProperties(num, x.members, v); }
  }

  lemma {:induction false} NormalBranches(num: Numerals, k: Keyword, x: Value, y: Value, listed: set<Text>, v: Value)
    requires y == Normal(x) && Branches(k)
    ensures Meets(num, k, y, listed, v) == Meets(num, k, x, listed, v)
    decreases x, 2, 1
  {
    if x.Arr? { NormalPassing(num, x.items, v); }
  }

  lemma {:induction false} NormalOne(num: Numerals, k: Keyword, x: Value, y: Value, listed: set<Text>, v: Value)
    requires y == Normal(x) && OneSchema(k)
    ensures Meets(num, k, y, listed, v) == Meets(num, k, x, listed, v)
    decreases x, 2, 1
  {
    NormalValidates(num, x, v);
    if k == AdditionalProperties && v.Obj? {
      forall i | 0 <= i < |v.members| ensures Validates(num, y, v.members[i].value) <==> Validates(num, x, v.members[i].value) {
        NormalValidates(num, x, v.members[i].value);
      }
    } else if k == Items && v.Arr? {
      forall i | 0 <= i < |v.items| ensures Validates(num, y, v.items[i]) <==> Validates(num, x, v.items[i]) {
        NormalValidates(num, x, v.items[i]);
      }
    }
  }

  lemma {:induction false} NormalProperties(num: Numerals, ps: seq<Named<Value>>, v: Value)
    requires v.Obj?
    ensures MembersValid(num, Sort(NormalMembers(ps)), v) <==> MembersValid(num, ps, v)
    decreases ps, 0
  {
    var ns := NormalMembers(ps);
    ValidEach(num, Sort(ns), v);
    ValidEach(num, ps, v);
    SortEach(ns, (m: Named<Value>) => MemberValid(num, m.name, m.value, v));
    forall i | 0 <= i < |ps| ensures MemberValid(num, ns[i].name, ns[i].value, v) <==> MemberValid(num, ps[i].name, ps[i].value, v) {
      if Get(v.members, ps[i].name).Some? { NormalValidates(num, ps[i].value, Get(v.members, ps[i].name).value); }
    }
  }

  lemma {:induction false} NormalPassing(num: Numerals, ss: seq<Value>, v: Value)
    ensures Passing(num, NormalItems(ss), v) == Passing(num, ss, v)
    decreases ss, 0
  {
    if ss != [] {
      assert NormalItems(ss)[1..] == NormalItems(ss[1..]);
      NormalValidates(num, ss[0], v);
      NormalPassing(num, ss[1..], v);
    }
  }

  lemma NormalConstant(num: Numerals, k: Keyword, x: Value, y: Value, listed: set<Text>, v: Value)
    requires y == Normal(x) && (k == Enum || k == Const)
    ensures Meets(num, k, y, listed, v) == Meets(num, k, x, listed, v)
  {
    NormalEquals(num, x, v);
    if k == Enum && x.Arr? {
      forall i | 0 <= i < |x.items| ensures Equals(num, y.items[i], v) <==> Equals(num, x.items[i], v) {
        NormalEquals(num, x.items[i], v);
      }
    }
  }

  lemma NormalLeaf(num: Numerals, k: Keyword, x: Value, y: Value, listed: set<Text>, v: Value)
    requires y == Normal(x) && k != Properties && !OneSchema(k) && !Branches(k) && k != Enum && k != Const
    ensures Meets(num, k, y, listed, v) == Meets(num, k, x, listed, v)
  {
    if k == Type { NormalType(num, x, y, listed, v); }
    else if k == Required { NormalRequired(num, x, y, listed, v); }
    else {
      NormalNumber(num, x);
      LimitMeets(num, k, x, listed, v);
      LimitMeets(num, k, y, listed, v);
      NumberAlike(num, k, x, y, v);
    }
  }

  predicate IsLimit(k: Keyword) {
    k != Type && k != Properties && k != Required && !OneSchema(k) && !Branches(k) && k != Enum && k != Const
  }

  lemma LimitMeets(num: Numerals, k: Keyword, x: Value, listed: set<Text>, v: Value)
    requires IsLimit(k)
    ensures Meets(num, k, x, listed, v) == (NumberLimit(num, k, x, v) && SizeLimit(num, k, x, v))
  {
  }

  lemma NumberAlike(num: Numerals, k: Keyword, x: Value, y: Value, v: Value)
    requires NumberOf(num, x) == NumberOf(num, y)
    ensures NumberLimit(num, k, x, v) == NumberLimit(num, k, y, v) && SizeLimit(num, k, x, v) == SizeLimit(num, k, y, v)
  {
  }

  lemma NormalType(num: Numerals, x: Value, y: Value, listed: set<Text>, v: Value)
    requires y == Normal(x)
    ensures Meets(num, Type, y, listed, v) == Meets(num, Type, x, listed, v)
  {
    if x.Arr? {
      forall i | 0 <= i < |x.items| ensures NamesType(num, y.items[i], v) <==> NamesType(num, x.items[i], v) {
        assert y.items[i] == Normal(x.items[i]);
      }
    }
  }

  lemma NormalRequired(num: Numerals, x: Value, y: Value, listed: set<Text>, v: Value)
    requires y == Normal(x)
    ensures Meets(num, Required, y, listed, v) == Meets(num, Required, x, listed, v)
  {
    if x.Arr? {
      forall i | 0 <= i < |x.items| ensures y.items[i].Str? == x.items[i].Str? && (x.items[i].Str? ==> y.items[i] == x.items[i]) {
        assert y.items[i] == Normal(x.items[i]);
      }
    }
  }

  /* ---------- Nor on the grammar ---------- */

  lemma ScalarNormal(x: Value)
    requires IsScalar(x)
    ensures Normal(x) == x
  {
  }

  lemma ScalarsNormal(items: seq<Value>)
    requires forall i :: 0 <= i < |items| ==> IsScalar(items[i])
    ensures Normal(Arr(items)) == Arr(items)
  {
    forall i | 0 <= i < |items| ensures NormalItems(items)[i] == items[i] { ScalarNormal(items[i]); }
  }

  lemma {:induction false} NormalData(r: Rules, x: Value)
    requires DataOk(r, x)
    ensures DataOk(r, Normal(x))
  {
    match x
    case Arr(items) => forall i | 0 <= i < |items| ensures DataOk(r, NormalItems(items)[i]) { NormalData(r, items[i]); }
    case Obj(ms) =>
      var ns := NormalMembers(ms);
      forall i | 0 <= i < |ms| ensures StringOk(r, ns[i].name, STRING_BOUND) && DataOk(r, ns[i].value) { NormalData(r, ms[i].value); }
      SortEach(ns, (m: Named<Value>) => StringOk(r, m.name, STRING_BOUND) && DataOk(r, m.value));
    case _ =>
  }

  /** A leaf keyword's value is a scalar or a list of them, or data. */
  lemma LeafForm(r: Rules, k: Keyword, x: Value, depth: nat)
    requires k != Properties && !OneSchema(k) && !Branches(k) && k != Examples && k != Default && LeafConforms(r, k, x, depth)
    ensures IsScalar(x) || (x.Arr? && forall i :: 0 <= i < |x.items| ==> IsScalar(x.items[i]))
  {
  }

  lemma NormalLeafConforms(r: Rules, k: Keyword, x: Value, y: Value, depth: nat)
    requires k != Properties && !OneSchema(k) && !Branches(k) && y == Normal(x)
    ensures Stays(LeafConforms(r, k, x, depth), LeafConforms(r, k, y, depth))
  {
    if LeafConforms(r, k, x, depth) {
      if k == Examples || k == Default {
        NormalData(r, x);
      } else {
        LeafForm(r, k, x, depth);
        if x.Arr? { ScalarsNormal(x.items); } else { ScalarNormal(x); }
        assert y == x;
      }
    }
  }

  lemma {:induction false} NormalConforms(r: Rules, n: Value, depth: nat)
    requires Conforms(r, n, depth)
    ensures Conforms(r, Normal(n), depth)
    decreases n, 2, 0
  {
    var ns := NormalMembers(n.members);
    NormalKeywords(r, n.members, depth);
    SortEach(ns, (m: Named<Value>) => KeywordOf(m.name) != Type);
    if depth == 1 {
      var i :| 0 <= i < |n.members| && KeywordOf(n.members[i].name) == Type;
      assert KeywordOf(ns[i].name) == Type;
    }
  }

  lemma {:induction false} NormalKeywords(r: Rules, ms: seq<Named<Value>>, depth: nat)
    requires KeywordsConform(r, ms, depth)
    ensures KeywordsConform(r, Sort(NormalMembers(ms)), depth)
    decreases ms, 0
  {
    var ns := NormalMembers(ms);
    EachMemberConforms(r, ms, depth);
    EachMemberConforms(r, Sort(ns), depth);
    forall i | 0 <= i < |ms| ensures KeywordConforms(r, KeywordOf(ns[i].name), ns[i].value, depth) {
      NormalKeyword(r, KeywordOf(ms[i].name), ms[i].value, ns[i].value, depth);
    }
    SortEach(ns, (m: Named<Value>) => KeywordConforms(r, KeywordOf(m.name), m.value, depth));
  }

  lemma {:induction false} NormalKeyword(r: Rules, k: Keyword, x: Value, y: Value, depth: nat)
    requires y == Normal(x)
    ensures Stays(KeywordConforms(r, k, x, depth), KeywordConforms(r, k, y, depth))
    decreases x, 3
  {
    if k == Properties { NormalPropertiesConform(r, x, y, depth); }
    else if OneSchema(k) { NormalOneConforms(r, k, x, y, depth); }
    else if Branches(k) { NormalBranchesConform(r, k, x, y, depth); }
    else { NormalOther(r, k, x, y, depth); }
  }

  lemma NormalOther(r: Rules, k: Keyword, x: Value, y: Value, depth: nat)
    requires k != Properties && !OneSchema(k) && !Branches(k) && y == Normal(x)
    ensures Stays(KeywordConforms(r, k, x, depth), KeywordConforms(r, k, y, depth))
  {
    if k == NoKeyword {
      NothingConforms(r, x, depth);
    } else {
      NormalLeafConforms(r, k, x, y, depth);
      LeafIsAll(r, k, x, depth);
      LeafIsAll(r, k, y, depth);
    }
  }

  lemma NothingConforms(r: Rules, x: Value, depth: nat)
    ensures KeywordConforms(r, NoKeyword, x, depth) == false
  {
  }

  lemma LeafIsAll(r: Rules, k: Keyword, x: Value, depth: nat)
    requires k != Properties && !OneSchema(k) && !Branches(k) && k != NoKeyword
    ensures KeywordConforms(r, k, x, depth) == LeafConforms(r, k, x, depth)
  {
  }

  lemma {:induction false} NormalPropertiesConform(r: Rules, x: Value, y: Value, depth: nat)
    requires y == Normal(x)
    ensures Stays(KeywordConforms(r, Properties, x, depth), KeywordConforms(r, Properties, y, depth))
    decreases x, 2, 1
  {
    if KeywordConforms(r, Properties, x, depth) {
      NormalMapConforms(r, x.members, depth + 1);
      SortKeeps(NormalMembers(x.members));
    }
  }

  lemma {:induction false} NormalMapConforms(r: Rules, ps: seq<Named<Value>>, depth: nat)
    requires MapConforms(r, ps, depth)
    ensures MapConforms(r, Sort(NormalMembers(ps)), depth)
    decreases ps, 0
  {
    var ns := NormalMembers(ps);
    EachPropertyConforms(r, ps, depth);
    EachPropertyConforms(r, Sort(ns), depth);
    forall i | 0 <= i < |ps| ensures PropertyConforms(r, ns[i], depth) { NormalProperty(r, ps[i], ns[i], depth); }
    SortEach(ns, (p: Named<Value>) => PropertyConforms(r, p, depth));
  }

  lemma {:induction false} NormalProperty(r: Rules, p: Named<Value>, q: Named<Value>, depth: nat)
    requires PropertyConforms(r, p, depth) && q == Named(p.name, Normal(p.value))
    ensures PropertyConforms(r, q, depth)
    decreases p, 0
  {
    NormalConforms(r, p.value, depth);
  }

  lemma {:induction false} NormalOneConforms(r: Rules, k: Keyword, x: Value, y: Value, depth: nat)
    requires OneSchema(k) && y == Normal(x)
    ensures Stays(KeywordConforms(r, k, x, depth), KeywordConforms(r, k, y, depth))
    decreases x, 2, 1
  {
    if KeywordConforms(r, k, x, depth) && !x.Bool? { NormalConforms(r, x, depth + 1); }
  }

  lemma {:induction false} NormalBranchesConform(r: Rules, k: Keyword, x: Value, y: Value, depth: nat)
    requires Branches(k) && y == Normal(x)
    ensures Stays(KeywordConforms(r, k, x, depth), KeywordConforms(r, k, y, depth))
    decreases x, 2, 1
  {
    if KeywordConforms(r, k, x, depth) { NormalAllConform(r, x.items, depth + 1); }
  }

  lemma {:induction false} NormalAllConform(r: Rules, ss: seq<Value>, depth: nat)
    requires AllConform(r, ss, depth)
    ensures AllConform(r, NormalItems(ss), depth)
    decreases ss, 0
  {
    if ss != [] {
      NormalConforms(r, ss[0], depth);
      NormalAllConform(r, ss[1..], depth);
      assert NormalItems(ss)[1..] == NormalItems(ss[1..]);
    }
  }

  /* Sums of locations do not depend on order. */

  lemma {:induction false} InsertLocations(m: Named<Value>, s: seq<Named<Value>>)
    ensures KeywordLocations(Insert(m, s)) == LocationsUnder(KeywordOf(m.name), m.value) + KeywordLocations(s)
    ensures MapLocations(Insert(m, s)) == Locations(m.value) + MapLocations(s)
  {
    var r := Insert(m, s);
    if s != [] && NameLess(s[0].name, m.name) {
      InsertLocations(m, s[1..]);
      assert r[1..] == Insert(m, s[1..]);
    } else {
      assert r[1..] == s;
    }
  }

  lemma {:induction false} SortLocations(ms: seq<Named<Value>>)
    ensures KeywordLocations(Sort(ms)) == KeywordLocations(ms) && MapLocations(Sort(ms)) == MapLocations(ms)
  {
    if ms != [] {
      SortLocations(ms[1..]);
      InsertLocations(ms[0], Sort(ms[1..]));
    }
  }

  lemma {:induction false} NormalLocations(n: Value)
    ensures Locations(Normal(n)) == Locations(n)
    decreases n, 2
  {
    if n.Obj? {
      KeywordLocationsNormal(n.members);
      SortLocations(NormalMembers(n.members));
    }
  }

  lemma {:induction false} KeywordLocationsNormal(ms: seq<Named<Value>>)
    ensures KeywordLocations(NormalMembers(ms)) == KeywordLocations(ms)
    decreases ms, 0
  {
    if ms != [] {
      UnderLocationsNormal(KeywordOf(ms[0].name), ms[0].value, Normal(ms[0].value));
      KeywordLocationsNormal(ms[1..]);
      assert NormalMembers(ms)[1..] == NormalMembers(ms[1..]);
    }
  }

  lemma {:induction false} UnderLocationsNormal(k: Keyword, x: Value, y: Value)
    requires y == Normal(x)
    ensures LocationsUnder(k, y) == LocationsUnder(k, x)
    decreases x, 3
  {
    if k == Properties && x.Obj? {
      MapLocationsNormal(x.members);
      SortLocations(NormalMembers(x.members));
    } else if OneSchema(k) {
      NormalLocations(x);
    } else if Branches(k) && x.Arr? {
      AllLocationsNormal(x.items);
    }
  }

  lemma {:induction false} MapLocationsNormal(ps: seq<Named<Value>>)
    ensures MapLocations(NormalMembers(ps)) == MapLocations(ps)
    decreases ps, 0
  {
    if ps != [] {
      NormalLocations(ps[0].value);
      MapLocationsNormal(ps[1..]);
      assert NormalMembers(ps)[1..] == NormalMembers(ps[1..]);
    }
  }

  lemma {:induction false} AllLocationsNormal(ss: seq<Value>)
    ensures AllLocations(NormalItems(ss)) == AllLocations(ss)
    decreases ss, 0
  {
    if ss != [] {
      NormalLocations(ss[0]);
      AllLocationsNormal(ss[1..]);
      assert NormalItems(ss)[1..] == NormalItems(ss[1..]);
    }
  }

  /* ---------- A schema without annotations has none in any order ---------- */

  predicate Fixed(m: Named<Value>) { !Annotation(KeywordOf(m.name)) && StripUnder(KeywordOf(m.name), m.value) == m.value }

  lemma {:induction false} StripShorter(ms: seq<Named<Value>>)
    ensures |StripMembers(ms)| <= |ms|
  {
    if ms != [] {
      StripFirst(ms);
      StripShorter(ms[1..]);
    }
  }

  lemma {:induction false} FixedEach(ms: seq<Named<Value>>)
    ensures StripMembers(ms) == ms <==> forall i :: 0 <= i < |ms| ==> Fixed(ms[i])
  {
    if ms != [] {
      StripFirst(ms);
      StripShorter(ms[1..]);
      FixedEach(ms[1..]);
      var r := StripMembers(ms);
      if r == ms {
        assert Fixed(ms[0]) && r[1..] == StripMembers(ms[1..]) && r[1..] == ms[1..];
        forall i | 0 <= i < |ms| ensures Fixed(ms[i]) { if i > 0 { assert ms[i] == ms[1..][i - 1]; } }
      }
      if forall i :: 0 <= i < |ms| ==> Fixed(ms[i]) {
        assert Fixed(ms[0]) && forall i :: 0 <= i < |ms[1..]| ==> Fixed(ms[1..][i]);
        assert ms == [ms[0]] + ms[1..];
      }
    }
  }

  lemma {:induction false} FixedNormal(y: Value)
    requires Strip(y) == y
    ensures Strip(Normal(y)) == Normal(y)
    decreases y, 2
  {
    if y.Obj? {
      var ms, ns := y.members, NormalMembers(y.members);
      FixedEach(ms);
      FixedEach(Sort(ns));
      forall i | 0 <= i < |ms| ensures Fixed(ns[i]) {
        assert Fixed(ms[i]);
        FixedUnder(KeywordOf(ms[i].name), ms[i].value, ns[i].value);
      }
      SortEach(ns, Fixed);
    }
  }

  lemma {:induction false} FixedUnder(k: Keyword, x: Value, y: Value)
    requires StripUnder(k, x) == x && y == Normal(x)
    ensures StripUnder(k, y) == y
    decreases x, 3
  {
    if k == Properties && x.Obj? {
      FixedMap(x.members);
    } else if OneSchema(k) {
      FixedNormal(x);
    } else if Branches(k) && x.Arr? {
      FixedList(x.items);
    }
  }

  lemma {:induction false} FixedList(ss: seq<Value>)
    requires StripAll(ss) == ss
    ensures StripAll(NormalItems(ss)) == NormalItems(ss)
    decreases ss, 0
  {
    forall i | 0 <= i < |ss| ensures Strip(NormalItems(ss)[i]) == NormalItems(ss)[i] {
      assert StripAll(ss)[i] == ss[i];
      FixedNormal(ss[i]);
    }
  }

  lemma {:induction false} FixedMap(ps: seq<Named<Value>>)
    requires StripMap(ps) == ps
    ensures StripMap(Sort(NormalMembers(ps))) == Sort(NormalMembers(ps))
    decreases ps, 0
  {
    var ns := NormalMembers(ps);
    forall i | 0 <= i < |ps| ensures Strip(ns[i].value) == ns[i].value {
      assert StripMap(ps)[i] == ps[i];
      FixedNormal(ps[i].value);
    }
    SortEach(ns, (p: Named<Value>) => Strip(p.value) == p.value);
    assert forall i :: 0 <= i < |Sort(ns)| ==> StripMap(Sort(ns))[i] == Sort(ns)[i];
  }

  /* ---------- What a reader of the bytes gets ---------- */

  /** The schema read back admits an instance exactly when the schema registered does. */
  lemma ServedAdmits(num: Numerals, root: Value, v: Value)
    ensures Validates(num, Served(root), v) <==> Validates(num, root, v)
  {
    NormalValidates(num, Strip(root), v);
    StripValidates(num, root, v);
  }

  /** A schema the gateway accepts is served as bytes that read back as a schema it accepts, with as
      many locations, admitting the same instances. */
  lemma ServedSchema(r: Rules, text: Bytes, root: Value)
    requires Document(WRITTEN, text) == Ok(root) && Judged(r, root)
    ensures var t := Document(WRITTEN, Write(root, true));
      && t.Ok? && Judged(r, t.value) && Locations(t.value) == Locations(root)
      && forall num: Numerals, v: Value :: Validates(num, t.value, v) <==> Validates(num, root, v)
  {
    ServedReads(text, root);
    StripConforms(r, root, 1);
    NormalConforms(r, Strip(root), 1);
    NormalLocations(Strip(root));
    forall num: Numerals, v: Value ensures Validates(num, Served(root), v) <==> Validates(num, root, v) {
      ServedAdmits(num, root, v);
    }
  }

  /** Serving what the served bytes read back as gives the same bytes. */
  lemma ProjectTwice(text: Bytes, root: Value)
    requires Document(WRITTEN, text) == Ok(root)
    ensures var t := Document(WRITTEN, Write(root, true)); t.Ok? && Write(t.value, true) == Write(root, true)
  {
    ServedReads(text, root);
    ParserTheorems.ReadSpellable(WRITTEN, text, root);
    StripReadable(WRITTEN, root, MAX_NESTING);
    StripTwice(root);
    FixedNormal(Strip(root));
    WriteIsCanon(root);
    WriteIsCanon(Served(root));
    CanonTheorems.CanonNormal(Strip(root));
  }
}
