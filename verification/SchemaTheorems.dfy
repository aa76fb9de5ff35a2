/** The schema served validates exactly what the schema registered does. */
module SchemaTheorems {
  import opened Wrappers
  import opened Utf8
  import opened Json
  import opened Pointers
  import opened Schema
  import opened SchemaNames

  /* ---------- The bytes written are the canonical bytes of the stripped schema ---------- */

  lemma {:induction false} WriteIsCanon(n: Value)
    ensures Write(n, false) == Canon(n)
    ensures Write(n, true) == Canon(Strip(n))
    decreases n, 2
  {
    match n
    case Obj(ms) => WriteMembersCanon(ms);
    case Arr(items) => WriteItemsCanon(items);
    case _ =>
  }

  lemma {:induction false} WriteMembersCanon(ms: seq<Named<Value>>)
    ensures WriteMembers(ms, false) == CanonMembers(ms)
    ensures WriteMembers(ms, true) == CanonMembers(StripMembers(ms))
    decreases ms, 0
  {
    if ms != [] {
      WriteMembersCanon(ms[1..]);
      WriteIsCanon(ms[0].value);
      WriteUnderCanon(KeywordOf(ms[0].name), ms[0].value);
      var rest := StripMembers(ms[1..]);
      assert StripMembers(ms) == rest || StripMembers(ms)[1..] == rest;
    }
  }

  lemma {:induction false} WriteUnderCanon(k: Keyword, x: Value)
    ensures WriteUnder(k, x) == Canon(StripUnder(k, x))
    decreases x, 3
  {
    WriteIsCanon(x);
    if k == Properties && x.Obj? {
      WriteMapCanon(x.members);
    } else if Branches(k) && x.Arr? {
      WriteItemsCanon(x.items);
    }
  }

  lemma {:induction false} WriteMapCanon(ps: seq<Named<Value>>)
    ensures WriteMap(ps) == CanonMembers(StripMap(ps))
    decreases ps, 0
  {
    if ps != [] {
      WriteIsCanon(ps[0].value);
      WriteMapCanon(ps[1..]);
      assert StripMap(ps)[1..] == StripMap(ps[1..]);
    }
  }

  lemma {:induction false} WriteItemsCanon(items: seq<Value>)
    ensures WriteItems(items, false) == CanonItems(items)
    ensures WriteItems(items, true) == CanonItems(StripAll(items))
    decreases items, 0
  {
    if items != [] {
      WriteIsCanon(items[0]);
      WriteItemsCanon(items[1..]);
      assert StripAll(items)[1..] == StripAll(items[1..]);
    }
  }

  /* ---------- Validation ---------- */

  lemma {:induction false} KeepsListed(ms: seq<Named<Value>>)
    ensures PropertyNames(StripMembers(ms)) == PropertyNames(ms)
  {
    var r := StripMembers(ms);
    if ms != [] {
      KeepsListed(ms[1..]);
      ListedFirst(ms);
      if !Annotation(KeywordOf(ms[0].name)) {
        ListedFirst(r);
        assert r[1..] == StripMembers(ms[1..]);
        var x, y := ms[0].value, r[0].value;
        if KeywordOf(ms[0].name) == Properties && x.Obj? { SameMapNames(x.members); }
      }
    }
  }

  function MapNames(ps: seq<Named<Value>>): set<Text> { set j | 0 <= j < |ps| :: ps[j].name }

  lemma SameMapNames(ps: seq<Named<Value>>)
    ensures MapNames(StripMap(ps)) == MapNames(ps)
  {
    var r := StripMap(ps);
    assert forall j :: 0 <= j < |ps| ==> r[j].name == ps[j].name;
  }

  lemma ListedFirst(ms: seq<Named<Value>>)
    requires ms != []
    ensures PropertyNames(ms) == PropertyNames(ms[1..])
      + if KeywordOf(ms[0].name) == Properties && ms[0].value.Obj? then MapNames(ms[0].value.members) else {}
  {
    var first := if KeywordOf(ms[0].name) == Properties && ms[0].value.Obj? then MapNames(ms[0].value.members) else {};
    forall n | n in PropertyNames(ms) ensures n in PropertyNames(ms[1..]) + first {
      var i, j :| 0 <= i < |ms| && KeywordOf(ms[i].name) == Properties && ms[i].value.Obj? && 0 <= j < |ms[i].value.members|
        && ms[i].value.members[j].name == n;
      if i > 0 { assert ms[1..][i - 1] == ms[i]; }
    }
    forall n | n in PropertyNames(ms[1..]) + first ensures n in PropertyNames(ms) {
      if n in PropertyNames(ms[1..]) {
        var i, j :| 0 <= i < |ms[1..]| && KeywordOf(ms[1..][i].name) == Properties && ms[1..][i].value.Obj?
          && 0 <= j < |ms[1..][i].value.members| && ms[1..][i].value.members[j].name == n;
        assert ms[i + 1] == ms[1..][i];
      } else {
        var j :| 0 <= j < |ms[0].value.members| && ms[0].value.members[j].name == n;
      }
    }
  }

  /** Under any reading of number spellings, the stripped schema admits exactly the instances
      the schema does. */
  lemma {:induction false} StripValidates(num: Numerals, s: Value, v: Value)
    ensures Validates(num, Strip(s), v) <==> Validates(num, s, v)
    decreases s, 2, 0
  {
    if s.Obj? {
      KeepsListed(s.members);
      MeetsAllKept(num, s.members, PropertyNames(s.members), v);
    }
  }

  lemma {:induction false} MeetsAllKept(num: Numerals, ms: seq<Named<Value>>, listed: set<Text>, v: Value)
    ensures MeetsAll(num, StripMembers(ms), listed, v) <==> MeetsAll(num, ms, listed, v)
    decreases ms, 0
  {
    if ms != [] {
      MeetsAllKept(num, ms[1..], listed, v);
      var k, r := KeywordOf(ms[0].name), StripMembers(ms);
      if Annotation(k) {
        AnnotationMeets(num, k, ms[0].value, listed, v);
      } else {
        MeetsKept(num, k, ms[0].value, StripUnder(k, ms[0].value), listed, v);
        assert r[1..] == StripMembers(ms[1..]);
      }
    }
  }

  lemma {:induction false} MeetsKept(num: Numerals, k: Keyword, x: Value, y: Value, listed: set<Text>, v: Value)
    requires y == StripUnder(k, x)
    ensures Meets(num, k, y, listed, v) == Meets(num, k, x, listed, v)
    decreases x, 3
  {
    if k == Properties && x.Obj? {
      PropertiesKept(num, x, listed, v);
    } else if OneSchema(k) {
      OneSchemaKept(num, k, x, listed, v);
    } else if Branches(k) && x.Arr? {
      BranchesKept(num, k, x, listed, v);
    }
  }

  lemma AnnotationMeets(num: Numerals, k: Keyword, x: Value, listed: set<Text>, v: Value)
    requires Annotation(k)
    ensures Meets(num, k, x, listed, v)
  {
  }

  lemma {:induction false} PropertiesKept(num: Numerals, x: Value, listed: set<Text>, v: Value)
    requires x.Obj?
    ensures Meets(num, Properties, Obj(StripMap(x.members)), listed, v) == Meets(num, Properties, x, listed, v)
    decreases x, 2, 1
  {
    if v.Obj? { MembersValidKept(num, x.members, v); }
  }

  lemma {:induction false} BranchesKept(num: Numerals, k: Keyword, x: Value, listed: set<Text>, v: Value)
    requires Branches(k) && x.Arr?
    ensures Meets(num, k, Arr(StripAll(x.items)), listed, v) == Meets(num, k, x, listed, v)
    decreases x, 2, 1
  {
    PassingKept(num, x.items, v);
  }

  lemma {:induction false} OneSchemaKept(num: Numerals, k: Keyword, x: Value, listed: set<Text>, v: Value)
    requires OneSchema(k)
    ensures Meets(num, k, Strip(x), listed, v) == Meets(num, k, x, listed, v)
    decreases x, 2, 1
  {
    StripValidates(num, x, v);
    if k == AdditionalProperties && v.Obj? {
      forall i | 0 <= i < |v.members|
        ensures Validates(num, Strip(x), v.members[i].value) <==> Validates(num, x, v.members[i].value)
      {
        StripValidates(num, x, v.members[i].value);
      }
    } else if k == Items && v.Arr? {
      forall i | 0 <= i < |v.items| ensures Validates(num, Strip(x), v.items[i]) <==> Validates(num, x, v.items[i]) {
        StripValidates(num, x, v.items[i]);
      }
    }
  }

  lemma {:induction false} MembersValidKept(num: Numerals, ps: seq<Named<Value>>, v: Value)
    requires v.Obj?
    ensures MembersValid(num, StripMap(ps), v) <==> MembersValid(num, ps, v)
    decreases ps, 0
  {
    if ps != [] {
      assert StripMap(ps)[1..] == StripMap(ps[1..]);
      MembersValidKept(num, ps[1..], v);
      if Get(v.members, ps[0].name).Some? { StripValidates(num, ps[0].value, Get(v.members, ps[0].name).value); }
    }
  }

  lemma {:induction false} PassingKept(num: Numerals, ss: seq<Value>, v: Value)
    ensures Passing(num, StripAll(ss), v) == Passing(num, ss, v)
    decreases ss, 0
  {
    if ss != [] {
      assert StripAll(ss)[1..] == StripAll(ss[1..]);
      StripValidates(num, ss[0], v);
      PassingKept(num, ss[1..], v);
    }
  }

  /* ---------- Projecting twice is projecting once ---------- */

  lemma {:induction false} StripTwice(s: Value)
    ensures Strip(Strip(s)) == Strip(s)
    decreases s, 2
  {
    if s.Obj? { StripMembersTwice(s.members); }
  }

  lemma {:induction false} StripMembersTwice(ms: seq<Named<Value>>)
    ensures StripMembers(StripMembers(ms)) == StripMembers(ms)
    decreases ms, 0
  {
    if ms != [] {
      StripMembersTwice(ms[1..]);
      var r := StripMembers(ms);
      if !Annotation(KeywordOf(ms[0].name)) {
        StripUnderTwice(KeywordOf(ms[0].name), ms[0].value);
        assert r[1..] == StripMembers(ms[1..]);
      }
    }
  }

  lemma {:induction false} StripUnderTwice(k: Keyword, x: Value)
    ensures StripUnder(k, StripUnder(k, x)) == StripUnder(k, x)
    decreases x, 3
  {
    if k == Properties && x.Obj? {
      forall i | 0 <= i < |x.members| ensures Strip(Strip(x.members[i].value)) == Strip(x.members[i].value) { StripTwice(x.members[i].value); }
    } else if OneSchema(k) {
      StripTwice(x);
    } else if Branches(k) && x.Arr? {
      forall i | 0 <= i < |x.items| ensures Strip(Strip(x.items[i])) == Strip(x.items[i]) { StripTwice(x.items[i]); }
    }
  }

  /* ---------- What is removed ---------- */

  /** Where in a schema a value stands: at a schema location, in the map or the list that holds
      some, or in data. */
  datatype Place = Location | SchemaMap | SchemaList | Data

  predicate HoldsSchema(name: Text) { name == Ascii("items") || name == Ascii("additionalProperties") || name == Ascii("not") }

  predicate HoldsSchemas(name: Text) { name == Ascii("anyOf") || name == Ascii("oneOf") || name == Ascii("allOf") }

  function Enter(place: Place, step: Step, child: Value): Place {
    match place
    case Location =>
      if step.Index? then Data
      else if step.name == Ascii("properties") && child.Obj? then SchemaMap
      else if HoldsSchema(step.name) && child.Obj? then Location
      else if HoldsSchemas(step.name) && child.Arr? then SchemaList
      else Data
    case SchemaMap => Location
    case SchemaList => Location
    case Data => Data
  }

  /** The place a path leads to, unless it goes by an annotation of a schema location, or nowhere. */
  function PlaceAt(v: Value, place: Place, path: seq<Step>): Option<Place>
    decreases |path|
  {
    if path == [] then Some(place)
    else if place == Location && path[0].Member? && AnnotationName(path[0].name) then None
    else
      var child := Next(v, path[0]);
      if child.None? then None else PlaceAt(child.value, Enter(place, path[0], child.value), path[1..])
  }

  predicate Stands(place: Place, v: Value) { (place == SchemaMap ==> v.Obj?) && (place == SchemaList ==> v.Arr?) }

  function StripAt(place: Place, v: Value): Value
    requires Stands(place, v)
  {
    match place
    case Location => Strip(v)
    case SchemaMap => Obj(StripMap(v.members))
    case SchemaList => Arr(StripAll(v.items))
    case Data => v
  }

  lemma {:induction false} GetStripped(ms: seq<Named<Value>>, name: Text)
    ensures Get(StripMembers(ms), name) ==
      if Annotation(KeywordOf(name)) || Get(ms, name).None? then None
      else Some(StripUnder(KeywordOf(name), Get(ms, name).value))
  {
    if ms != [] {
      GetStripped(ms[1..], name);
      var r := StripMembers(ms);
      if !Annotation(KeywordOf(ms[0].name)) { assert r[1..] == StripMembers(ms[1..]); }
    }
  }

  lemma {:induction false} GetMapped(ps: seq<Named<Value>>, name: Text)
    ensures Get(StripMap(ps), name) == if Get(ps, name).None? then None else Some(Strip(Get(ps, name).value))
  {
    if ps != [] {
      GetMapped(ps[1..], name);
      assert StripMap(ps)[1..] == StripMap(ps[1..]);
    }
  }

  lemma UnderIsAt(k: Keyword, step: Step, child: Value)
    requires step.Member? && k == KeywordOf(step.name)
    ensures Stands(Enter(Location, step, child), child) && StripUnder(k, child) == StripAt(Enter(Location, step, child), child)
  {
    ShapeKeywords(step.name);
    LimitKeywords(step.name);
  }

  /** A member of a schema location is gone from the schema served exactly when its name is one of the
      eight; and one that holds no schema - enum, const, type, required, a limit, a name of no keyword - is
      there unchanged. */
  lemma OnlyEightGone(ms: seq<Named<Value>>, name: Text)
    ensures var before, after := Get(ms, name), Get(Strip(Obj(ms)).members, name);
      && (before.None? ==> after.None?)
      && (before.Some? ==> (after.None? <==>
            || name == Ascii("description") || name == Ascii("title") || name == Ascii("examples") || name == Ascii("default")
            || name == Ascii("$comment") || name == Ascii("deprecated") || name == Ascii("readOnly") || name == Ascii("writeOnly")))
      && (after.Some? && name != Ascii("properties") && !HoldsSchema(name) && !HoldsSchemas(name) ==> after == before)
  {
    GetStripped(ms, name);
    AnnotationNames(name);
    ShapeKeywords(name);
    LimitKeywords(name);
  }

  /** The keywords that restrict are never gone. */
  lemma RestrictionsStay(ms: seq<Named<Value>>, name: Text)
    requires name == Ascii("enum") || name == Ascii("const") || name == Ascii("type") || name == Ascii("required")
      || name == Ascii("minimum") || name == Ascii("maximum") || name == Ascii("exclusiveMinimum") || name == Ascii("exclusiveMaximum")
      || name == Ascii("multipleOf") || name == Ascii("minLength") || name == Ascii("maxLength") || name == Ascii("minItems")
      || name == Ascii("maxItems") || name == Ascii("minProperties") || name == Ascii("maxProperties")
    ensures Get(Strip(Obj(ms)).members, name) == Get(ms, name)
  {
    GetStripped(ms, name);
    ShapeKeywords(name);
    LimitKeywords(name);
  }

  lemma NextOfLocation(v: Value, step: Step)
    ensures var child := Next(v, step);
      if child.None? || (step.Member? && AnnotationName(step.name)) then Next(Strip(v), step).None?
      else
        var inner := Enter(Location, step, child.value);
        Stands(inner, child.value) && Next(Strip(v), step) == Some(StripAt(inner, child.value))
  {
    if v.Obj? && step.Member? {
      GetStripped(v.members, step.name);
      AnnotationNames(step.name);
      if Get(v.members, step.name).Some? { UnderIsAt(KeywordOf(step.name), step, Get(v.members, step.name).value); }
    }
  }

  lemma NextStripped(place: Place, v: Value, step: Step)
    requires Stands(place, v)
    ensures var child := Next(v, step);
      if child.None? || (place == Location && step.Member? && AnnotationName(step.name))
      then Next(StripAt(place, v), step).None?
      else
        var inner := Enter(place, step, child.value);
        Stands(inner, child.value) && Next(StripAt(place, v), step) == Some(StripAt(inner, child.value))
  {
    match place
    case Location => NextOfLocation(v, step);
    case SchemaMap => if step.Member? { GetMapped(v.members, step.name); }
    case SchemaList =>
    case Data =>
  }

  /** A position of the schema is a position of the schema served exactly when the way to it goes by
      no annotation of a schema location, and the value there is that value projected alike: a
      property named "description" stays, as does all of an enum, a const and other data. */
  lemma {:induction false} OnlyAnnotationsRemoved(place: Place, v: Value, path: seq<Step>)
    requires Stands(place, v)
    ensures var at, there := PlaceAt(v, place, path), ValueAt(v, path);
      if at.None? || there.None? then ValueAt(StripAt(place, v), path).None?
      else Stands(at.value, there.value) && ValueAt(StripAt(place, v), path) == Some(StripAt(at.value, there.value))
    decreases |path|
  {
    if path != [] {
      NextStripped(place, v, path[0]);
      var child := Next(v, path[0]);
      if child.Some? && !(place == Location && path[0].Member? && AnnotationName(path[0].name)) {
        OnlyAnnotationsRemoved(Enter(place, path[0], child.value), child.value, path[1..]);
      }
    }
  }

  /* ---------- What is counted ---------- */

  /** How many schema locations there are among all the positions of a value that stands at a place. */
  function LocationsAt(place: Place, v: Value): nat
    decreases v, 1
  {
    (if place == Location then 1 else 0)
    + match v {
        case Obj(ms) => LocationsAtMembers(place, ms)
        case Arr(items) => LocationsAtItems(place, items)
        case _ => 0
      }
  }

  function LocationsAtMembers(place: Place, ms: seq<Named<Value>>): nat
    decreases ms, 0
  {
    if ms == [] then 0
    else LocationsAt(Enter(place, Member(ms[0].name), ms[0].value), ms[0].value) + LocationsAtMembers(place, ms[1..])
  }

  function LocationsAtItems(place: Place, items: seq<Value>): nat
    decreases items, 0
  {
    if items == [] then 0
    else LocationsAt(Enter(place, Index(0), items[0]), items[0]) + LocationsAtItems(place, items[1..])
  }

  lemma {:induction false} NoneInData(v: Value)
    ensures LocationsAt(Data, v) == 0
    decreases v, 1
  {
    match v
    case Obj(ms) => NoneInMembers(ms);
    case Arr(items) => NoneInItems(items);
    case _ =>
  }

  lemma {:induction false} NoneInMembers(ms: seq<Named<Value>>)
    ensures LocationsAtMembers(Data, ms) == 0
    decreases ms, 0
  {
    if ms != [] {
      NoneInData(ms[0].value);
      NoneInMembers(ms[1..]);
    }
  }

  lemma {:induction false} NoneInItems(items: seq<Value>)
    ensures LocationsAtItems(Data, items) == 0
    decreases items, 0
  {
    if items != [] {
      NoneInData(items[0]);
      NoneInItems(items[1..]);
    }
  }

  /** What the walk counts of a schema of the grammar is how many of its positions are schema locations,
      told by the names of the members that lead to them. */
  lemma {:induction false} CountsLocations(r: Rules, n: Value, depth: nat)
    requires Conforms(r, n, depth)
    ensures Locations(n) == LocationsAt(Location, n)
    decreases n, 2, 0
  {
    CountsMembers(r, n.members, depth);
  }

  lemma {:induction false} CountsMembers(r: Rules, ms: seq<Named<Value>>, depth: nat)
    requires KeywordsConform(r, ms, depth)
    ensures KeywordLocations(ms) == LocationsAtMembers(Location, ms)
    decreases ms, 0
  {
    if ms != [] {
      CountsMember(r, ms[0].name, KeywordOf(ms[0].name), ms[0].value, depth);
      CountsMembers(r, ms[1..], depth);
    }
  }

  lemma {:induction false} CountsMember(r: Rules, name: Text, k: Keyword, x: Value, depth: nat)
    requires k == KeywordOf(name) && KeywordConforms(r, k, x, depth)
    ensures LocationsUnder(k, x) == LocationsAt(Enter(Location, Member(name), x), x)
    decreases x, 3
  {
    var place := Enter(Location, Member(name), x);
    PlaceOfMember(name, x);
    match place
    case SchemaMap => CountsMap(r, x.members, depth + 1);
    case SchemaList => CountsList(r, x.items, depth + 1);
    case Location => CountsLocations(r, x, depth + 1);
    case Data => NoneInData(x);
  }

  lemma PlaceOfMember(name: Text, x: Value)
    ensures var k := KeywordOf(name);
      Enter(Location, Member(name), x) ==
        if k == Properties && x.Obj? then SchemaMap
        else if OneSchema(k) && x.Obj? then Location
        else if Branches(k) && x.Arr? then SchemaList
        else Data
  {
    ShapeKeywords(name);
    LimitKeywords(name);
  }

  lemma {:induction false} CountsMap(r: Rules, ps: seq<Named<Value>>, depth: nat)
    requires MapConforms(r, ps, depth)
    ensures MapLocations(ps) == LocationsAtMembers(SchemaMap, ps)
    decreases ps, 0
  {
    if ps != [] {
      CountsLocations(r, ps[0].value, depth);
      CountsMap(r, ps[1..], depth);
    }
  }

  lemma {:induction false} CountsList(r: Rules, ss: seq<Value>, depth: nat)
    requires AllConform(r, ss, depth)
    ensures AllLocations(ss) == LocationsAtItems(SchemaList, ss)
    decreases ss, 0
  {
    if ss != [] {
      CountsLocations(r, ss[0], depth);
      CountsList(r, ss[1..], depth);
    }
  }

  /* ---------- The schema served is of the grammar too ---------- */

  lemma {:induction false} StripConforms(r: Rules, n: Value, depth: nat)
    requires Conforms(r, n, depth)
    ensures Conforms(r, Strip(n), depth) && Locations(Strip(n)) == Locations(n)
    decreases n, 2, 0
  {
    KeywordsKept(r, n.members, depth);
    if depth == 1 {
      var i :| 0 <= i < |n.members| && KeywordOf(n.members[i].name) == Type;
      TypeKept(n.members, i);
    }
  }

  lemma {:induction false} TypeKept(ms: seq<Named<Value>>, i: nat)
    requires i < |ms| && KeywordOf(ms[i].name) == Type
    ensures exists j :: 0 <= j < |StripMembers(ms)| && KeywordOf(StripMembers(ms)[j].name) == Type
  {
    var r := StripMembers(ms);
    if i == 0 {
      assert KeywordOf(r[0].name) == Type;
    } else {
      TypeKept(ms[1..], i - 1);
      var rest := StripMembers(ms[1..]);
      var j :| 0 <= j < |rest| && KeywordOf(rest[j].name) == Type;
      if !Annotation(KeywordOf(ms[0].name)) { assert r[j + 1] == rest[j]; }
    }
  }

  lemma StripFirst(ms: seq<Named<Value>>)
    requires ms != []
    ensures var k, rest := KeywordOf(ms[0].name), StripMembers(ms[1..]);
      StripMembers(ms) == if Annotation(k) then rest else [Named(ms[0].name, StripUnder(k, ms[0].value))] + rest
  {
  }

  lemma FirstConforms(r: Rules, first: Named<Value>, rest: seq<Named<Value>>, depth: nat)
    ensures KeywordsConform(r, [first] + rest, depth)
      <==> KeywordConforms(r, KeywordOf(first.name), first.value, depth) && KeywordsConform(r, rest, depth)
    ensures KeywordLocations([first] + rest) == LocationsUnder(KeywordOf(first.name), first.value) + KeywordLocations(rest)
  {
    assert ([first] + rest)[1..] == rest;
  }

  lemma AnnotationCounts(k: Keyword, x: Value)
    requires Annotation(k)
    ensures LocationsUnder(k, x) == 0
  {
  }

  predicate Stays(before: bool, after: bool) { before ==> after }

  lemma {:induction false} KeywordsKept(r: Rules, ms: seq<Named<Value>>, depth: nat)
    requires KeywordsConform(r, ms, depth)
    ensures KeywordsConform(r, StripMembers(ms), depth) && KeywordLocations(StripMembers(ms)) == KeywordLocations(ms)
    decreases ms, 0
  {
    if ms != [] {
      KeywordsKept(r, ms[1..], depth);
      var k, x := KeywordOf(ms[0].name), ms[0].value;
      KeywordKept(r, k, x, StripUnder(k, x), depth);
      StripFirst(ms);
      if !Annotation(k) {
        FirstConforms(r, Named(ms[0].name, StripUnder(k, x)), StripMembers(ms[1..]), depth);
      } else {
        AnnotationCounts(k, x);
      }
    }
  }

  lemma {:induction false} KeywordKept(r: Rules, k: Keyword, x: Value, y: Value, depth: nat)
    requires y == StripUnder(k, x)
    ensures Stays(KeywordConforms(r, k, x, depth), KeywordConforms(r, k, y, depth))
    ensures Stays(KeywordConforms(r, k, x, depth), LocationsUnder(k, y) == LocationsUnder(k, x))
    decreases x, 3
  {
    if k == Properties { PropertiesConform(r, x, depth); }
    else if OneSchema(k) { OneConforms(r, k, x, depth); }
    else if Branches(k) { BranchesConform(r, k, x, depth); }
    else { assert y == x; }
  }

  lemma {:induction false} PropertiesConform(r: Rules, x: Value, depth: nat)
    ensures var y := StripUnder(Properties, x);
      && Stays(KeywordConforms(r, Properties, x, depth), KeywordConforms(r, Properties, y, depth))
      && Stays(KeywordConforms(r, Properties, x, depth), LocationsUnder(Properties, y) == LocationsUnder(Properties, x))
    decreases x, 2, 1
  {
    if KeywordConforms(r, Properties, x, depth) { MapKept(r, x.members, depth + 1); }
  }

  lemma {:induction false} OneConforms(r: Rules, k: Keyword, x: Value, depth: nat)
    requires OneSchema(k)
    ensures var y := StripUnder(k, x);
      && Stays(KeywordConforms(r, k, x, depth), KeywordConforms(r, k, y, depth))
      && Stays(KeywordConforms(r, k, x, depth), LocationsUnder(k, y) == LocationsUnder(k, x))
    decreases x, 2, 1
  {
    if KeywordConforms(r, k, x, depth) && !x.Bool? { StripConforms(r, x, depth + 1); }
  }

  lemma {:induction false} BranchesConform(r: Rules, k: Keyword, x: Value, depth: nat)
    requires Branches(k)
    ensures var y := StripUnder(k, x);
      && Stays(KeywordConforms(r, k, x, depth), KeywordConforms(r, k, y, depth))
      && Stays(KeywordConforms(r, k, x, depth), LocationsUnder(k, y) == LocationsUnder(k, x))
    decreases x, 2, 1
  {
    if KeywordConforms(r, k, x, depth) { AllKept(r, x.items, depth + 1); }
  }

  lemma {:induction false} MapKept(r: Rules, ps: seq<Named<Value>>, depth: nat)
    requires MapConforms(r, ps, depth)
    ensures MapConforms(r, StripMap(ps), depth) && MapLocations(StripMap(ps)) == MapLocations(ps)
    decreases ps, 0
  {
    if ps != [] {
      StripConforms(r, ps[0].value, depth);
      MapKept(r, ps[1..], depth);
      assert StripMap(ps)[1..] == StripMap(ps[1..]);
    }
  }

  lemma {:induction false} AllKept(r: Rules, ss: seq<Value>, depth: nat)
    requires AllConform(r, ss, depth)
    ensures AllConform(r, StripAll(ss), depth) && AllLocations(StripAll(ss)) == AllLocations(ss)
    decreases ss, 0
  {
    if ss != [] {
      StripConforms(r, ss[0], depth);
      AllKept(r, ss[1..], depth);
      assert StripAll(ss)[1..] == StripAll(ss[1..]);
    }
  }
}
