/** One step of each reader of the parser, from what it reads inside. */
module Reading {
  import opened Wrappers
  import opened Utf8
  import opened Json
  import opened Parser

  /* What reading gives at a position, stated over a range of one position so that a proof
     that only passes such facts on does not unfold the reader. */

  ghost predicate ValueIs(m: Mode, d: Bytes, pos: nat, depth: nat, values: nat, r: Result<Parsed<Value>>) {
    forall p :: pos <= p <= pos ==> ReadValue(m, d, p, depth, values) == r
  }

  ghost predicate ObjectIs(m: Mode, d: Bytes, pos: nat, depth: nat, values: nat, r: Result<Parsed<Value>>) {
    forall p :: pos <= p <= pos ==> p <= |d| && ReadObject(m, d, p, depth, values) == r
  }

  ghost predicate ArrayIs(m: Mode, d: Bytes, pos: nat, depth: nat, values: nat, r: Result<Parsed<Value>>) {
    forall p :: pos <= p <= pos ==> p <= |d| && ReadArray(m, d, p, depth, values) == r
  }

  ghost predicate ItemsAre(m: Mode, d: Bytes, pos: nat, depth: nat, values: nat, r: Result<Parsed<seq<Value>>>) {
    forall p :: pos <= p <= pos ==> p <= |d| && ReadItems(m, d, p, depth, values) == r
  }

  ghost predicate MembersAre(m: Mode, d: Bytes, pos: nat, depth: nat, values: nat, seen: set<Text>,
                             r: Result<Parsed<seq<Named<Value>>>>) {
    forall p :: pos <= p <= pos ==> p <= |d| && ReadMembers(m, d, p, depth, values, seen) == r
  }

  predicate MoreAfter<T>(d: Bytes, v: Result<Parsed<T>>) {
    v.Ok? && var p := SkipSpace(d, v.value.pos); p < |d| && d[p] == COMMA
  }

  function Along<T, U>(d: Bytes, one: T, v: Result<Parsed<U>>, close: Byte, rest: Result<Parsed<seq<T>>>): Result<Parsed<seq<T>>>
    requires v.Ok?
  {
    var p := SkipSpace(d, v.value.pos);
    if p >= |d| then Refusal
    else if d[p] == COMMA then
      if rest.Refusal? then Refusal else Ok(Parsed([one] + rest.value.value, rest.value.pos, rest.value.values))
    else if d[p] == close then Ok(Parsed([one], p + 1, v.value.values))
    else Refusal
  }

  function ItemsFrom(d: Bytes, v: Result<Parsed<Value>>, rest: Result<Parsed<seq<Value>>>): Result<Parsed<seq<Value>>> {
    if v.Refusal? then Refusal else Along(d, v.value.value, v, RBRACKET, rest)
  }

  function MembersFrom(d: Bytes, name: Text, v: Result<Parsed<Value>>, rest: Result<Parsed<seq<Named<Value>>>>)
    : Result<Parsed<seq<Named<Value>>>>
  {
    if v.Refusal? then Refusal else Along(d, Named(name, v.value.value), v, RBRACE, rest)
  }

  lemma ItemsStep(m: Mode, d: Bytes, pos: nat, depth: nat, values: nat, v: Result<Parsed<Value>>,
                  rest: Result<Parsed<seq<Value>>>, all: Result<Parsed<seq<Value>>>)
    requires pos <= |d| && ValueIs(m, d, SkipSpace(d, pos), depth, values, v)
    requires MoreAfter(d, v) ==> ItemsAre(m, d, SkipSpace(d, v.value.pos) + 1, depth, v.value.values, rest)
    requires all == ItemsFrom(d, v, rest)
    ensures ItemsAre(m, d, pos, depth, values, all)
  {
    assert ReadValue(m, d, SkipSpace(d, pos), depth, values) == v;
    if MoreAfter(d, v) { assert ReadItems(m, d, SkipSpace(d, v.value.pos) + 1, depth, v.value.values) == rest; }
  }

  lemma MembersStep(m: Mode, d: Bytes, pos: nat, depth: nat, values: nat, seen: set<Text>, name: Text, at: nat,
                    v: Result<Parsed<Value>>, rest: Result<Parsed<seq<Named<Value>>>>, all: Result<Parsed<seq<Named<Value>>>>)
    requires pos <= |d| && ReadName(d, pos, seen) == Ok((name, at)) && ValueIs(m, d, at, depth, values, v)
    requires MoreAfter(d, v) ==>
      MembersAre(m, d, SkipSpace(d, v.value.pos) + 1, depth, v.value.values, seen + {name}, rest)
    requires all == MembersFrom(d, name, v, rest)
    ensures MembersAre(m, d, pos, depth, values, seen, all)
  {
    assert ReadValue(m, d, at, depth, values) == v;
    if MoreAfter(d, v) {
      assert ReadMembers(m, d, SkipSpace(d, v.value.pos) + 1, depth, v.value.values, seen + {name}) == rest;
    }
  }

  predicate Closes(d: Bytes, pos: nat, close: Byte) { var p := SkipSpace(d, pos); p < |d| && d[p] == close }

  function ObjectFrom(d: Bytes, pos: nat, values: nat, ms: Result<Parsed<seq<Named<Value>>>>): Result<Parsed<Value>> {
    if Closes(d, pos, RBRACE) then Ok(Parsed(Obj([]), SkipSpace(d, pos) + 1, values))
    else if ms.Refusal? then Refusal else Ok(Parsed(Obj(ms.value.value), ms.value.pos, ms.value.values))
  }

  function ArrayFrom(d: Bytes, pos: nat, values: nat, items: Result<Parsed<seq<Value>>>): Result<Parsed<Value>> {
    if Closes(d, pos, RBRACKET) then Ok(Parsed(Arr([]), SkipSpace(d, pos) + 1, values))
    else if items.Refusal? then Refusal else Ok(Parsed(Arr(items.value.value), items.value.pos, items.value.values))
  }

  lemma ObjectUnfolds(m: Mode, d: Bytes, pos: nat, depth: nat, values: nat, ms: Result<Parsed<seq<Named<Value>>>>)
    requires pos <= |d| && ms == ReadMembers(m, d, SkipSpace(d, pos), depth, values, {})
    ensures ObjectIs(m, d, pos, depth, values, ObjectFrom(d, pos, values, ms))
  {
  }

  lemma ArrayUnfolds(m: Mode, d: Bytes, pos: nat, depth: nat, values: nat, items: Result<Parsed<seq<Value>>>)
    requires pos <= |d| && items == ReadItems(m, d, SkipSpace(d, pos), depth, values)
    ensures ArrayIs(m, d, pos, depth, values, ArrayFrom(d, pos, values, items))
  {
  }

  lemma ObjectStep(m: Mode, d: Bytes, pos: nat, depth: nat, values: nat, ms: Result<Parsed<seq<Named<Value>>>>,
                   r: Result<Parsed<Value>>)
    requires pos <= |d| && MembersAre(m, d, SkipSpace(d, pos), depth, values, {}, ms)
    requires r == ObjectFrom(d, pos, values, ms)
    ensures ObjectIs(m, d, pos, depth, values, r)
  {
    ObjectUnfolds(m, d, pos, depth, values, ReadMembers(m, d, SkipSpace(d, pos), depth, values, {}));
  }

  lemma ArrayStep(m: Mode, d: Bytes, pos: nat, depth: nat, values: nat, items: Result<Parsed<seq<Value>>>,
                  r: Result<Parsed<Value>>)
    requires pos <= |d| && ItemsAre(m, d, SkipSpace(d, pos), depth, values, items)
    requires r == ArrayFrom(d, pos, values, items)
    ensures ArrayIs(m, d, pos, depth, values, r)
  {
    ArrayUnfolds(m, d, pos, depth, values, ReadItems(m, d, SkipSpace(d, pos), depth, values));
  }

  predicate Fits(m: Mode, values: nat) { m.maxValues > 0 ==> values <= m.maxValues }

  /** The container at pos, with its own value counted. */
  lemma ContainerStep(m: Mode, d: Bytes, pos: nat, depth: nat, values: nat, inside: Result<Parsed<Value>>,
                      r: Result<Parsed<Value>>)
    requires pos < |d| && (d[pos] == LBRACE || d[pos] == LBRACKET)
    requires var made := if m.maxValues > 0 then values + 1 else values;
      if d[pos] == LBRACE then ObjectIs(m, d, pos + 1, depth + 1, made, inside)
      else ArrayIs(m, d, pos + 1, depth + 1, made, inside)
    requires r == if depth >= MAX_NESTING || !Fits(m, values + 1) then Refusal else inside
    ensures ValueIs(m, d, pos, depth, values, r)
  {
    var made := if m.maxValues > 0 then values + 1 else values;
    if d[pos] == LBRACE {
      assert ReadObject(m, d, pos + 1, depth + 1, made) == inside;
    } else {
      assert ReadArray(m, d, pos + 1, depth + 1, made) == inside;
    }
  }

  lemma NoContainer(m: Mode, d: Bytes, pos: nat, depth: nat, values: nat, r: Result<Parsed<Value>>)
    requires pos < |d| && (d[pos] == LBRACE || d[pos] == LBRACKET) && r.Refusal?
    requires depth >= MAX_NESTING || !Fits(m, values + 1)
    ensures ValueIs(m, d, pos, depth, values, r)
  {
  }

  lemma Moves(m: Mode, d: Bytes, pos: nat, depth: nat, values: nat, r: Result<Parsed<Value>>)
    requires ValueIs(m, d, pos, depth, values, r)
    ensures r.Ok? ==> pos < r.value.pos <= |d|
  {
    assert ReadValue(m, d, pos, depth, values) == r;
  }

  lemma PeekItems(m: Mode, d: Bytes, pos: nat, depth: nat, values: nat) returns (r: Result<Parsed<seq<Value>>>)
    requires pos <= |d|
    ensures ItemsAre(m, d, pos, depth, values, r)
  {
    r := ReadItems(m, d, pos, depth, values);
  }

  lemma PeekMembers(m: Mode, d: Bytes, pos: nat, depth: nat, values: nat, seen: set<Text>)
    returns (r: Result<Parsed<seq<Named<Value>>>>)
    requires pos <= |d|
    ensures MembersAre(m, d, pos, depth, values, seen, r)
  {
    r := ReadMembers(m, d, pos, depth, values, seen);
  }

  lemma NoName(m: Mode, d: Bytes, pos: nat, depth: nat, values: nat, seen: set<Text>, r: Result<Parsed<seq<Named<Value>>>>)
    requires pos <= |d| && ReadName(d, pos, seen).Refusal? && r.Refusal?
    ensures MembersAre(m, d, pos, depth, values, seen, r)
  {
  }
}
