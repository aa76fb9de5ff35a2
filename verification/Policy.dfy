/** How a decision policy holds a request's arguments: bind, fix, shape and closed
    (go/decision_policy.go). */
module Policy {
  import opened Wrappers
  import opened Utf8
  import opened Json
  import opened Pointers

  datatype Binding = Binding(argument: Text, fact: Text)
  datatype Fixed = Fixed(argument: Text, canonical: Bytes)
  datatype Shape = Shape(pointer: Text, isArray: bool, maxLength: nat)
  datatype DecisionPolicy = DecisionPolicy(bind: seq<Binding>, fix: seq<Fixed>, shape: seq<Shape>, closed: bool)

  /** The pointers a closed policy walks the arguments with. */
  datatype Reach = Reach(named: seq<Text>, shaped: seq<Text>)

  function NamedArguments(p: DecisionPolicy): seq<Text> {
    seq(|p.bind|, i requires 0 <= i < |p.bind| => p.bind[i].argument)
    + seq(|p.fix|, i requires 0 <= i < |p.fix| => p.fix[i].argument)
  }

  function ShapedArguments(p: DecisionPolicy): seq<Text> {
    seq(|p.shape|, i requires 0 <= i < |p.shape| => p.shape[i].pointer)
  }

  function ReachOf(p: DecisionPolicy): Reach { Reach(NamedArguments(p), ShapedArguments(p)) }

  /* ---------- unreachedArgument ---------- */

  predicate Covered(r: Reach, at: Text) {
    exists i :: 0 <= i < |r.named| && (r.named[i] == [] || at == r.named[i] || r.named[i] + [SLASH] <= at)
  }

  predicate OnTheWay(r: Reach, at: Text) {
    (exists i :: 0 <= i < |r.named| && at + [SLASH] <= r.named[i])
    || (exists i :: 0 <= i < |r.shaped| && (r.shaped[i] == at || at + [SLASH] <= r.shaped[i]))
  }

  predicate Container(v: Value) { v.Obj? || v.Arr? }

  function Visit(r: Reach, v: Value, at: Text): Option<Text>
    decreases v, 2
  {
    if Covered(r, at) then None
    else if Container(v) && OnTheWay(r, at) then Under(r, v, at)
    else Some(at)
  }

  function Under(r: Reach, v: Value, at: Text): Option<Text>
    decreases v, 1
  {
    match v
    case Obj(ms) => UnderMembers(r, ms, at)
    case Arr(items) => UnderItems(r, items, 0, at)
    case _ => None
  }

  function UnderMembers(r: Reach, ms: seq<Named<Value>>, at: Text): Option<Text>
    decreases ms, 0
  {
    if ms == [] then None
    else
      var bad := Visit(r, ms[0].value, at + [SLASH] + EscapeToken(ms[0].name));
      if bad.Some? then bad else UnderMembers(r, ms[1..], at)
  }

  function UnderItems(r: Reach, items: seq<Value>, first: nat, at: Text): Option<Text>
    decreases items, 0
  {
    if items == [] then None
    else
      var bad := Visit(r, items[0], at + [SLASH] + Itoa(first));
      if bad.Some? then bad else UnderItems(r, items[1..], first + 1, at)
  }

  /** The first value of the arguments no pointer reaches, if there is one. */
  function Unreached(r: Reach, arguments: Value): Option<Text> {
    if Covered(r, []) then None else Under(r, arguments, [])
  }

  /* ---------- holdToPolicy's hold on the arguments ---------- */

  predicate BindHolds(b: Binding, facts: Option<Value>, arguments: Value) {
    var argument := Resolve(arguments, b.argument);
    var fact := if facts.Some? then Resolve(facts.value, b.fact) else None;
    argument.Some? && fact.Some? && Canonical(fact.value) && Canon(argument.value) == Canon(fact.value)
  }

  predicate FixHolds(f: Fixed, arguments: Value) {
    var argument := Resolve(arguments, f.argument);
    argument.Some? && Canon(argument.value) == f.canonical
  }

  predicate ShapeHolds(s: Shape, arguments: Value) {
    var argument := Resolve(arguments, s.pointer);
    argument.Some? &&
    (if s.isArray then argument.value.Arr? && |argument.value.items| <= s.maxLength else argument.value.Obj?)
  }

  predicate BindsHold(bind: seq<Binding>, facts: Option<Value>, arguments: Value) {
    forall i :: 0 <= i < |bind| ==> BindHolds(bind[i], facts, arguments)
  }

  predicate FixesHold(fix: seq<Fixed>, arguments: Value) { forall i :: 0 <= i < |fix| ==> FixHolds(fix[i], arguments) }

  predicate ShapesHold(shape: seq<Shape>, arguments: Value) { forall i :: 0 <= i < |shape| ==> ShapeHolds(shape[i], arguments) }

  /** What the policy asks of the arguments, all of it. */
  predicate Holds(p: DecisionPolicy, facts: Option<Value>, arguments: Value) {
    && BindsHold(p.bind, facts, arguments)
    && FixesHold(p.fix, arguments)
    && ShapesHold(p.shape, arguments)
    && (p.closed ==> Unreached(ReachOf(p), arguments).None?)
  }

  method HoldBinding(b: Binding, facts: Option<Value>, arguments: Value) returns (ok: bool)
    ensures ok == BindHolds(b, facts, arguments)
  {
    var argument := ResolvePointer(arguments, b.argument);
    if argument.None? { return false; }
    var fact := None;
    if facts.Some? { fact := ResolvePointer(facts.value, b.fact); }
    return fact.Some? && Canonical(fact.value) && Canon(argument.value) == Canon(fact.value);
  }

  method HoldBindings(bind: seq<Binding>, facts: Option<Value>, arguments: Value) returns (ok: bool)
    ensures ok == BindsHold(bind, facts, arguments)
  {
    for i := 0 to |bind|
      invariant forall k :: 0 <= k < i ==> BindHolds(bind[k], facts, arguments)
    {
      ok := HoldBinding(bind[i], facts, arguments);
      if !ok { return; }
    }
    return true;
  }

  method HoldFixed(fix: seq<Fixed>, arguments: Value) returns (ok: bool)
    ensures ok == FixesHold(fix, arguments)
  {
    for i := 0 to |fix|
      invariant forall k :: 0 <= k < i ==> FixHolds(fix[k], arguments)
    {
      var argument := ResolvePointer(arguments, fix[i].argument);
      if argument.None? || Canon(argument.value) != fix[i].canonical {
        assert !FixHolds(fix[i], arguments);
        return false;
      }
    }
    return true;
  }

  method HoldShapes(shape: seq<Shape>, arguments: Value) returns (ok: bool)
    ensures ok == ShapesHold(shape, arguments)
  {
    for i := 0 to |shape|
      invariant forall k :: 0 <= k < i ==> ShapeHolds(shape[k], arguments)
    {
      var s := shape[i];
      var argument := ResolvePointer(arguments, s.pointer);
      if argument.None? || (s.isArray && !argument.value.Arr?) || (!s.isArray && !argument.value.Obj?)
        || (s.isArray && |argument.value.items| > s.maxLength)
      {
        assert !ShapeHolds(shape[i], arguments);
        return false;
      }
    }
    return true;
  }
}
