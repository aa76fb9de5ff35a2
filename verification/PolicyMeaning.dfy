/** What arguments pass a decision policy, said of positions and values (go/decision_policy.go). */
module PolicyMeaning {
  import opened Wrappers
  import opened Utf8
  import opened Json
  import opened Pointers
  import opened Policy
  import opened PolicyTheorems
  import opened CanonTheorems

  /** The value holds x at a position whose escaped spelling is the pointer. */
  ghost predicate HasAt(v: Value, pointer: Text, x: Value) {
    exists path :: Spell(PathTokens(path)) == pointer && ValueAt(v, path) == Some(x)
  }

  lemma ResolveMeans(v: Value, pointer: Text, x: Value)
    requires ValidPointer(pointer)
    ensures Resolve(v, pointer) == Some(x) <==> HasAt(v, pointer, x)
  {
    if Resolve(v, pointer) == Some(x) {
      LocateValue(v, Tokens(pointer));
      var path := Locate(v, Tokens(pointer)).value;
      ResolvesToItsSpelling(v, pointer, path);
    }
    if HasAt(v, pointer, x) {
      var path :| Spell(PathTokens(path)) == pointer && ValueAt(v, path) == Some(x);
      ResolvesToItsSpelling(v, pointer, path);
    }
  }

  /** A bound argument is there, and so is its fact, in the canonical domain and the same JSON value. */
  ghost predicate Bound(b: Binding, facts: Option<Value>, arguments: Value) {
    exists x, y :: HasAt(arguments, b.argument, x) && facts.Some? && HasAt(facts.value, b.fact, y) && Canonical(y) && Same(x, y)
  }

  /** A fixed argument is there, with the canonical bytes the policy fixes. */
  ghost predicate Fixes(f: Fixed, arguments: Value) { exists x :: HasAt(arguments, f.argument, x) && Canon(x) == f.canonical }

  /** A shaped argument is there: an array no longer than its bound, or an object, as the policy says. */
  ghost predicate Shapes(s: Shape, arguments: Value) {
    exists x :: HasAt(arguments, s.pointer, x) && (if s.isArray then x.Arr? && |x.items| <= s.maxLength else x.Obj?)
  }

  ghost predicate Admits(p: DecisionPolicy, facts: Option<Value>, arguments: Value) {
    && (forall i :: 0 <= i < |p.bind| ==> Bound(p.bind[i], facts, arguments))
    && (forall i :: 0 <= i < |p.fix| ==> Fixes(p.fix[i], arguments))
    && (forall i :: 0 <= i < |p.shape| ==> Shapes(p.shape[i], arguments))
    && (p.closed ==> AllAdmitted(ReachOf(p), arguments))
  }

  /** A policy whose pointers are pointers, as the loader has it. */
  predicate Pointed(p: DecisionPolicy) {
    && (forall i :: 0 <= i < |p.bind| ==> ValidPointer(p.bind[i].argument) && ValidPointer(p.bind[i].fact))
    && (forall i :: 0 <= i < |p.fix| ==> ValidPointer(p.fix[i].argument))
    && (forall i :: 0 <= i < |p.shape| ==> ValidPointer(p.shape[i].pointer))
  }

  /** The facts of a record: what the parser makes, numbers of any form among them. */
  predicate Recorded(facts: Option<Value>) {
    facts.Some? ==> WellFormed(facts.value) && NestsWithin(facts.value, MAX_NESTING)
  }

  lemma PointedReach(p: DecisionPolicy)
    requires Pointed(p)
    ensures ValidReach(ReachOf(p))
  {
  }

  /** What stands at a position of a value made by the parser is such a value. */
  lemma {:induction false} PartMade(v: Value, path: seq<Step>, k: nat)
    requires WellFormed(v) && NestsWithin(v, k) && ValueAt(v, path).Some?
    ensures WellFormed(ValueAt(v, path).value) && NestsWithin(ValueAt(v, path).value, k)
    ensures Canonical(v) ==> Canonical(ValueAt(v, path).value)
    decreases |path|
  {
    if path != [] {
      var next := Next(v, path[0]).value;
      if v.Obj? { GetThere(v.members, path[0].name); }
      PartMade(next, path[1..], k - 1);
      Deeper(ValueAt(v, path).value, k - 1, k);
    }
  }

  lemma {:induction false} GetThere(ms: seq<Named<Value>>, name: Text)
    requires Get(ms, name).Some?
    ensures exists i :: 0 <= i < |ms| && ms[i].value == Get(ms, name).value
  {
    if ms[0].name != name {
      GetThere(ms[1..], name);
      var i :| 0 <= i < |ms[1..]| && ms[1..][i].value == Get(ms[1..], name).value;
      assert ms[i + 1] == ms[1..][i];
    }
  }

  lemma HasMade(v: Value, pointer: Text, x: Value)
    requires WellFormed(v) && NestsWithin(v, MAX_NESTING) && HasAt(v, pointer, x)
    ensures WellFormed(x) && NestsWithin(x, MAX_NESTING) && (Canonical(v) ==> Canonical(x))
  {
    var path :| Spell(PathTokens(path)) == pointer && ValueAt(v, path) == Some(x);
    PartMade(v, path, MAX_NESTING);
  }

  lemma BoundExactly(b: Binding, facts: Option<Value>, arguments: Value)
    requires ValidPointer(b.argument) && ValidPointer(b.fact) && InDomain(arguments) && Recorded(facts)
    ensures BindHolds(b, facts, arguments) <==> Bound(b, facts, arguments)
  {
    if BindHolds(b, facts, arguments) {
      var x, y := Resolve(arguments, b.argument).value, Resolve(facts.value, b.fact).value;
      BoundPair(b, facts.value, arguments, x, y);
    }
    if Bound(b, facts, arguments) {
      var x, y :| HasAt(arguments, b.argument, x) && HasAt(facts.value, b.fact, y) && Canonical(y) && Same(x, y);
      BoundPair(b, facts.value, arguments, x, y);
    }
  }

  lemma BoundPair(b: Binding, facts: Value, arguments: Value, x: Value, y: Value)
    requires ValidPointer(b.argument) && ValidPointer(b.fact) && InDomain(arguments) && Recorded(Some(facts)) && Canonical(y)
    ensures Resolve(arguments, b.argument) == Some(x) && Resolve(facts, b.fact) == Some(y)
      <==> HasAt(arguments, b.argument, x) && HasAt(facts, b.fact, y)
    ensures HasAt(arguments, b.argument, x) && HasAt(facts, b.fact, y) ==> (Canon(x) == Canon(y) <==> Same(x, y))
  {
    ResolveMeans(arguments, b.argument, x);
    ResolveMeans(facts, b.fact, y);
    if HasAt(arguments, b.argument, x) && HasAt(facts, b.fact, y) {
      HasMade(arguments, b.argument, x);
      HasMade(facts, b.fact, y);
      CanonInjective(x, y);
    }
  }

  lemma FixesExactly(f: Fixed, arguments: Value)
    requires ValidPointer(f.argument)
    ensures FixHolds(f, arguments) <==> Fixes(f, arguments)
  {
    if FixHolds(f, arguments) { ResolveMeans(arguments, f.argument, Resolve(arguments, f.argument).value); }
    if Fixes(f, arguments) {
      var x :| HasAt(arguments, f.argument, x) && Canon(x) == f.canonical;
      ResolveMeans(arguments, f.argument, x);
    }
  }

  lemma ShapesExactly(s: Shape, arguments: Value)
    requires ValidPointer(s.pointer)
    ensures ShapeHolds(s, arguments) <==> Shapes(s, arguments)
  {
    if ShapeHolds(s, arguments) { ResolveMeans(arguments, s.pointer, Resolve(arguments, s.pointer).value); }
    if Shapes(s, arguments) {
      var x :| HasAt(arguments, s.pointer, x) && (if s.isArray then x.Arr? && |x.items| <= s.maxLength else x.Obj?);
      ResolveMeans(arguments, s.pointer, x);
    }
  }

  /** Arguments pass exactly when, position by position, they are bound, fixed and shaped as the policy
      says and, under a closed policy, hold nothing no pointer reaches. */
  lemma HoldsExactly(p: DecisionPolicy, facts: Option<Value>, arguments: Value)
    requires Pointed(p) && InDomain(arguments) && Recorded(facts)
    ensures Holds(p, facts, arguments) <==> Admits(p, facts, arguments)
  {
    forall i | 0 <= i < |p.bind| ensures BindHolds(p.bind[i], facts, arguments) <==> Bound(p.bind[i], facts, arguments) {
      BoundExactly(p.bind[i], facts, arguments);
    }
    forall i | 0 <= i < |p.fix| ensures FixHolds(p.fix[i], arguments) <==> Fixes(p.fix[i], arguments) {
      FixesExactly(p.fix[i], arguments);
    }
    forall i | 0 <= i < |p.shape| ensures ShapeHolds(p.shape[i], arguments) <==> Shapes(p.shape[i], arguments) {
      ShapesExactly(p.shape[i], arguments);
    }
    PointedReach(p);
    WalkExact(ReachOf(p), arguments);
  }

  /** Whatever else the policy says: arguments that hold, at the pointer of a shape, an array over its
      bound or a value of another kind, or nothing, are refused. */
  lemma WrongShapeRefused(p: DecisionPolicy, facts: Option<Value>, arguments: Value, i: nat)
    requires Pointed(p) && InDomain(arguments) && Recorded(facts) && i < |p.shape|
    requires forall path: seq<Step> :: Spell(PathTokens(path)) == p.shape[i].pointer ==>
      match ValueAt(arguments, path)
      case None => true
      case Some(Arr(items)) => !p.shape[i].isArray || |items| > p.shape[i].maxLength
      case Some(Obj(_)) => p.shape[i].isArray
      case _ => true
    ensures !Holds(p, facts, arguments)
  {
    HoldsExactly(p, facts, arguments);
    assert !Shapes(p.shape[i], arguments);
  }

  /** A value the policy fixes to the canonical bytes of a value is that value. */
  lemma FixedIsValue(f: Fixed, arguments: Value, w: Value)
    requires ValidPointer(f.argument) && InDomain(arguments) && InDomain(w) && f.canonical == Canon(w)
    ensures FixHolds(f, arguments) <==> exists x :: HasAt(arguments, f.argument, x) && Same(x, w)
  {
    FixesExactly(f, arguments);
    forall x | HasAt(arguments, f.argument, x) ensures Canon(x) == f.canonical <==> Same(x, w) {
      HasMade(arguments, f.argument, x);
      CanonInjective(x, w);
    }
  }

  /** holdToPolicy's hold on the arguments: whether they pass. */
  method HoldArguments(p: DecisionPolicy, facts: Option<Value>, arguments: Value) returns (ok: bool)
    requires Pointed(p) && InDomain(arguments) && Recorded(facts)
    ensures ok <==> Admits(p, facts, arguments)
    ensures ok == Holds(p, facts, arguments)
  {
    HoldsExactly(p, facts, arguments);
    ok := HoldBindings(p.bind, facts, arguments);
    if !ok { return; }
    ok := HoldFixed(p.fix, arguments);
    if !ok { return; }
    ok := HoldShapes(p.shape, arguments);
    if !ok { return; }
    ok := !p.closed || Unreached(ReachOf(p), arguments).None?;
  }
}
