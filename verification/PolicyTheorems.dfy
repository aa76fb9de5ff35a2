/** What a closed policy reaches, and when it determines the arguments completely. */
module PolicyTheorems {
  import opened Wrappers
  import opened Utf8
  import opened Json
  import RoundTrip
  import opened Pointers
  import opened Policy
  import opened CanonTheorems

  predicate ValidReach(r: Reach) {
    && (forall i :: 0 <= i < |r.named| ==> ValidPointer(r.named[i]))
    && (forall i :: 0 <= i < |r.shaped| ==> ValidPointer(r.shaped[i]))
  }

  /* ---------- The walk, in token lists ---------- */

  /** At or under a named pointer. */
  predicate UnderNamed(r: Reach, ts: seq<Text>) { exists i :: 0 <= i < |r.named| && Tokens(r.named[i]) <= ts }

  /** On the way to a named or a shaped pointer, or a shaped pointer itself. */
  predicate Leads(r: Reach, ts: seq<Text>) {
    (exists i :: 0 <= i < |r.named| && ts < Tokens(r.named[i])) || (exists i :: 0 <= i < |r.shaped| && ts <= Tokens(r.shaped[i]))
  }

  predicate Admitted(r: Reach, v: Value, ts: seq<Text>) { UnderNamed(r, ts) || (Container(v) && Leads(r, ts)) }

  lemma PointerPrefix(p: Text, ts: seq<Text>)
    requires ValidPointer(p)
    ensures p == [] || Spell(ts) == p || p + [SLASH] <= Spell(ts) <==> Tokens(p) <= ts
    ensures Spell(ts) + [SLASH] <= p <==> ts < Tokens(p)
    ensures p == Spell(ts) <==> Tokens(p) == ts
  {
    SpellOfTokens(p);
    ProperPrefix(Tokens(p), ts);
    ProperPrefix(ts, Tokens(p));
    SpellInjective(Tokens(p), ts);
  }

  /** The string-prefix tests of the walk are prefix tests of token lists. */
  lemma WalkTests(r: Reach, ts: seq<Text>)
    requires ValidReach(r)
    ensures Covered(r, Spell(ts)) <==> UnderNamed(r, ts)
    ensures OnTheWay(r, Spell(ts)) <==> Leads(r, ts)
  {
    forall i | 0 <= i < |r.named|
      ensures r.named[i] == [] || Spell(ts) == r.named[i] || r.named[i] + [SLASH] <= Spell(ts) <==> Tokens(r.named[i]) <= ts
      ensures Spell(ts) + [SLASH] <= r.named[i] <==> ts < Tokens(r.named[i])
    {
      PointerPrefix(r.named[i], ts);
    }
    forall i | 0 <= i < |r.shaped|
      ensures r.shaped[i] == Spell(ts) || Spell(ts) + [SLASH] <= r.shaped[i] <==> ts <= Tokens(r.shaped[i])
    {
      PointerPrefix(r.shaped[i], ts);
    }
  }

  lemma {:induction false} SpellOnto(ts: seq<Text>, t: Text)
    ensures Spell(ts + [t]) == Spell(ts) + [SLASH] + EscapeToken(t)
  {
    if ts == [] {
      assert ts + [t] == [t] && [t][1..] == [];
    } else {
      SpellOnto(ts[1..], t);
      var first, rest, last := [SLASH] + EscapeToken(ts[0]), Spell(ts[1..]), [SLASH] + EscapeToken(t);
      assert (ts + [t])[1..] == ts[1..] + [t] && (ts + [t])[0] == ts[0];
      assert Spell(ts[1..] + [t]) == rest + last;
      assert Spell(ts + [t]) == first + (rest + last);
      assert Spell(ts) == first + rest;
    }
  }

  lemma {:induction false} PlainToken(t: Text)
    requires TILDE !in t && SLASH !in t
    ensures EscapeToken(t) == t
  {
    if t != [] {
      assert t == [t[0]] + t[1..] && t[0] in t;
      EscapeFirst(t[0], t[1..]);
      PlainToken(t[1..]);
    }
  }

  lemma SpellIndex(ts: seq<Text>, i: nat)
    ensures Spell(ts + [Itoa(i)]) == Spell(ts) + [SLASH] + Itoa(i)
  {
    RoundTrip.DigitsBack(i);
    PlainToken(Itoa(i));
    SpellOnto(ts, Itoa(i));
  }

  lemma PathFirst(ts: seq<Text>, path: seq<Step>)
    requires path != []
    ensures ts + PathTokens(path) == (ts + [Token(path[0])]) + PathTokens(path[1..])
  {
  }

  lemma StillUnder(r: Reach, ts: seq<Text>, more: seq<Text>)
    requires UnderNamed(r, ts)
    ensures UnderNamed(r, ts + more)
  {
    var i :| 0 <= i < |r.named| && Tokens(r.named[i]) <= ts;
    assert Tokens(r.named[i]) <= ts + more;
  }

  lemma UnderPrefix(r: Reach, ts: seq<Text>, more: seq<Text>)
    requires ts <= more
    ensures UnderNamed(r, ts) ==> UnderNamed(r, more)
  {
    assert ts + more[|ts|..] == more;
    if UnderNamed(r, ts) { StillUnder(r, ts, more[|ts|..]); }
  }

  /* When the walk finds nothing, every position is admitted. */

  lemma {:induction false} MembersClear(r: Reach, ms: seq<Named<Value>>, at: Text, name: Text)
    requires UnderMembers(r, ms, at).None? && Get(ms, name).Some?
    ensures Visit(r, Get(ms, name).value, at + [SLASH] + EscapeToken(name)).None?
    ensures Get(ms, name).value < Obj(ms)
  {
    if ms[0].name != name {
      MembersClear(r, ms[1..], at, name);
      Smaller(ms, name);
    }
  }

  lemma {:induction false} Smaller(ms: seq<Named<Value>>, name: Text)
    requires Get(ms, name).Some?
    ensures exists i :: 0 <= i < |ms| && ms[i] == Named(name, Get(ms, name).value)
    ensures Get(ms, name).value < Obj(ms)
  {
    if ms[0].name != name {
      Smaller(ms[1..], name);
      var i :| 0 <= i < |ms[1..]| && ms[1..][i] == Named(name, Get(ms[1..], name).value);
      assert ms[i + 1] == Named(name, Get(ms, name).value);
    }
  }

  lemma {:induction false} ItemsClear(r: Reach, items: seq<Value>, first: nat, at: Text, i: nat)
    requires UnderItems(r, items, first, at).None? && i < |items|
    ensures Visit(r, items[i], at + [SLASH] + Itoa(first + i)).None?
  {
    if i > 0 { ItemsClear(r, items[1..], first + 1, at, i - 1); }
  }

  lemma {:induction false} VisitClear(r: Reach, v: Value, ts: seq<Text>, path: seq<Step>)
    requires ValidReach(r) && Visit(r, v, Spell(ts)).None? && ValueAt(v, path).Some?
    ensures Admitted(r, ValueAt(v, path).value, ts + PathTokens(path))
    decreases |path|, 1
  {
    WalkTests(r, ts);
    if UnderNamed(r, ts) {
      StillUnder(r, ts, PathTokens(path));
    } else if path == [] {
      assert ts + PathTokens(path) == ts;
    } else {
      UnderClear(r, v, ts, path);
    }
  }

  lemma {:induction false} UnderClear(r: Reach, v: Value, ts: seq<Text>, path: seq<Step>)
    requires ValidReach(r) && Under(r, v, Spell(ts)).None? && path != [] && ValueAt(v, path).Some?
    ensures Admitted(r, ValueAt(v, path).value, ts + PathTokens(path))
    decreases |path|, 0
  {
    PathFirst(ts, path);
    if v.Obj? {
      var name := path[0].name;
      MembersClear(r, v.members, Spell(ts), name);
      SpellOnto(ts, name);
      VisitClear(r, Get(v.members, name).value, ts + [name], path[1..]);
    } else {
      var i := path[0].i;
      ItemsClear(r, v.items, 0, Spell(ts), i);
      SpellIndex(ts, i);
      VisitClear(r, v.items[i], ts + [Itoa(i)], path[1..]);
    }
  }

  /* What the walk finds is the spelling of a position that is not admitted. */

  lemma {:induction false} MembersBad(r: Reach, ms: seq<Named<Value>>, at: Text) returns (i: nat)
    requires UnderMembers(r, ms, at).Some?
    ensures i < |ms| && Visit(r, ms[i].value, at + [SLASH] + EscapeToken(ms[i].name)) == UnderMembers(r, ms, at)
  {
    if Visit(r, ms[0].value, at + [SLASH] + EscapeToken(ms[0].name)).Some? {
      i := 0;
    } else {
      i := MembersBad(r, ms[1..], at);
      i := i + 1;
    }
  }

  lemma {:induction false} ItemsBad(r: Reach, items: seq<Value>, first: nat, at: Text) returns (i: nat)
    requires UnderItems(r, items, first, at).Some?
    ensures i < |items| && Visit(r, items[i], at + [SLASH] + Itoa(first + i)) == UnderItems(r, items, first, at)
  {
    if Visit(r, items[0], at + [SLASH] + Itoa(first)).Some? {
      i := 0;
    } else {
      i := ItemsBad(r, items[1..], first + 1, at);
      i := i + 1;
    }
  }

  ghost predicate Stray(r: Reach, v: Value, ts: seq<Text>, path: seq<Step>, at: Text) {
    ValueAt(v, path).Some? && at == Spell(ts + PathTokens(path)) && !Admitted(r, ValueAt(v, path).value, ts + PathTokens(path))
  }

  lemma {:induction false} VisitBad(r: Reach, v: Value, ts: seq<Text>) returns (path: seq<Step>)
    requires ValidReach(r) && WellFormed(v) && Visit(r, v, Spell(ts)).Some?
    ensures Stray(r, v, ts, path, Visit(r, v, Spell(ts)).value)
    decreases v, 1
  {
    WalkTests(r, ts);
    if Container(v) && Leads(r, ts) {
      path := UnderBad(r, v, ts);
    } else {
      path := [];
      assert ts + PathTokens(path) == ts;
    }
  }

  lemma {:induction false} UnderBad(r: Reach, v: Value, ts: seq<Text>) returns (path: seq<Step>)
    requires ValidReach(r) && WellFormed(v) && Under(r, v, Spell(ts)).Some?
    ensures path != [] && Stray(r, v, ts, path, Under(r, v, Spell(ts)).value)
    decreases v, 0
  {
    if v.Obj? {
      var i := MembersBad(r, v.members, Spell(ts));
      var m := v.members[i];
      SpellOnto(ts, m.name);
      var rest := VisitBad(r, m.value, ts + [m.name]);
      path := [Member(m.name)] + rest;
      GetAt(v.members, i);
      PathFirst(ts, path);
    } else {
      var i := ItemsBad(r, v.items, 0, Spell(ts));
      SpellIndex(ts, i);
      var rest := VisitBad(r, v.items[i], ts + [Itoa(i)]);
      path := [Index(i)] + rest;
      PathFirst(ts, path);
    }
  }

  lemma {:induction false} GetAt(ms: seq<Named<Value>>, i: nat)
    requires DistinctNames(ms) && i < |ms|
    ensures Get(ms, ms[i].name) == Some(ms[i].value)
  {
    if i > 0 { GetAt(ms[1..], i - 1); }
  }

  ghost predicate AllAdmitted(r: Reach, arguments: Value) {
    forall path: seq<Step> :: path != [] && ValueAt(arguments, path).Some? ==>
      Admitted(r, ValueAt(arguments, path).value, PathTokens(path))
  }

  /** The walk answers "none" exactly when every position below the root is at or under a named
      pointer, or is a container on the way to a named or shaped pointer or shaped itself; and
      what it answers otherwise is the pointer of a position that is none of these. */
  lemma WalkExact(r: Reach, arguments: Value)
    requires ValidReach(r) && WellFormed(arguments)
    ensures Unreached(r, arguments).None? <==> AllAdmitted(r, arguments)
    ensures Unreached(r, arguments).Some? ==>
      exists path :: path != [] && Stray(r, arguments, [], path, Unreached(r, arguments).value)
  {
    WalkTests(r, []);
    if Unreached(r, arguments).None? {
      forall path: seq<Step> | path != [] && ValueAt(arguments, path).Some?
        ensures Admitted(r, ValueAt(arguments, path).value, PathTokens(path))
      {
        assert [] + PathTokens(path) == PathTokens(path);
        if UnderNamed(r, []) { StillUnder(r, [], PathTokens(path)); } else { UnderClear(r, arguments, [], path); }
      }
    } else {
      var path := UnderBad(r, arguments, []);
      assert [] + PathTokens(path) == PathTokens(path);
    }
  }

  /* ---------- A closed policy determines the arguments ---------- */

  /** Some pointer of the policy goes on beyond this place by this token. */
  predicate GoesOn(r: Reach, ts: seq<Text>, token: Text) {
    (exists i :: 0 <= i < |r.named| && ts + [token] <= Tokens(r.named[i]))
    || (exists i :: 0 <= i < |r.shaped| && ts + [token] <= Tokens(r.shaped[i]))
  }

  predicate IsShaped(r: Reach, ts: seq<Text>) { exists i :: 0 <= i < |r.shaped| && Tokens(r.shaped[i]) == ts }

  /** The policy's pointers go on from this place by the indices below n and by nothing else. */
  ghost predicate IndicesOnly(r: Reach, ts: seq<Text>, n: nat) {
    forall token :: GoesOn(r, ts, token) <==> exists i: nat :: i < n && token == Itoa(i)
  }

  /** A place below the root that no named pointer covers and no shape holds, where the pointers
      go on by exactly the indices below some n: an array of n elements fits it, and so does an
      object whose member names are "0", "1" and so on. */
  ghost predicate Ambiguous(r: Reach, ts: seq<Text>) {
    ts != [] && !UnderNamed(r, ts) && !IsShaped(r, ts) && exists n: nat :: n > 0 && IndicesOnly(r, ts, n)
  }

  ghost predicate Unambiguous(r: Reach) { forall ts :: !Ambiguous(r, ts) }

  /** Every pointer of the policy leads somewhere in the arguments. */
  predicate AllResolve(r: Reach, arguments: Value) {
    && (forall i :: 0 <= i < |r.named| ==> Follow(arguments, Tokens(r.named[i])).Some?)
    && (forall i :: 0 <= i < |r.shaped| ==> Follow(arguments, Tokens(r.shaped[i])).Some?)
  }

  lemma HoldsResolve(p: DecisionPolicy, facts: Option<Value>, arguments: Value)
    requires Holds(p, facts, arguments)
    ensures AllResolve(ReachOf(p), arguments)
  {
    var r := ReachOf(p);
    forall i | 0 <= i < |r.named| ensures Follow(arguments, Tokens(r.named[i])).Some? {
      if i < |p.bind| {
        assert BindHolds(p.bind[i], facts, arguments);
      } else {
        assert FixHolds(p.fix[i - |p.bind|], arguments);
      }
    }
    forall i | 0 <= i < |r.shaped| ensures Follow(arguments, Tokens(r.shaped[i])).Some? {
      assert ShapeHolds(p.shape[i], arguments);
    }
  }

  lemma {:induction false} FollowPrefix(v: Value, a: seq<Text>, b: seq<Text>)
    requires a <= b && Follow(v, b).Some?
    ensures Follow(v, a).Some? && Follow(v, b) == Follow(Follow(v, a).value, b[|a|..])
    decreases |a|
  {
    if a == [] {
      assert b[0..] == b;
    } else {
      assert a[0] == b[0] && a[1..] <= b[1..];
      FollowPrefix(Into(v, a[0]).value, a[1..], b[1..]);
      assert b[1..][|a[1..]|..] == b[|a|..];
    }
  }

  lemma {:induction false} FollowOn(v: Value, ts: seq<Text>, token: Text)
    requires Follow(v, ts).Some?
    ensures Follow(v, ts + [token]) == Into(Follow(v, ts).value, token)
    decreases |ts|
  {
    if ts == [] {
      assert ts + [token] == [token] && [token][1..] == [];
    } else {
      FollowOn(Into(v, ts[0]).value, ts[1..], token);
      assert (ts + [token])[1..] == ts[1..] + [token];
    }
  }

  lemma AdmittedAt(r: Reach, arguments: Value, ts: seq<Text>)
    requires AllAdmitted(r, arguments) && ts != [] && Follow(arguments, ts).Some?
    ensures Admitted(r, Follow(arguments, ts).value, ts)
  {
    LocateValue(arguments, ts);
    var path := Locate(arguments, ts).value;
    LocateTokens(arguments, ts, path);
  }

  lemma ProperIsBefore(a: seq<Text>, ts: seq<Text>, token: Text)
    ensures a < ts + [token] ==> a <= ts
  {
    if a < ts + [token] { assert a == (ts + [token])[..|a|] == ts[..|a|]; }
  }

  /** Where no named pointer covers, what the arguments hold below is where a pointer goes on. */
  lemma ChildGoesOn(r: Reach, arguments: Value, ts: seq<Text>, token: Text)
    requires AllAdmitted(r, arguments) && !UnderNamed(r, ts)
    requires Follow(arguments, ts).Some? && Into(Follow(arguments, ts).value, token).Some?
    ensures GoesOn(r, ts, token)
  {
    FollowOn(arguments, ts, token);
    var child := ts + [token];
    AdmittedAt(r, arguments, child);
    if UnderNamed(r, child) {
      var i :| 0 <= i < |r.named| && Tokens(r.named[i]) <= child;
      ProperIsBefore(Tokens(r.named[i]), ts, token);
    }
  }

  lemma GoesOnInto(r: Reach, arguments: Value, ts: seq<Text>, token: Text)
    requires AllResolve(r, arguments) && GoesOn(r, ts, token)
    ensures Follow(arguments, ts).Some? && Into(Follow(arguments, ts).value, token).Some?
  {
    var child := ts + [token];
    if i :| 0 <= i < |r.named| && child <= Tokens(r.named[i]) {
      FollowPrefix(arguments, child, Tokens(r.named[i]));
    } else {
      var i :| 0 <= i < |r.shaped| && child <= Tokens(r.shaped[i]);
      FollowPrefix(arguments, child, Tokens(r.shaped[i]));
    }
    FollowPrefix(arguments, ts, child);
    FollowOn(arguments, ts, token);
  }

  /** At an uncovered place, the tokens a container takes are those the pointers go on by. */
  lemma TokensTaken(r: Reach, arguments: Value, ts: seq<Text>, token: Text)
    requires AllResolve(r, arguments) && AllAdmitted(r, arguments) && !UnderNamed(r, ts) && Follow(arguments, ts).Some?
    ensures Into(Follow(arguments, ts).value, token).Some? <==> GoesOn(r, ts, token)
  {
    if Into(Follow(arguments, ts).value, token).Some? { ChildGoesOn(r, arguments, ts, token); }
    if GoesOn(r, ts, token) { GoesOnInto(r, arguments, ts, token); }
  }

  lemma ArrayIsIndices(r: Reach, arguments: Value, ts: seq<Text>)
    requires AllResolve(r, arguments) && AllAdmitted(r, arguments) && !UnderNamed(r, ts)
    requires Follow(arguments, ts).Some? && Follow(arguments, ts).value.Arr?
    ensures IndicesOnly(r, ts, |Follow(arguments, ts).value.items|)
  {
    var n := |Follow(arguments, ts).value.items|;
    forall token ensures GoesOn(r, ts, token) <==> exists i: nat :: i < n && token == Itoa(i) {
      TokensTaken(r, arguments, ts, token);
      var i := IndexOf(token);
      if i.Some? { IndexSpelling(token, i.value); }
      if i: nat :| i < n && token == Itoa(i) { IndexSpelling(token, i); }
    }
  }

  /** Two arguments that pass hold the same kind of container at an uncovered place. */
  lemma KindsAgree(p: DecisionPolicy, facts: Option<Value>, a: Value, b: Value, ts: seq<Text>)
    requires Passed(p, facts, a) && Passed(p, facts, b) && Unambiguous(ReachOf(p))
    requires ts != [] && !UnderNamed(ReachOf(p), ts) && Follow(a, ts).Some? && Follow(b, ts).Some?
    ensures Follow(a, ts).value.Arr? ==> Follow(b, ts).value.Arr?
  {
    var r, v, w := ReachOf(p), Follow(a, ts).value, Follow(b, ts).value;
    HoldsResolve(p, facts, a);
    HoldsResolve(p, facts, b);
    AdmittedAt(r, b, ts);
    if IsShaped(r, ts) {
      var i :| 0 <= i < |r.shaped| && Tokens(r.shaped[i]) == ts;
      assert ShapeHolds(p.shape[i], a) && ShapeHolds(p.shape[i], b);
    } else if v.Arr? {
      ArrayIsIndices(r, a, ts);
      assert !Ambiguous(r, ts);
      assert |v.items| == 0;
      AdmittedAt(r, a, ts);
      var token := LeadsOn(r, ts);
      TokensTaken(r, a, ts, token);
    }
  }

  lemma LeadsOn(r: Reach, ts: seq<Text>) returns (token: Text)
    requires Leads(r, ts) && !IsShaped(r, ts)
    ensures GoesOn(r, ts, token)
  {
    if i :| 0 <= i < |r.named| && ts < Tokens(r.named[i]) {
      token := NextToken(ts, Tokens(r.named[i]));
    } else {
      var i :| 0 <= i < |r.shaped| && ts <= Tokens(r.shaped[i]);
      token := NextToken(ts, Tokens(r.shaped[i]));
    }
  }

  lemma NextToken(ts: seq<Text>, all: seq<Text>) returns (token: Text)
    requires ts < all
    ensures ts + [token] <= all
  {
    token := all[|ts|];
    assert all[..|ts| + 1] == ts + [token];
  }

  /** The arguments are an object of the domain that the policy admits on these facts. */
  ghost predicate Passed(p: DecisionPolicy, facts: Option<Value>, arguments: Value) {
    p.closed && ValidReach(ReachOf(p)) && arguments.Obj? && InDomain(arguments) && Holds(p, facts, arguments)
    && AllAdmitted(ReachOf(p), arguments)
  }

  lemma {:induction false} FollowGood(v: Value, ts: seq<Text>, k: nat)
    requires RoundTrip.Good(v, k) && Follow(v, ts).Some?
    ensures RoundTrip.Good(Follow(v, ts).value, k)
    decreases |ts|
  {
    if ts != [] {
      var next := Into(v, ts[0]).value;
      if v.Obj? { Smaller(v.members, ts[0]); }
      assert RoundTrip.Good(next, k) by { Deeper(next, k - 1, k); }
      FollowGood(next, ts[1..], k);
    }
  }

  lemma {:induction false} Deeper(v: Value, k: nat, n: nat)
    requires NestsWithin(v, k) && k <= n
    ensures NestsWithin(v, n)
  {
    match v
    case Arr(items) =>
      forall i | 0 <= i < |items| ensures NestsWithin(items[i], n - 1) { Deeper(items[i], k - 1, n - 1); }
    case Obj(ms) =>
      forall i | 0 <= i < |ms| ensures NestsWithin(ms[i].value, n - 1) { Deeper(ms[i].value, k - 1, n - 1); }
    case _ =>
  }

  /** A named pointer's value is the fact or the fixed value, in every arguments that pass. */
  lemma NamedSame(p: DecisionPolicy, facts: Option<Value>, a: Value, b: Value, ts: seq<Text>)
    requires Passed(p, facts, a) && Passed(p, facts, b)
    requires exists i :: 0 <= i < |NamedArguments(p)| && Tokens(NamedArguments(p)[i]) == ts
    ensures Follow(a, ts).Some? && Follow(b, ts).Some? && Same(Follow(a, ts).value, Follow(b, ts).value)
  {
    var i :| 0 <= i < |NamedArguments(p)| && Tokens(NamedArguments(p)[i]) == ts;
    if i < |p.bind| {
      assert BindHolds(p.bind[i], facts, a) && BindHolds(p.bind[i], facts, b);
    } else {
      assert FixHolds(p.fix[i - |p.bind|], a) && FixHolds(p.fix[i - |p.bind|], b);
    }
    FollowGood(a, ts, MAX_NESTING);
    FollowGood(b, ts, MAX_NESTING);
    CanonInjective(Follow(a, ts).value, Follow(b, ts).value);
  }

  function NameSet(ms: seq<Named<Value>>): set<Text> { set i | 0 <= i < |ms| :: ms[i].name }

  lemma {:induction false} NameSetSize(ms: seq<Named<Value>>)
    ensures |NameSet(ms)| <= |ms|
    ensures DistinctNames(ms) ==> |NameSet(ms)| == |ms|
  {
    if ms != [] {
      var rest := ms[..|ms| - 1];
      var last := ms[|ms| - 1].name;
      NameSetSize(rest);
      assert NameSet(ms) == NameSet(rest) + {last} by {
        forall n | n in NameSet(ms) ensures n in NameSet(rest) + {last} {
          var i :| 0 <= i < |ms| && ms[i].name == n;
          if i < |rest| { assert rest[i].name == n; }
        }
        forall n | n in NameSet(rest) ensures n in NameSet(ms) {
          var i :| 0 <= i < |rest| && rest[i].name == n;
          assert ms[i].name == n;
        }
        assert ms[|ms| - 1].name in NameSet(ms);
      }
      if DistinctNames(ms) { assert last !in NameSet(rest); }
    }
  }

  lemma NamesWithin(ms: seq<Named<Value>>, ws: seq<Named<Value>>)
    requires DistinctNames(ms) && forall i :: 0 <= i < |ms| ==> Get(ws, ms[i].name).Some?
    ensures |ms| <= |ws|
  {
    NameSetSize(ms);
    NameSetSize(ws);
    forall n | n in NameSet(ms) ensures n in NameSet(ws) {
      var i :| 0 <= i < |ms| && ms[i].name == n;
      Smaller(ws, n);
      var j :| 0 <= j < |ws| && ws[j] == Named(n, Get(ws, n).value);
      assert ws[j].name in NameSet(ws);
    }
    SubsetSize(NameSet(ms), NameSet(ws));
  }

  /** No named pointer covers this place from strictly above. */
  predicate NotAbove(r: Reach, ts: seq<Text>) { forall i :: 0 <= i < |r.named| ==> !(Tokens(r.named[i]) < ts) }

  lemma NotAboveBelow(r: Reach, ts: seq<Text>, token: Text)
    requires !UnderNamed(r, ts)
    ensures NotAbove(r, ts + [token])
  {
    forall i | 0 <= i < |r.named| ensures !(Tokens(r.named[i]) < ts + [token]) {
      ProperIsBefore(Tokens(r.named[i]), ts, token);
    }
  }

  lemma TokensShared(p: DecisionPolicy, facts: Option<Value>, a: Value, b: Value, ts: seq<Text>, token: Text)
    requires Passed(p, facts, a) && Passed(p, facts, b) && !UnderNamed(ReachOf(p), ts)
    requires Follow(a, ts).Some? && Follow(b, ts).Some?
    ensures Into(Follow(a, ts).value, token).Some? <==> Into(Follow(b, ts).value, token).Some?
  {
    HoldsResolve(p, facts, a);
    HoldsResolve(p, facts, b);
    TokensTaken(ReachOf(p), a, ts, token);
    TokensTaken(ReachOf(p), b, ts, token);
  }

  lemma {:induction false} SameBelow(p: DecisionPolicy, facts: Option<Value>, a: Value, b: Value, ts: seq<Text>, v: Value, w: Value)
    requires Passed(p, facts, a) && Passed(p, facts, b) && Unambiguous(ReachOf(p)) && NotAbove(ReachOf(p), ts)
    requires Follow(a, ts) == Some(v) && Follow(b, ts) == Some(w)
    ensures Same(v, w)
    decreases v
  {
    var r := ReachOf(p);
    if UnderNamed(r, ts) {
      NamedSame(p, facts, a, b, ts);
    } else {
      SameKind(p, facts, a, b, ts);
      if v.Arr? {
        SameLength(p, facts, a, b, ts);
        forall i | 0 <= i < |v.items| ensures Same(v.items[i], w.items[i]) {
          FollowOn(a, ts, Itoa(i));
          FollowOn(b, ts, Itoa(i));
          IndexSpelling(Itoa(i), i);
          NotAboveBelow(r, ts, Itoa(i));
          SameBelow(p, facts, a, b, ts + [Itoa(i)], v.items[i], w.items[i]);
        }
      } else {
        SameNames(p, facts, a, b, ts);
        forall i | 0 <= i < |v.members| ensures HasSame(w.members, v.members[i].name, v.members[i].value) {
          var m := v.members[i];
          assert RoundTrip.Good(v, MAX_NESTING) by { FollowGood(a, ts, MAX_NESTING); }
          GetAt(v.members, i);
          FollowOn(a, ts, m.name);
          FollowOn(b, ts, m.name);
          NotAboveBelow(r, ts, m.name);
          var other := Get(w.members, m.name).value;
          SameBelow(p, facts, a, b, ts + [m.name], m.value, other);
          Smaller(w.members, m.name);
          HoldsSame(w.members, Named(m.name, other), m.value);
        }
      }
    }
  }

  /** Both are arrays or both are objects. */
  lemma SameKind(p: DecisionPolicy, facts: Option<Value>, a: Value, b: Value, ts: seq<Text>)
    requires Passed(p, facts, a) && Passed(p, facts, b) && Unambiguous(ReachOf(p))
    requires !UnderNamed(ReachOf(p), ts) && Follow(a, ts).Some? && Follow(b, ts).Some?
    ensures var v, w := Follow(a, ts).value, Follow(b, ts).value; (v.Arr? && w.Arr?) || (v.Obj? && w.Obj?)
  {
    if ts != [] {
      AdmittedAt(ReachOf(p), a, ts);
      AdmittedAt(ReachOf(p), b, ts);
      KindsAgree(p, facts, a, b, ts);
      KindsAgree(p, facts, b, a, ts);
    }
  }

  lemma SameLength(p: DecisionPolicy, facts: Option<Value>, a: Value, b: Value, ts: seq<Text>)
    requires Passed(p, facts, a) && Passed(p, facts, b) && !UnderNamed(ReachOf(p), ts)
    requires Follow(a, ts).Some? && Follow(b, ts).Some? && Follow(a, ts).value.Arr? && Follow(b, ts).value.Arr?
    ensures |Follow(a, ts).value.items| == |Follow(b, ts).value.items|
  {
    var m, n := |Follow(a, ts).value.items|, |Follow(b, ts).value.items|;
    TokensShared(p, facts, a, b, ts, Itoa(m));
    TokensShared(p, facts, a, b, ts, Itoa(n));
    IndexSpelling(Itoa(m), m);
    IndexSpelling(Itoa(n), n);
  }

  lemma SameNames(p: DecisionPolicy, facts: Option<Value>, a: Value, b: Value, ts: seq<Text>)
    requires Passed(p, facts, a) && Passed(p, facts, b) && !UnderNamed(ReachOf(p), ts)
    requires Follow(a, ts).Some? && Follow(b, ts).Some? && Follow(a, ts).value.Obj? && Follow(b, ts).value.Obj?
    ensures var ms, ws := Follow(a, ts).value.members, Follow(b, ts).value.members;
      |ms| == |ws| && forall i :: 0 <= i < |ms| ==> Get(ws, ms[i].name).Some?
  {
    var v, w := Follow(a, ts).value, Follow(b, ts).value;
    FollowGood(a, ts, MAX_NESTING);
    FollowGood(b, ts, MAX_NESTING);
    forall i | 0 <= i < |v.members| ensures Get(w.members, v.members[i].name).Some? {
      GetAt(v.members, i);
      TokensShared(p, facts, a, b, ts, v.members[i].name);
    }
    forall i | 0 <= i < |w.members| ensures Get(v.members, w.members[i].name).Some? {
      GetAt(w.members, i);
      TokensShared(p, facts, a, b, ts, w.members[i].name);
    }
    NamesWithin(v.members, w.members);
    NamesWithin(w.members, v.members);
  }

  /** A closed policy with no ambiguous place determines the arguments completely: on one record's
      facts at most one arguments object passes, whatever bytes it came in. */
  lemma PolicyDetermines(p: DecisionPolicy, facts: Option<Value>, a: Value, b: Value)
    requires p.closed && ValidReach(ReachOf(p)) && Unambiguous(ReachOf(p))
    requires a.Obj? && InDomain(a) && Holds(p, facts, a)
    requires b.Obj? && InDomain(b) && Holds(p, facts, b)
    ensures Same(a, b) && Canon(a) == Canon(b)
  {
    WalkExact(ReachOf(p), a);
    WalkExact(ReachOf(p), b);
    SameBelow(p, facts, a, b, [], a, b);
    CanonInjective(a, b);
  }

  /** It is enough to shape every uncovered container the pointers pass through. */
  lemma ShapedIsUnambiguous(r: Reach)
    requires forall ts, token :: ts != [] && GoesOn(r, ts, token) ==> UnderNamed(r, ts) || IsShaped(r, ts)
    ensures Unambiguous(r)
  {
    forall ts ensures !Ambiguous(r, ts) {
      if n: nat :| n > 0 && IndicesOnly(r, ts, n) { assert GoesOn(r, ts, Itoa(0)); }
    }
  }
}
