/** The other half: where a closed policy has an ambiguous place, and any arguments pass at all,
    other arguments pass too. */
module PolicyExact {
  import opened Wrappers
  import opened Utf8
  import opened Json
  import RoundTrip
  import opened Pointers
  import opened Policy
  import opened CanonTheorems
  import opened PolicyTheorems

  /* ---------- Replacing the value at a place ---------- */

  function SetMember(ms: seq<Named<Value>>, name: Text, x: Value): (r: seq<Named<Value>>)
    ensures |r| == |ms|
    ensures forall i :: 0 <= i < |ms| ==> r[i].name == ms[i].name
  {
    if ms == [] then []
    else if ms[0].name == name then [Named(name, x)] + ms[1..]
    else [ms[0]] + SetMember(ms[1..], name, x)
  }

  function ReplaceAt(v: Value, ts: seq<Text>, x: Value): Value
    requires Follow(v, ts).Some?
    decreases |ts|
  {
    if ts == [] then x
    else
      var inside := ReplaceAt(Into(v, ts[0]).value, ts[1..], x);
      if v.Obj? then Obj(SetMember(v.members, ts[0], inside))
      else Arr(v.items[IndexOf(ts[0]).value := inside])
  }

  lemma {:induction false} GetSet(ms: seq<Named<Value>>, name: Text, x: Value, token: Text)
    requires Get(ms, name).Some?
    ensures Get(SetMember(ms, name, x), token) == if token == name then Some(x) else Get(ms, token)
  {
    if ms[0].name != name {
      GetSet(ms[1..], name, x, token);
      assert SetMember(ms, name, x)[1..] == SetMember(ms[1..], name, x);
    } else {
      assert SetMember(ms, name, x)[1..] == ms[1..];
    }
  }

  /** Of the values one token leads to, only the replaced one changes. */
  lemma IntoReplaced(v: Value, ts: seq<Text>, x: Value, token: Text)
    requires ts != [] && Follow(v, ts).Some?
    ensures Into(ReplaceAt(v, ts, x), token)
      == if token == ts[0] then Some(ReplaceAt(Into(v, ts[0]).value, ts[1..], x)) else Into(v, token)
  {
    var inside := ReplaceAt(Into(v, ts[0]).value, ts[1..], x);
    if v.Obj? {
      GetSet(v.members, ts[0], inside, token);
    } else {
      var i := IndexOf(ts[0]).value;
      IndexSpelling(token, i);
      IndexSpelling(ts[0], i);
    }
  }

  /** Two containers that every token leads into alike. */
  ghost predicate Alike(w: Value, x: Value) {
    Container(w) && Container(x) && forall token :: Into(x, token) == Into(w, token)
  }

  /** No place changes but those on the way to the replaced one, and these keep their kind. */
  lemma {:induction false} FollowReplaced(a: Value, q: seq<Text>, x: Value, ts: seq<Text>)
    requires Follow(a, q).Some? && Alike(Follow(a, q).value, x)
    ensures var b := ReplaceAt(a, q, x);
      && (!(ts <= q) ==> Follow(b, ts) == Follow(a, ts))
      && (ts <= q ==> Follow(b, ts).Some? && Follow(a, ts).Some? && Container(Follow(b, ts).value) && Container(Follow(a, ts).value))
      && (ts < q ==> SameFrame(Follow(a, ts).value, Follow(b, ts).value))
      && (ts == q ==> Follow(b, ts).value == x)
    decreases |q|
  {
    if q == [] {
      if ts != [] { assert Into(x, ts[0]) == Into(a, ts[0]); }
    } else if ts != [] {
      IntoReplaced(a, q, x, ts[0]);
      PrefixFirst(ts[0], ts[1..], q[0], q[1..]);
      assert ts == [ts[0]] + ts[1..] && q == [q[0]] + q[1..];
      if ts[0] == q[0] { FollowReplaced(Into(a, q[0]).value, q[1..], x, ts[1..]); }
    }
  }

  predicate SameFrame(v: Value, w: Value) { if v.Arr? then w.Arr? && |w.items| == |v.items| else v.Obj? && w.Obj? }

  /** Whatever domain bounds the old value keeps, the new one keeps. */
  ghost predicate KeepsGood(w: Value, x: Value) { forall j: nat :: RoundTrip.Good(w, j) ==> RoundTrip.Good(x, j) }

  lemma {:induction false} ReplaceGood(v: Value, ts: seq<Text>, x: Value, k: nat)
    requires RoundTrip.Good(v, k) && Follow(v, ts).Some? && KeepsGood(Follow(v, ts).value, x)
    ensures RoundTrip.Good(ReplaceAt(v, ts, x), k)
    decreases |ts|
  {
    if ts != [] {
      var next := Into(v, ts[0]).value;
      if v.Obj? {
        Smaller(v.members, ts[0]);
        ReplaceGood(next, ts[1..], x, k - 1);
        SetGood(v.members, ts[0], ReplaceAt(next, ts[1..], x), k - 1);
      } else {
        ReplaceGood(next, ts[1..], x, k - 1);
      }
    }
  }

  lemma {:induction false} SetGood(ms: seq<Named<Value>>, name: Text, x: Value, k: nat)
    requires RoundTrip.GoodMembers(ms, k) && RoundTrip.Good(x, k)
    ensures RoundTrip.GoodMembers(SetMember(ms, name, x), k)
    ensures DistinctNames(ms) ==> DistinctNames(SetMember(ms, name, x))
  {
    if ms != [] && ms[0].name != name { SetGood(ms[1..], name, x, k); }
    var r := SetMember(ms, name, x);
    if DistinctNames(ms) {
      forall i, j | 0 <= i < j < |r| ensures r[i].name != r[j].name { assert ms[i].name != ms[j].name; }
    }
  }

  /* ---------- The array and the object that an ambiguous place cannot tell apart ---------- */

  ghost predicate TakesIndices(w: Value, n: nat) {
    Container(w) && forall token :: Into(w, token).Some? <==> exists i: nat :: i < n && token == Itoa(i)
  }

  lemma TakesEach(w: Value, n: nat, i: nat)
    requires TakesIndices(w, n) && i < n
    ensures Into(w, Itoa(i)).Some?
  {
  }

  function AsArray(w: Value, n: nat): Value
    requires forall i: nat :: i < n ==> Into(w, Itoa(i)).Some?
  {
    Arr(seq(n, i requires 0 <= i < n => Into(w, Itoa(i)).value))
  }

  function AsMembers(w: Value, n: nat): (ms: seq<Named<Value>>)
    requires forall i: nat :: i < n ==> Into(w, Itoa(i)).Some?
    ensures |ms| == n && forall i: nat :: i < n ==> ms[i] == Named(Itoa(i), Into(w, Itoa(i)).value)
  {
    seq(n, i requires 0 <= i < n => Named(Itoa(i), Into(w, Itoa(i)).value))
  }

  lemma IndicesDiffer(i: nat, j: nat)
    requires i != j
    ensures Itoa(i) != Itoa(j)
  {
    IndexSpelling(Itoa(i), i);
    IndexSpelling(Itoa(i), j);
  }

  lemma ArrayAlike(w: Value, n: nat)
    requires TakesIndices(w, n) && forall i: nat :: i < n ==> Into(w, Itoa(i)).Some?
    ensures Alike(w, AsArray(w, n))
  {
    forall token ensures Into(AsArray(w, n), token) == Into(w, token) {
      var i := IndexOf(token);
      if i.Some? { IndexSpelling(token, i.value); }
      if j: nat :| j < n && token == Itoa(j) { IndexSpelling(token, j); }
    }
  }

  lemma ObjectAlike(w: Value, n: nat)
    requires TakesIndices(w, n) && forall i: nat :: i < n ==> Into(w, Itoa(i)).Some?
    ensures Alike(w, Obj(AsMembers(w, n))) && DistinctNames(AsMembers(w, n))
  {
    var ms := AsMembers(w, n);
    forall i, j | 0 <= i < j < n ensures ms[i].name != ms[j].name { IndicesDiffer(i, j); }
    forall token ensures Into(Obj(ms), token) == Into(w, token) {
      if i: nat :| i < n && token == Itoa(i) {
        GetAt(ms, i);
      } else if Get(ms, token).Some? {
        Smaller(ms, token);
      }
    }
  }

  lemma ChildGood(w: Value, token: Text, j: nat)
    requires RoundTrip.Good(w, j) && Into(w, token).Some?
    ensures j > 0 && RoundTrip.Good(Into(w, token).value, j - 1)
  {
    if w.Obj? { Smaller(w.members, token); }
  }

  /** The same elements under the same tokens, in the other kind of container. */
  lemma OtherKind(w: Value, n: nat) returns (x: Value)
    requires TakesIndices(w, n) && n > 0
    ensures Alike(w, x) && KeepsGood(w, x) && w.Arr? != x.Arr?
  {
    forall i: nat | i < n ensures Into(w, Itoa(i)).Some? { TakesEach(w, n, i); }
    if w.Arr? {
      x := Obj(AsMembers(w, n));
      ObjectAlike(w, n);
    } else {
      x := AsArray(w, n);
      ArrayAlike(w, n);
    }
    forall j: nat | RoundTrip.Good(w, j) ensures RoundTrip.Good(x, j) {
      ChildGood(w, Itoa(0), j);
      forall i: nat | i < n ensures RoundTrip.Good(Into(w, Itoa(i)).value, j - 1) { ChildGood(w, Itoa(i), j); }
    }
  }

  /* ---------- The replaced arguments pass ---------- */

  lemma {:induction false} SameFollow(a: Value, b: Value, ts: seq<Text>)
    requires Same(a, b) && WellFormed(b) && Follow(a, ts).Some?
    ensures Follow(b, ts).Some? && Same(Follow(a, ts).value, Follow(b, ts).value)
    decreases |ts|
  {
    if ts != [] {
      if a.Obj? {
        Smaller(a.members, ts[0]);
        var i :| 0 <= i < |a.members| && a.members[i] == Named(ts[0], Get(a.members, ts[0]).value);
        assert HasSame(b.members, a.members[i].name, a.members[i].value);
        var j :| 0 <= j < |b.members| && b.members[j].name == ts[0] && Same(a.members[i].value, b.members[j].value);
        GetAt(b.members, j);
      }
      SameFollow(Into(a, ts[0]).value, Into(b, ts[0]).value, ts[1..]);
    }
  }

  lemma ReplacedHolds(p: DecisionPolicy, facts: Option<Value>, a: Value, q: seq<Text>, x: Value)
    requires Passed(p, facts, a) && Follow(a, q).Some? && Alike(Follow(a, q).value, x)
    requires !UnderNamed(ReachOf(p), q) && !IsShaped(ReachOf(p), q)
    ensures var b := ReplaceAt(a, q, x);
      BindsHold(p.bind, facts, b) && FixesHold(p.fix, b) && ShapesHold(p.shape, b)
  {
    var r, b := ReachOf(p), ReplaceAt(a, q, x);
    forall i | 0 <= i < |p.bind| ensures BindHolds(p.bind[i], facts, b) {
      assert BindHolds(p.bind[i], facts, a) && r.named[i] == p.bind[i].argument;
      FollowReplaced(a, q, x, Tokens(r.named[i]));
    }
    forall i | 0 <= i < |p.fix| ensures FixHolds(p.fix[i], b) {
      assert FixHolds(p.fix[i], a) && r.named[|p.bind| + i] == p.fix[i].argument;
      FollowReplaced(a, q, x, Tokens(r.named[|p.bind| + i]));
    }
    forall i | 0 <= i < |p.shape| ensures ShapeHolds(p.shape[i], b) {
      assert ShapeHolds(p.shape[i], a) && r.shaped[i] == p.shape[i].pointer;
      FollowReplaced(a, q, x, Tokens(r.shaped[i]));
    }
  }

  lemma ReplacedAdmitted(r: Reach, a: Value, q: seq<Text>, x: Value)
    requires AllAdmitted(r, a) && Follow(a, q).Some? && Alike(Follow(a, q).value, x) && !UnderNamed(r, q)
    ensures AllAdmitted(r, ReplaceAt(a, q, x))
  {
    var b := ReplaceAt(a, q, x);
    forall path: seq<Step> | path != [] && ValueAt(b, path).Some?
      ensures Admitted(r, ValueAt(b, path).value, PathTokens(path))
    {
      var ts := PathTokens(path);
      LocateTokens(b, ts, path);
      LocateValue(b, ts);
      FollowReplaced(a, q, x, ts);
      AdmittedAt(r, a, ts);
      if ts <= q { UnderPrefix(r, ts, q); }
    }
  }

  /** If the policy has an ambiguous place, then beside any arguments that pass there are others
      that pass and are not the same. */
  lemma AmbiguousAdmitsTwo(p: DecisionPolicy, facts: Option<Value>, a: Value, q: seq<Text>) returns (b: Value)
    requires p.closed && ValidReach(ReachOf(p)) && a.Obj? && InDomain(a) && Holds(p, facts, a)
    requires Ambiguous(ReachOf(p), q)
    ensures b.Obj? && InDomain(b) && Holds(p, facts, b) && !Same(a, b)
  {
    var r := ReachOf(p);
    WalkExact(r, a);
    HoldsResolve(p, facts, a);
    var n: nat :| n > 0 && IndicesOnly(r, q, n);
    assert GoesOn(r, q, Itoa(0));
    GoesOnInto(r, a, q, Itoa(0));
    var w := Follow(a, q).value;
    forall token ensures Into(w, token).Some? <==> exists i: nat :: i < n && token == Itoa(i) {
      TokensTaken(r, a, q, token);
    }
    var x := OtherKind(w, n);
    b := ReplaceAt(a, q, x);
    ReplacedHolds(p, facts, a, q, x);
    ReplacedAdmitted(r, a, q, x);
    ReplaceGood(a, q, x, MAX_NESTING);
    WalkExact(r, b);
    FollowReplaced(a, q, x, q);
    if Same(a, b) { SameFollow(a, b, q); }
  }

  /** Arguments that pass are the only ones on those facts. */
  ghost predicate Only(p: DecisionPolicy, facts: Option<Value>, a: Value) {
    forall b: Value :: b.Obj? && InDomain(b) && Holds(p, facts, b) ==> Same(a, b)
  }

  /** Exactly when: a closed policy that admits some arguments on the record's facts admits no
      others if and only if it has no ambiguous place. */
  lemma DeterminedExactly(p: DecisionPolicy, facts: Option<Value>, a: Value)
    requires p.closed && ValidReach(ReachOf(p)) && a.Obj? && InDomain(a) && Holds(p, facts, a)
    ensures Only(p, facts, a) <==> Unambiguous(ReachOf(p))
  {
    if Unambiguous(ReachOf(p)) {
      forall b: Value | b.Obj? && InDomain(b) && Holds(p, facts, b) ensures Same(a, b) {
        PolicyDetermines(p, facts, a, b);
      }
    } else {
      var q :| Ambiguous(ReachOf(p), q);
      var b := AmbiguousAdmitsTwo(p, facts, a, q);
    }
  }

  const X: Text := [0x78]

  /** Fix /x/0 to the number 1, close the policy, and shape nothing. */
  function UnshapedPolicy(): DecisionPolicy { DecisionPolicy([], [Fixed(Spell([X, Itoa(0)]), Canon(Int(1)))], [], true) }

  /** {"x": [1]}, and {"x": {"0": 1}}. */
  function WithArray(): Value { Obj([Named(X, Arr([Int(1)]))]) }

  function WithObject(): Value { Obj([Named(X, Obj([Named(Itoa(0), Int(1))]))]) }

  /** Such a policy takes both: two arguments that are not the same pass on the same record. */
  lemma TwoReadings()
    ensures var p := UnshapedPolicy();
      && p.closed && ValidReach(ReachOf(p)) && InDomain(WithArray()) && InDomain(WithObject())
      && Holds(p, None, WithArray()) && Holds(p, None, WithObject()) && !Same(WithArray(), WithObject())
  {
    var p, ts := UnshapedPolicy(), [X, Itoa(0)];
    var r := ReachOf(p);
    assert r.named == [Spell(ts)];
    SpellValid(ts);
    TokensOfSpell(ts);
    IndexSpelling(Itoa(0), 0);
    PassesHere(r, p, Arr([Int(1)]), ts);
    PassesHere(r, p, Obj([Named(Itoa(0), Int(1))]), ts);
    assert WithArray().members[0].value.Arr? && WithObject().members[0].value.Obj?;
    if Same(WithArray(), WithObject()) {
      SameFollow(WithArray(), WithObject(), [X]);
      XHolds(Arr([Int(1)]));
      XHolds(Obj([Named(Itoa(0), Int(1))]));
    }
  }

  lemma XHolds(w: Value)
    ensures Follow(Obj([Named(X, w)]), [X]) == Some(w)
  {
    assert [X][1..] == [];
  }

  /** A container that holds 1 under the token "0" and nothing else. */
  predicate OnlyOne(w: Value) { w == Arr([Int(1)]) || w == Obj([Named(Itoa(0), Int(1))]) }

  lemma OnlyOneTakes(w: Value, token: Text)
    requires OnlyOne(w)
    ensures Into(w, token) == if token == Itoa(0) then Some(Int(1)) else None
  {
    IndexSpelling(token, 0);
    if w.Obj? { assert w.members[1..] == [] && Get(w.members[1..], token).None?; }
  }

  lemma PassesHere(r: Reach, p: DecisionPolicy, w: Value, ts: seq<Text>)
    requires OnlyOne(w) && p == UnshapedPolicy() && r == ReachOf(p) && ts == [X, Itoa(0)]
    requires r.named == [Spell(ts)] && Tokens(r.named[0]) == ts && ValidReach(r)
    ensures Holds(p, None, Obj([Named(X, w)])) && InDomain(Obj([Named(X, w)]))
  {
    var a := Obj([Named(X, w)]);
    assert InDomain(a) by {
      var ms := [Named(Itoa(0), Int(1))];
      assert RoundTrip.Good(w, 1);
      Deeper(w, 1, MAX_NESTING - 1);
    }
    XHolds(w);
    OnlyOneTakes(w, Itoa(0));
    FollowOn(a, [X], Itoa(0));
    assert [X] + [Itoa(0)] == ts;
    assert FixHolds(p.fix[0], a);
    OnePlace(r, a, w, ts);
    WalkExact(r, a);
  }

  lemma OnePlace(r: Reach, a: Value, w: Value, ts: seq<Text>)
    requires ts == [X, Itoa(0)] && r.named == [Spell(ts)] && Tokens(r.named[0]) == ts && OnlyOne(w) && a == Obj([Named(X, w)])
    ensures AllAdmitted(r, a)
  {
    forall path: seq<Step> | path != [] && ValueAt(a, path).Some?
      ensures Admitted(r, ValueAt(a, path).value, PathTokens(path))
    {
      LocateTokens(a, PathTokens(path), path);
      LocateValue(a, PathTokens(path));
      PlaceAdmitted(r, a, w, ts, PathTokens(path));
    }
  }

  lemma PlaceAdmitted(r: Reach, a: Value, w: Value, ts: seq<Text>, at: seq<Text>)
    requires ts == [X, Itoa(0)] && r.named == [Spell(ts)] && Tokens(r.named[0]) == ts && OnlyOne(w) && a == Obj([Named(X, w)])
    requires at != [] && Follow(a, at).Some?
    ensures Admitted(r, Follow(a, at).value, at)
  {
    assert a.members[1..] == [] && Get(a.members[1..], at[0]).None?;
    assert at[0] == X;
    if |at| == 1 {
      assert at == [X] && [X] < Tokens(r.named[0]);
      XHolds(w);
    } else {
      assert Follow(w, at[1..]).Some? && at[1..][0] == at[1];
      OnlyOneTakes(w, at[1]);
      assert at[..2] == ts;
      assert Tokens(r.named[0]) <= at;
    }
  }
}
