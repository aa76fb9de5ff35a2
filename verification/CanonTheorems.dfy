/** What canonical bytes decide: two values have the same bytes exactly when they are the same
    JSON value, whatever order their members were set in (go/canon.go). */
module CanonTheorems {
  import opened Wrappers
  import opened Utf8
  import opened Json
  import opened Parser
  import opened Sorting
  import opened RoundTrip

  lemma {:induction false} SameItemBytes(a: seq<Value>, b: seq<Value>)
    requires |a| == |b| && forall i :: 0 <= i < |a| ==> Canon(a[i]) == Canon(b[i])
    ensures CanonItems(a) == CanonItems(b)
  {
    if |a| > 1 { SameItemBytes(a[1..], b[1..]); }
  }

  lemma NamesKept(ms: seq<Named<Value>>)
    requires DistinctNames(ms)
    ensures DistinctNames(CanonMembers(ms)) && DistinctNames(NormalMembers(ms))
  {
    var ps, ns := CanonMembers(ms), NormalMembers(ms);
    forall i, j | 0 <= i < j < |ms| ensures ps[i].name != ps[j].name && ns[i].name != ns[j].name {
      assert ms[i].name != ms[j].name;
    }
  }

  /** Putting members in canonical order changes no byte. */
  lemma {:induction false} CanonNormal(v: Value)
    requires WellFormed(v)
    ensures Canon(Normal(v)) == Canon(v)
  {
    match v
    case Arr(items) =>
      forall i | 0 <= i < |items| ensures Canon(NormalItems(items)[i]) == Canon(items[i]) { CanonNormal(items[i]); }
      SameItemBytes(NormalItems(items), items);
    case Obj(ms) =>
      var ns := NormalMembers(ms);
      forall i | 0 <= i < |ms| ensures CanonMembers(ns)[i] == CanonMembers(ms)[i] { CanonNormal(ms[i].value); }
      assert CanonMembers(ns) == CanonMembers(ms);
      CanonMembersSorted(ns);
      NamesKept(ms);
      SortAscends(CanonMembers(ms));
      AscendingSorted(Sort(CanonMembers(ms)));
    case _ =>
  }

  /* ---------- The same value, and the same canonical order of it ---------- */

  lemma HoldsSame(ws: seq<Named<Value>>, m: Named<Value>, v: Value)
    requires m in ws && Same(v, m.value)
    ensures HasSame(ws, m.name, v)
  {
    var j :| 0 <= j < |ws| && ws[j] == m;
  }

  lemma {:induction false} NormalIsSame(v: Value)
    ensures Same(v, Normal(v))
  {
    match v
    case Arr(items) =>
      forall i | 0 <= i < |items| ensures Same(items[i], NormalItems(items)[i]) { NormalIsSame(items[i]); }
    case Obj(ms) =>
      var ns := NormalMembers(ms);
      SortMembers(ns);
      forall i | 0 <= i < |ms| ensures HasSame(Sort(ns), ms[i].name, ms[i].value) {
        NormalIsSame(ms[i].value);
        HoldsSame(Sort(ns), ns[i], ms[i].value);
      }
    case _ =>
  }

  lemma {:induction false} SameNormal(v: Value, w: Value)
    requires WellFormed(v) && WellFormed(w) && Same(v, w)
    ensures Normal(v) == Normal(w)
    decreases v
  {
    match v
    case Arr(items) =>
      forall i | 0 <= i < |items| ensures NormalItems(items)[i] == NormalItems(w.items)[i] {
        SameNormal(items[i], w.items[i]);
      }
    case Obj(ms) =>
      var ns, us := NormalMembers(ms), NormalMembers(w.members);
      forall i | 0 <= i < |ns| ensures ns[i] in us {
        assert HasSame(w.members, ms[i].name, ms[i].value);
        var j :| 0 <= j < |w.members| && w.members[j].name == ms[i].name && Same(ms[i].value, w.members[j].value);
        SameNormal(ms[i].value, w.members[j].value);
        assert us[j] == ns[i];
      }
      NamesKept(ms);
      NamesKept(w.members);
      SameSorted(ns, us);
    case _ =>
  }

  lemma SameSorted<T>(a: seq<Named<T>>, b: seq<Named<T>>)
    requires DistinctNames(a) && DistinctNames(b) && |a| == |b|
    requires forall i :: 0 <= i < |a| ==> a[i] in b
    ensures Sort(a) == Sort(b)
  {
    SortKeeps(a);
    SortKeeps(b);
    SortAscends(a);
    SortAscends(b);
    forall i | 0 <= i < |a| ensures Sort(a)[i] in Sort(b) {
      var m := Sort(a)[i];
      SortMember(a, m);
      assert m in b;
      SortMember(b, m);
    }
    AscendingWithin(Sort(a), Sort(b));
  }

  lemma {:induction false} NormalSame(v: Value, w: Value)
    requires Normal(v) == Normal(w)
    ensures Same(v, w)
    decreases v
  {
    match v
    case Arr(items) =>
      forall i | 0 <= i < |items| ensures Same(items[i], w.items[i]) {
        assert NormalItems(items)[i] == NormalItems(w.items)[i];
        NormalSame(items[i], w.items[i]);
      }
    case Obj(ms) =>
      var ns, us := NormalMembers(ms), NormalMembers(w.members);
      SortMembers(ns);
      SortMembers(us);
      forall i | 0 <= i < |ms| ensures HasSame(w.members, ms[i].name, ms[i].value) {
        SortMember(us, ns[i]);
        var j :| 0 <= j < |us| && us[j] == ns[i];
        NormalSame(ms[i].value, w.members[j].value);
        HoldsSame(w.members, w.members[j], ms[i].value);
      }
    case _ =>
  }

  /** Canonical bytes are the same exactly for the same value: no two different values share
      bytes, and the order members were set in never shows. */
  lemma CanonInjective(v: Value, w: Value)
    requires InDomain(v) && InDomain(w)
    ensures Canon(v) == Canon(w) <==> Same(v, w)
  {
    if Canon(v) == Canon(w) {
      CanonRoundTrip(v);
      CanonRoundTrip(w);
      NormalSame(v, w);
    }
    if Same(v, w) {
      SameNormal(v, w);
      CanonNormal(v);
      CanonNormal(w);
    }
  }

  /** What parsing a value's canonical bytes gives is that value. */
  lemma CanonReadsSame(v: Value)
    requires InDomain(v)
    ensures Document(JSON, Canon(v)).Ok? && Same(v, Document(JSON, Canon(v)).value)
  {
    CanonRoundTrip(v);
    NormalIsSame(v);
  }

  /** Members are written in strictly ascending code-point order, none lost and none added. */
  lemma MembersInCodePointOrder(ms: seq<Named<Value>>)
    requires WellFormed(Obj(ms))
    ensures Canon(Obj(ms)) == [LBRACE] + Join(CanonMembers(Sort(ms))) + [RBRACE]
    ensures Ascending(Sort(ms)) && multiset(Sort(ms)) == multiset(ms)
  {
    SortedForms(ms);
    SortAscends(ms);
    SortKeeps(ms);
  }
}
