/** Members sorted by name: a permutation in strict code-point order, and the only one. */
module Sorting {
  import opened Utf8
  import opened Json

  predicate Ascending<T>(ms: seq<Named<T>>) {
    forall i, j :: 0 <= i < j < |ms| ==> CodePointLess(ms[i].name, ms[j].name)
  }

  lemma {:induction false} InsertKeeps<T>(m: Named<T>, s: seq<Named<T>>)
    ensures multiset(Insert(m, s)) == multiset(s) + multiset{m}
  {
    if s != [] {
      assert s == [s[0]] + s[1..];
      if NameLess(s[0].name, m.name) { InsertKeeps(m, s[1..]); }
    }
  }

  lemma {:induction false} SortKeeps<T>(ms: seq<Named<T>>)
    ensures multiset(Sort(ms)) == multiset(ms)
    ensures |Sort(ms)| == |ms|
  {
    if ms != [] {
      assert ms == [ms[0]] + ms[1..];
      SortKeeps(ms[1..]);
      InsertKeeps(ms[0], Sort(ms[1..]));
    }
    assert |multiset(Sort(ms))| == |multiset(ms)|;
  }

  lemma SortMember<T>(ms: seq<Named<T>>, m: Named<T>)
    ensures m in Sort(ms) <==> m in ms
  {
    SortKeeps(ms);
    assert m in Sort(ms) <==> m in multiset(Sort(ms));
  }

  /** Each member of the sorted list is one of the list, and each of the list is in it. */
  lemma SortMembers<T>(ms: seq<Named<T>>)
    ensures |Sort(ms)| == |ms|
    ensures forall i :: 0 <= i < |ms| ==> Sort(ms)[i] in ms && ms[i] in Sort(ms)
  {
    SortKeeps(ms);
    forall i | 0 <= i < |ms| ensures Sort(ms)[i] in ms && ms[i] in Sort(ms) {
      SortMember(ms, Sort(ms)[i]);
      SortMember(ms, ms[i]);
    }
  }

  /** What holds of each member holds of each sorted, and the other way. */
  lemma SortEach<T>(ms: seq<Named<T>>, p: Named<T> -> bool)
    ensures (forall i :: 0 <= i < |ms| ==> p(ms[i])) <==> (forall i :: 0 <= i < |Sort(ms)| ==> p(Sort(ms)[i]))
  {
    SortMembers(ms);
    if forall i :: 0 <= i < |ms| ==> p(ms[i]) {
      forall i | 0 <= i < |Sort(ms)| ensures p(Sort(ms)[i]) { assert Sort(ms)[i] in ms; }
    }
    if forall i :: 0 <= i < |Sort(ms)| ==> p(Sort(ms)[i]) {
      forall i | 0 <= i < |ms| ensures p(ms[i]) { assert ms[i] in Sort(ms); }
    }
  }

  lemma {:induction false} InsertAscends<T>(m: Named<T>, s: seq<Named<T>>)
    requires Ascending(s)
    requires forall i :: 0 <= i < |s| ==> s[i].name != m.name
    ensures Ascending(Insert(m, s))
  {
    if s != [] {
      ByteOrderIsCodePointOrder(s[0].name, m.name);
      var r := Insert(m, s);
      if NameLess(s[0].name, m.name) {
        var rest := Insert(m, s[1..]);
        InsertAscends(m, s[1..]);
        InsertKeeps(m, s[1..]);
        forall j | 0 < j < |r| ensures CodePointLess(r[0].name, r[j].name) {
          assert r[j] in multiset(rest);
          assert r[j] == m || r[j] in s[1..];
        }
        assert forall i :: 0 < i < |r| ==> r[i] == rest[i - 1];
      } else {
        LessTotal(m.name, s[0].name);
        forall j | 0 < j < |r| ensures CodePointLess(m.name, r[j].name) {
          if j > 1 { LessTransitive(m.name, s[0].name, s[j - 1].name); }
        }
      }
    }
  }

  lemma {:induction false} SortAscends<T>(ms: seq<Named<T>>)
    requires DistinctNames(ms)
    ensures Ascending(Sort(ms))
  {
    if ms != [] {
      var rest := Sort(ms[1..]);
      SortAscends(ms[1..]);
      SortMembers(ms[1..]);
      forall i | 0 <= i < |rest| ensures rest[i].name != ms[0].name {
        assert rest[i] in ms[1..];
      }
      InsertAscends(ms[0], rest);
    }
  }

  lemma LessDiffers(a: Text, b: Text)
    requires CodePointLess(a, b)
    ensures a != b
  {
    LessAsymmetric(a, b);
  }

  lemma AscendingDistinct<T>(ms: seq<Named<T>>)
    requires Ascending(ms)
    ensures DistinctNames(ms)
  {
    forall i, j | 0 <= i < j < |ms| ensures ms[i].name != ms[j].name {
      LessDiffers(ms[i].name, ms[j].name);
    }
  }

  lemma Later<T>(a: seq<Named<T>>, b: seq<Named<T>>, j: nat, i: nat)
    requires Ascending(a) && Ascending(b) && 0 < i < |a| && a[i] in b && j < |b| && b[j] == a[0]
    ensures a[i] in b[j + 1..]
  {
    var k :| 0 <= k < |b| && b[k] == a[i];
    LessAsymmetric(a[0].name, a[i].name);
    assert k > j;
    assert b[j + 1..][k - j - 1] == a[i];
  }

  lemma SameFirst<T>(a: seq<Named<T>>, b: seq<Named<T>>)
    requires a != [] && b != [] && a[0] == b[0] && a[1..] == b[1..]
    ensures a == b
  {
    assert a == [a[0]] + a[1..] && b == [b[0]] + b[1..];
  }

  /** Of two ascending lists of one length, one within the other, there is only one. */
  lemma {:induction false} AscendingWithin<T>(a: seq<Named<T>>, b: seq<Named<T>>)
    requires Ascending(a) && Ascending(b)
    requires forall i :: 0 <= i < |a| ==> a[i] in b
    ensures |a| <= |b|
    ensures |a| == |b| ==> a == b
  {
    if a != [] {
      assert a[0] in b;
      var j :| 0 <= j < |b| && b[j] == a[0];
      var rest := b[j + 1..];
      forall i | 0 < i < |a| ensures a[i] in rest { Later(a, b, j, i); }
      AscendingWithin(a[1..], rest);
      if |a| == |b| { SameFirst(a, b); }
    }
  }

  lemma AscendingSorted<T>(ms: seq<Named<T>>)
    requires Ascending(ms)
    ensures Sort(ms) == ms
  {
    AscendingDistinct(ms);
    SortAscends(ms);
    SortMembers(ms);
    AscendingWithin(Sort(ms), ms);
  }

  /* ---------- Sorting commutes with a change of the values ---------- */

  predicate Mapped<T, U(==)>(f: T -> U, a: seq<Named<T>>, b: seq<Named<U>>) {
    |a| == |b| && forall i :: 0 <= i < |a| ==> b[i] == Named(a[i].name, f(a[i].value))
  }

  lemma {:induction false} InsertMapped<T, U>(f: T -> U, m: Named<T>, a: seq<Named<T>>, b: seq<Named<U>>)
    requires Mapped(f, a, b)
    ensures Mapped(f, Insert(m, a), Insert(Named(m.name, f(m.value)), b))
  {
    if a != [] && NameLess(a[0].name, m.name) { InsertMapped(f, m, a[1..], b[1..]); }
  }

  lemma {:induction false} SortMapped<T, U>(f: T -> U, a: seq<Named<T>>, b: seq<Named<U>>)
    requires Mapped(f, a, b)
    ensures Mapped(f, Sort(a), Sort(b))
  {
    if a != [] {
      SortMapped(f, a[1..], b[1..]);
      InsertMapped(f, a[0], Sort(a[1..]), Sort(b[1..]));
    }
  }

  lemma CanonMembersSorted(ms: seq<Named<Value>>)
    ensures Sort(CanonMembers(ms)) == CanonMembers(Sort(ms))
  {
    SortMapped(Canon, ms, CanonMembers(ms));
  }

  lemma NormalMembersSorted(ms: seq<Named<Value>>)
    ensures Sort(NormalMembers(ms)) == NormalMembers(Sort(ms))
  {
    SortMapped(Normal, ms, NormalMembers(ms));
  }
}
