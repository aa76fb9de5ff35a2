/** Runs of the proof memory: when a proof of possession can be accepted twice
    (go/delegation_credential.go). */
module ProofMemory {
  import opened Wrappers
  import opened Utf8
  import opened Credentials

  /** What touches the memory, in the order the lock is taken, each with the time it was given:
      binding a credential prunes, and a proof presented is checked. */
  datatype Event = Prune(t: int) | Present(jti: Text, iat: int, t: int)

  function Step(m: map<Text, int>, e: Event): map<Text, int> {
    match e
    case Prune(t) => Remembered(m, t)
    case Present(jti, iat, t) => AfterProof(m, jti, iat, t)
  }

  /** The memory after these events. */
  function Memory(es: seq<Event>): map<Text, int> {
    if es == [] then map[] else Step(Memory(es[..|es| - 1]), es[|es| - 1])
  }

  predicate AcceptedAt(es: seq<Event>, i: nat)
    requires i < |es|
  {
    es[i].Present? && Fresh(Memory(es[..i]), es[i].jti, es[i].iat, es[i].t)
  }

  /** The event prunes the memory: a proof outside the window is refused before it does. */
  predicate Prunes(e: Event) { e.Prune? || InWindow(e.iat, e.t) }

  lemma MemoryStep(es: seq<Event>, j: nat)
    requires j < |es|
    ensures Memory(es[..j + 1]) == Step(Memory(es[..j]), es[j])
  {
    assert es[..j + 1][..j] == es[..j];
  }

  /** An event between i and j pruned at a time past the proof's last moment. */
  ghost predicate Forgotten(es: seq<Event>, i: nat, j: nat, iat: int) {
    exists k :: i < k < j <= |es| && Prunes(es[k]) && es[k].t > iat + WINDOW
  }

  /** An accepted proof is remembered until an event prunes past its last moment. */
  lemma {:induction false} RememberedUntil(es: seq<Event>, i: nat, j: nat)
    requires i < j <= |es| && AcceptedAt(es, i)
    ensures var m := Memory(es[..j]);
      (es[i].jti in m && m[es[i].jti] == es[i].iat + WINDOW) || Forgotten(es, i, j, es[i].iat)
    decreases j - i
  {
    MemoryStep(es, j - 1);
    if i + 1 < j {
      RememberedUntil(es, i, j - 1);
      var m, e := Memory(es[..j - 1]), es[j - 1];
      if Forgotten(es, i, j - 1, es[i].iat) {
        var k :| i < k < j - 1 && Prunes(es[k]) && es[k].t > es[i].iat + WINDOW;
      } else if Prunes(e) {
        assert e.t <= es[i].iat + WINDOW <==> es[i].jti in Remembered(m, e.t);
      }
    }
  }

  lemma FreshUnknown(m: map<Text, int>, jti: Text, iat: int, t: int)
    requires Fresh(m, jti, iat, t)
    ensures !(jti in m && m[jti] == iat + WINDOW)
  {
    assert jti in m ==> !(t <= m[jti]);
  }

  /** A proof accepted twice needs a clock that went back: between the two, the memory was pruned
      at a later time than the second acceptance was given. */
  lemma ReplayNeedsEarlierClock(es: seq<Event>, i: nat, j: nat)
    requires i < j < |es| && AcceptedAt(es, i) && AcceptedAt(es, j)
    requires es[i].jti == es[j].jti && es[i].iat == es[j].iat
    ensures exists k :: i < k < j && Prunes(es[k]) && es[k].t > es[i].iat + WINDOW >= es[j].t
  {
    RememberedUntil(es, i, j);
    var m := Memory(es[..j]);
    FreshUnknown(m, es[j].jti, es[j].iat, es[j].t);
    var k :| i < k < j && Prunes(es[k]) && es[k].t > es[i].iat + WINDOW;
  }

  predicate NonDecreasing(es: seq<Event>) { forall i, j :: 0 <= i < j < |es| ==> es[i].t <= es[j].t }

  /** With times that never go back in the order of the lock, no proof is accepted twice. */
  lemma NoProofTwice(es: seq<Event>, i: nat, j: nat)
    requires NonDecreasing(es) && i < j < |es| && AcceptedAt(es, i) && AcceptedAt(es, j)
    ensures es[i].jti != es[j].jti || es[i].iat != es[j].iat
  {
    if es[i].jti == es[j].jti && es[i].iat == es[j].iat { ReplayNeedsEarlierClock(es, i, j); }
  }

  /** No event from k to below j accepts a proof of this identifier; one may be presented and refused. */
  predicate NoneAccepted(es: seq<Event>, k: nat, j: nat, jti: Text) {
    forall n :: k <= n < j <= |es| && AcceptedAt(es, n) ==> es[n].jti != jti
  }

  lemma RefusedAddsNothing(es: seq<Event>, n: nat, jti: Text)
    requires n < |es| && (AcceptedAt(es, n) ==> es[n].jti != jti)
    ensures var m, next := Memory(es[..n]), Memory(es[..n + 1]);
      jti in next ==> jti in m && next[jti] == m[jti] && (Prunes(es[n]) ==> es[n].t <= m[jti])
  {
    MemoryStep(es, n);
  }

  lemma {:induction false} StaysForgotten(es: seq<Event>, k: nat, j: nat, jti: Text)
    requires k <= j <= |es| && jti !in Memory(es[..k]) && NoneAccepted(es, k, j, jti)
    ensures jti !in Memory(es[..j])
    decreases j - k
  {
    if k < j {
      StaysForgotten(es, k, j - 1, jti);
      RefusedAddsNothing(es, j - 1, jti);
    }
  }

  /** Exactly when a proof is accepted again: its time is in the window, the memory has room, and
      the memory was pruned past the proof's last moment since, whatever was presented and refused
      in between. */
  lemma ReplayExactly(es: seq<Event>, i: nat, j: nat)
    requires i < j < |es| && AcceptedAt(es, i) && es[j].Present? && es[j].jti == es[i].jti && es[j].iat == es[i].iat
    requires NoneAccepted(es, i + 1, j, es[i].jti)
    ensures AcceptedAt(es, j) <==>
      && InWindow(es[j].iat, es[j].t) && |Remembered(Memory(es[..j]), es[j].t)| < MAX_PROOFS && Forgotten(es, i, j, es[i].iat)
  {
    if AcceptedAt(es, j) { ReplayNeedsEarlierClock(es, i, j); }
    if Forgotten(es, i, j, es[i].iat) { ForgottenIsGone(es, i, j); }
  }

  lemma ForgottenIsGone(es: seq<Event>, i: nat, j: nat)
    requires i < j <= |es| && AcceptedAt(es, i) && Forgotten(es, i, j, es[i].iat) && NoneAccepted(es, i + 1, j, es[i].jti)
    ensures es[i].jti !in Memory(es[..j])
  {
    var k :| i < k < j && Prunes(es[k]) && es[k].t > es[i].iat + WINDOW;
    LastMoment(es, i, k);
    RefusedAddsNothing(es, k, es[i].jti);
    StaysForgotten(es, k + 1, j, es[i].jti);
  }

  /** What the memory holds of an accepted proof's identifier, until one is accepted again, is its
      last moment. */
  lemma {:induction false} LastMoment(es: seq<Event>, i: nat, j: nat)
    requires i < j <= |es| && AcceptedAt(es, i) && NoneAccepted(es, i + 1, j, es[i].jti)
    ensures es[i].jti in Memory(es[..j]) ==> Memory(es[..j])[es[i].jti] == es[i].iat + WINDOW
    decreases j - i
  {
    if i + 1 < j {
      LastMoment(es, i, j - 1);
      RefusedAddsNothing(es, j - 1, es[i].jti);
    } else {
      MemoryStep(es, i);
    }
  }

  /** Times out of order do let a proof through twice. */
  lemma BackwardClockReplays(jti: Text) returns (es: seq<Event>)
    ensures |es| == 3 && es[0] == es[2] && AcceptedAt(es, 0) && AcceptedAt(es, 2)
  {
    es := [Present(jti, 0, 0), Prune(WINDOW + 1), Present(jti, 0, 0)];
    assert es[..0] == [];
    assert Remembered(map[], 0) == map[];
    MemoryStep(es, 0);
    MemoryStep(es, 1);
    assert Memory(es[..1]) == map[jti := WINDOW];
    assert Memory(es[..2]) == map[];
  }

  /** The memory never holds more proofs than its bound. */
  lemma {:induction false} MemoryBounded(es: seq<Event>)
    ensures |Memory(es)| <= MAX_PROOFS
  {
    if es != [] {
      var m, e := Memory(es[..|es| - 1]), es[|es| - 1];
      MemoryBounded(es[..|es| - 1]);
      FewerKeys(m, Remembered(m, e.t));
      if e.Present? { OneMoreKey(Remembered(m, e.t), e.jti, e.iat + WINDOW); }
    }
  }
}
