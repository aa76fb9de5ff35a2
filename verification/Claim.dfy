/** An opened reservation and its looping operations (go/action_journal.go): attempt, closed,
    claimDispatchUnder, closeDispatch and releaseDispatch as one process runs them, and the proof
    that the step machine of Journal does the same when nobody else steps in between. */
module Claim {
  import opened Wrappers
  import opened Journal

  datatype AttemptAnswer = Free(n: nat) | Begun(n: nat) | ClosedAt(n: nat) | TooMany

  /** The dispatch state, from attempt n on. */
  function AttemptFrom(e: Reservation, n: nat): AttemptAnswer
    decreases ATTEMPTS + 1 - n
  {
    if n > ATTEMPTS then TooMany
    else if n !in e.markers then Free(n)
    else if Closes(e, n) then ClosedAt(n)
    else if n in e.answers && e.answers[n].whole then AttemptFrom(e, n + 1)
    else Begun(n)
  }

  /** Attempt m was dispatched, and is known never to have been sent. */
  predicate Answered(e: Reservation, m: nat) {
    m in e.markers && !Closes(e, m) && m in e.answers && e.answers[m].whole
  }

  /** An attempt is free exactly when it is the first without a marker and a complete answer
      stands beside every marker below it; what is said otherwise is the first that is not so. */
  lemma {:induction false} AttemptMeans(e: Reservation, n: nat)
    requires n <= ATTEMPTS + 1
    ensures var a := AttemptFrom(e, n);
      && (a.TooMany? <==> forall m :: n <= m <= ATTEMPTS ==> Answered(e, m))
      && (!a.TooMany? ==> n <= a.n <= ATTEMPTS && !Answered(e, a.n) && forall m :: n <= m < a.n ==> Answered(e, m))
      && (a.Free? ==> a.n !in e.markers) && (a.ClosedAt? ==> Closes(e, a.n)) && (a.Begun? ==> a.n in e.markers && !Closes(e, a.n))
    decreases ATTEMPTS + 1 - n
  {
    if n <= ATTEMPTS && Answered(e, n) { AttemptMeans(e, n + 1); }
  }

  ghost predicate AnyClose(e: Reservation) { exists n :: 1 <= n <= ATTEMPTS && Closes(e, n) }

  datatype Took = Taken | AlreadyClosed | AlreadyClaimed

  /** What a marker found at the name says. */
  function Existing(e: Reservation, n: nat): Took { if Closes(e, n) then AlreadyClosed else AlreadyClaimed }

  /** No marker stands above attempt n. */
  predicate NoneAbove(e: Reservation, n: nat) { forall m :: n < m <= ATTEMPTS ==> m !in e.markers }

  function ClaimAnswer(e: Reservation, n: nat): Took { if n in e.markers then Existing(e, n) else Taken }

  /** The reservation with attempt n claimed, and the claim durable. */
  function Claimed(e: Reservation, id: RequestId, n: nat): Reservation {
    if n in e.markers then e else SyncNames(e.(markers := e.markers[n := Marker(Dispatch, id, true, false)]))
  }

  function CloseAnswer(e: Reservation, n: nat): Took { if !NoneAbove(e, n) then AlreadyClaimed else ClaimAnswer(e, n) }

  /** The reservation with the key closed at attempt n, and the close durable. */
  function KeyClosedAt(e: Reservation, id: RequestId, n: nat): Reservation {
    if n in e.markers || !NoneAbove(e, n) then e else SyncNames(e.(markers := e.markers[n := Marker(Close, id, true, false)]))
  }

  /** The reservation with attempt n answered as never dispatched, and the answer durable. */
  function Released(e: Reservation, n: nat): Reservation {
    if n in e.answers then e else SyncNames(e.(answers := e.answers[n := Answer(true, true, false)]))
  }

  /* What the three mean for whoever opens the reservation next. */

  lemma {:induction false} SameAttempt(e: Reservation, e': Reservation, m: nat, n: nat)
    requires 1 <= m <= n && (forall a :: m <= a < n ==> (Answered(e', a) <==> Answered(e, a))) && (forall a :: m <= a < n ==> Answered(e, a))
    requires n <= ATTEMPTS + 1
    ensures AttemptFrom(e', m) == AttemptFrom(e', n) && AttemptFrom(e, m) == AttemptFrom(e, n)
    decreases n - m
  {
    if m < n {
      assert Answered(e, m) && Answered(e', m);
      SameAttempt(e, e', m + 1, n);
    }
  }

  /** A claim of the free attempt makes it begun, and no later request finds it or another free
      until it is answered. */
  lemma ClaimBegins(e: Reservation, id: RequestId, n: nat)
    requires AttemptFrom(e, 1) == Free(n) && n !in e.answers
    ensures AttemptFrom(Claimed(e, id, n), 1) == Begun(n)
  {
    AttemptMeans(e, 1);
    SameAttempt(e, Claimed(e, id, n), 1, n);
  }

  /** A close of the free attempt is what every later request finds, at that attempt. */
  lemma CloseIsFound(e: Reservation, id: RequestId, n: nat)
    requires AttemptFrom(e, 1) == Free(n) && NoneAbove(e, n)
    ensures AttemptFrom(KeyClosedAt(e, id, n), 1) == ClosedAt(n) && AnyClose(KeyClosedAt(e, id, n))
  {
    AttemptMeans(e, 1);
    SameAttempt(e, KeyClosedAt(e, id, n), 1, n);
    assert Closes(KeyClosedAt(e, id, n), n);
  }

  /** Releasing a claimed attempt frees the next one, or says there are no more: nothing else of the
      reservation's dispatch state changes. */
  lemma ReleaseFrees(e: Reservation, id: RequestId, n: nat)
    requires AttemptFrom(e, 1) == Free(n) && n !in e.answers && NoneAbove(e, n)
    ensures AttemptFrom(Released(Claimed(e, id, n), n), 1) == if n < ATTEMPTS then Free(n + 1) else TooMany
  {
    AttemptMeans(e, 1);
    var e' := Released(Claimed(e, id, n), n);
    SameAttempt(e, e', 1, n);
    assert Answered(e', n) && AttemptFrom(e', n) == AttemptFrom(e', n + 1);
  }

  class ActionClaim {
    const id: RequestId
    var held: Reservation

    constructor (id: RequestId, held: Reservation)
      ensures this.id == id && this.held == held
    {
      this.id, this.held := id, held;
    }

    method Attempt() returns (a: AttemptAnswer)
      ensures a == AttemptFrom(held, 1)
    {
      var n := 1;
      while n <= ATTEMPTS
        invariant 1 <= n <= ATTEMPTS + 1 && AttemptFrom(held, 1) == AttemptFrom(held, n)
      {
        if n !in held.markers { return Free(n); }
        if Closes(held, n) { return ClosedAt(n); }
        if !(n in held.answers && held.answers[n].whole) { return Begun(n); }
        n := n + 1;
      }
      return TooMany;
    }

    method IsClosed() returns (closed: bool)
      ensures closed <==> AnyClose(held)
    {
      for n := 1 to ATTEMPTS + 1
        invariant forall m :: 1 <= m < n ==> !Closes(held, m)
      {
        if Closes(held, n) { return true; }
      }
      return false;
    }

    /** claimDispatchUnder: under a delegation the marker appears whole, otherwise its bytes are
        written and synced after its name is taken. */
    method ClaimDispatch(n: nat, delegated: bool) returns (r: Took)
      modifies this
      ensures r == ClaimAnswer(old(held), n) && held == Claimed(old(held), id, n)
      ensures AttemptFrom(old(held), 1) == Free(n) && n !in old(held.answers) ==> AttemptFrom(held, 1) == Begun(n)
    {
      AttemptMeans(held, 1);
      if n in held.markers { return Existing(held, n); }
      ghost var before := held;
      if AttemptFrom(held, 1) == Free(n) && n !in held.answers { ClaimBegins(held, id, n); }
      if delegated {
        held := held.(markers := held.markers[n := Marker(Dispatch, id, true, false)]);
      } else {
        held := held.(markers := held.markers[n := Marker(Torn, id, false, false)]);
        held := held.(markers := held.markers[n := held.markers[n].(kind := Dispatch)]);
        held := held.(markers := held.markers[n := held.markers[n].(bytesSynced := true)]);
        assert held.markers == before.markers[n := Marker(Dispatch, id, true, false)];
      }
      held := SyncNames(held);
      return Taken;
    }

    /** closeDispatch: the key closes at attempt n, unless a marker there or above says a dispatch may
        have begun. */
    method CloseDispatch(n: nat) returns (r: Took)
      modifies this
      ensures r == CloseAnswer(old(held), n) && held == KeyClosedAt(old(held), id, n)
      ensures AttemptFrom(old(held), 1) == Free(n) && r.Taken? ==> AttemptFrom(held, 1) == ClosedAt(n)
    {
      var later := n + 1;
      while later <= ATTEMPTS
        invariant forall m :: n < m < later ==> m !in held.markers
        invariant held == old(held)
      {
        if later in held.markers { return AlreadyClaimed; }
        later := later + 1;
      }
      if n in held.markers { return Existing(held, n); }
      if AttemptFrom(held, 1) == Free(n) { CloseIsFound(held, id, n); }
      held := held.(markers := held.markers[n := Marker(Close, id, true, false)]);
      held := SyncNames(held);
      return Taken;
    }

    /** releaseDispatch: the attempt's program never started. */
    method ReleaseDispatch(n: nat) returns (ok: bool)
      modifies this
      ensures ok == (n !in old(held.answers)) && held == Released(old(held), n)
      ensures ok && AttemptFrom(old(held), 1) == Begun(n) ==> AttemptFrom(held, 1) == AttemptFrom(old(held), n + 1)
    {
      if n in held.answers { return false; }
      ghost var before := held;
      held := held.(answers := held.answers[n := Answer(false, false, false)]);
      held := held.(answers := held.answers[n := held.answers[n].(whole := true)]);
      held := held.(answers := held.answers[n := held.answers[n].(bytesSynced := true)]);
      assert held.answers == before.answers[n := Answer(true, true, false)];
      held := SyncNames(held);
      if AttemptFrom(before, 1) == Begun(n) { ReleasePasses(before, n); }
      return true;
    }
  }

  /** After the answer the state is what the attempts above say. */
  lemma ReleasePasses(e: Reservation, n: nat)
    requires AttemptFrom(e, 1) == Begun(n) && n !in e.answers
    ensures AttemptFrom(Released(e, n), 1) == AttemptFrom(e, n + 1)
  {
    AttemptMeans(e, 1);
    var e' := Released(e, n);
    SameAttempt(e, e', 1, n);
    assert Answered(e', n);
    SameAbove(e, n, n + 1);
  }

  lemma {:induction false} SameAbove(e: Reservation, n: nat, m: nat)
    requires n < m && n !in e.answers
    ensures AttemptFrom(Released(e, n), m) == AttemptFrom(e, m)
    decreases ATTEMPTS + 1 - m
  {
    if m <= ATTEMPTS { SameAbove(e, n, m + 1); }
  }

  /* ---------- The step machine, undisturbed ---------- */

  /** k steps of one request while no other moves. */
  function Alone(sh: Shared, id: RequestId, r: Request, c: Choice, k: nat): (Shared, Request)
    decreases k
  {
    if k == 0 then (sh, r) else var out := Act(sh, id, r, c); Alone(out.0, id, out.1, c, k - 1)
  }

  /** k steps alone lead to this store and request; stated over a range of one number, so that a proof
      that only passes such facts on does not take the steps again. */
  ghost predicate Leads(sh: Shared, id: RequestId, r: Request, k: nat, out: (Shared, Request)) {
    forall j :: k <= j <= k ==> Alone(sh, id, r, Well, j) == out
  }

  lemma NoStep(sh: Shared, id: RequestId, r: Request)
    ensures Leads(sh, id, r, 0, (sh, r))
  {
  }

  lemma OneStep(sh: Shared, id: RequestId, r: Request, sh1: Shared, r1: Request, k: nat, out: (Shared, Request))
    requires Act(sh, id, r, Well) == (sh1, r1) && Leads(sh1, id, r1, k, out)
    ensures Leads(sh, id, r, k + 1, out)
  {
    assert Alone(sh1, id, r1, Well, k) == out;
  }

  /** What the request does next with the answer of attempt(). */
  function Decided(r: Request, a: AttemptAnswer): Request {
    match a
    case TooMany => r.At(Done(Exhausted))
    case ClosedAt(n) => ClosedKey(r.At(Attempting(ReadMarker, n)))
    case Begun(_) => r.At(Rescanning(1))
    case Free(n) =>
      if r.foreign then r.At(Done(ScopeConflict))
      else if r.sender.Other? then r.At(Done(ActorOnly))
      else if r.reconcile then r.At(Closing(LookLater(n + 1), n))
      else r.At(Claiming(CreateMarker, n))
  }

  lemma LookStep(sh: Shared, id: RequestId, r: Request, k: nat, out: (Shared, Request))
    requires r.scope in sh.entries && r.pc.Attempting? && Leads(sh, id, ActAttempt(sh.entries[r.scope], r), k, out)
    ensures Leads(sh, id, r, k + 1, out)
  {
    OneStep(sh, id, r, sh, ActAttempt(sh.entries[r.scope], r), k, out);
  }

  lemma PastAnswered(sh: Shared, id: RequestId, r: Request, n: nat, k: nat, out: (Shared, Request))
    requires r.scope in sh.entries && r.pc == Attempting(LookMarker, n) && n <= ATTEMPTS && Answered(sh.entries[r.scope], n)
    requires Leads(sh, id, r.At(Attempting(LookMarker, n + 1)), k, out)
    ensures Leads(sh, id, r, k + 3, out)
  {
    LookStep(sh, id, r.At(Attempting(ReadAnswer, n)), k, out);
    LookStep(sh, id, r.At(Attempting(ReadMarker, n)), k + 1, out);
    LookStep(sh, id, r, k + 2, out);
  }

  lemma Decides(sh: Shared, id: RequestId, r: Request, n: nat, out: (Shared, Request)) returns (k: nat)
    requires r.scope in sh.entries && r.pc == Attempting(LookMarker, n) && n <= ATTEMPTS + 1
    requires n <= ATTEMPTS ==> !Answered(sh.entries[r.scope], n)
    requires out == (sh, Decided(r, AttemptFrom(sh.entries[r.scope], n)))
    ensures Leads(sh, id, r, k, out)
  {
    var e := sh.entries[r.scope];
    NoStep(sh, id, out.1);
    if n > ATTEMPTS || n !in e.markers {
      LookStep(sh, id, r, 0, out);
      k := 1;
    } else {
      var j := DecidesMarked(sh, id, r, n, out);
      LookStep(sh, id, r, j, out);
      k := j + 1;
    }
  }

  lemma DecidesMarked(sh: Shared, id: RequestId, r: Request, n: nat, out: (Shared, Request)) returns (k: nat)
    requires r.scope in sh.entries && n <= ATTEMPTS && n in sh.entries[r.scope].markers && !Answered(sh.entries[r.scope], n)
    requires out == (sh, Decided(r, AttemptFrom(sh.entries[r.scope], n))) && Leads(sh, id, out.1, 0, out)
    ensures Leads(sh, id, r.At(Attempting(ReadMarker, n)), k, out)
  {
    if Closes(sh.entries[r.scope], n) {
      k := 1;
    } else {
      LookStep(sh, id, r.At(Attempting(ReadAnswer, n)), 0, out);
      k := 2;
    }
    LookStep(sh, id, r.At(Attempting(ReadMarker, n)), k - 1, out);
  }

  lemma DecidedSame(r: Request, r1: Request, a: AttemptAnswer)
    requires r1 == r.At(r1.pc)
    ensures Decided(r1, a) == Decided(r, a)
  {
  }

  /** Undisturbed, the machine's steps through the attempts are attempt(). */
  lemma {:induction false} AttemptAlone(sh: Shared, id: RequestId, r: Request, n: nat, out: (Shared, Request)) returns (k: nat)
    requires r.scope in sh.entries && r.pc == Attempting(LookMarker, n) && n <= ATTEMPTS + 1
    requires out == (sh, Decided(r, AttemptFrom(sh.entries[r.scope], n)))
    ensures Leads(sh, id, r, k, out)
    decreases ATTEMPTS + 1 - n
  {
    if n <= ATTEMPTS && Answered(sh.entries[r.scope], n) {
      var r1 := r.At(Attempting(LookMarker, n + 1));
      DecidedSame(r, r1, AttemptFrom(sh.entries[r.scope], n));
      k := AttemptAlone(sh, id, r1, n + 1, out);
      PastAnswered(sh, id, r, n, k, out);
      k := k + 3;
    } else {
      k := Decides(sh, id, r, n, out);
    }
  }

  /** What the request does next with the answer of closed(), looked for from attempt n on. */
  function Rescanned(e: Reservation, r: Request, n: nat): Request
    decreases ATTEMPTS + 1 - n
  {
    if n > ATTEMPTS then r.At(Recording(LinkAction, Uncertain))
    else if Closes(e, n) then ClosedKey(r.At(Rescanning(n)))
    else Rescanned(e, r, n + 1)
  }

  lemma RescanStep(sh: Shared, id: RequestId, r: Request, k: nat, out: (Shared, Request))
    requires r.scope in sh.entries && r.pc.Rescanning? && Leads(sh, id, ActRescan(sh.entries[r.scope], r), k, out)
    ensures Leads(sh, id, r, k + 1, out)
  {
    OneStep(sh, id, r, sh, ActRescan(sh.entries[r.scope], r), k, out);
  }

  /** Undisturbed, the rescan before recording uncertainty is closed(). */
  lemma {:induction false} RescanAlone(sh: Shared, id: RequestId, r: Request, n: nat, out: (Shared, Request)) returns (k: nat)
    requires r.scope in sh.entries && r.pc == Rescanning(n) && 1 <= n <= ATTEMPTS
    requires out == (sh, Rescanned(sh.entries[r.scope], r, n))
    ensures Leads(sh, id, r, k, out)
    decreases ATTEMPTS - n
  {
    var e := sh.entries[r.scope];
    var r1 := ActRescan(e, r);
    if !Closes(e, n) && n < ATTEMPTS {
      RescannedSame(e, r, r1, n + 1);
      k := RescanAlone(sh, id, r1, n + 1, out);
    } else {
      NoStep(sh, id, r1);
      k := 0;
    }
    RescanStep(sh, id, r, k, out);
    k := k + 1;
  }

  lemma {:induction false} RescannedSame(e: Reservation, r: Request, r1: Request, n: nat)
    requires r1 == r.At(r1.pc)
    ensures Rescanned(e, r1, n) == Rescanned(e, r, n)
    decreases ATTEMPTS + 1 - n
  {
    if n <= ATTEMPTS { RescannedSame(e, r, r1, n + 1); }
  }

  /** The rescan finds the key closed exactly when a close stands among the attempts. */
  lemma {:induction false} RescannedMeans(e: Reservation, r: Request, n: nat)
    requires n <= ATTEMPTS + 1
    ensures if exists m :: n <= m <= ATTEMPTS && Closes(e, m)
      then exists m :: n <= m <= ATTEMPTS && Closes(e, m) && Rescanned(e, r, n) == ClosedKey(r.At(Rescanning(m)))
      else Rescanned(e, r, n) == r.At(Recording(LinkAction, Uncertain))
    decreases ATTEMPTS + 1 - n
  {
    if n <= ATTEMPTS && !Closes(e, n) { RescannedMeans(e, r, n + 1); }
  }

  /** The machine's store with this reservation in place of the request's own. */
  function With(sh: Shared, r: Request, e: Reservation): Shared { Put(sh, r.scope, e) }

  /* One step of each operation, on the request's own reservation. */

  lemma ClosingStep(sh: Shared, id: RequestId, r: Request, e: Reservation, e1: Reservation, r1: Request, k: nat, out: (Shared, Request))
    requires r.pc.Closing? && ActClose(With(sh, r, e), id, r) == (With(sh, r, e1), r1) && Leads(With(sh, r, e1), id, r1, k, out)
    ensures Leads(With(sh, r, e), id, r, k + 1, out)
  {
    OneStep(With(sh, r, e), id, r, With(sh, r, e1), r1, k, out);
  }

  lemma ClaimingStep(sh: Shared, id: RequestId, r: Request, e: Reservation, e1: Reservation, r1: Request, k: nat, out: (Shared, Request))
    requires r.pc.Claiming? && ActClaim(With(sh, r, e), id, r, Well) == (With(sh, r, e1), r1) && Leads(With(sh, r, e1), id, r1, k, out)
    ensures Leads(With(sh, r, e), id, r, k + 1, out)
  {
    OneStep(With(sh, r, e), id, r, With(sh, r, e1), r1, k, out);
  }

  lemma ReleasingStep(sh: Shared, id: RequestId, r: Request, e: Reservation, e1: Reservation, r1: Request, k: nat, out: (Shared, Request))
    requires r.pc.Releasing? && ActRelease(With(sh, r, e), r, Well) == (With(sh, r, e1), r1) && Leads(With(sh, r, e1), id, r1, k, out)
    ensures Leads(With(sh, r, e), id, r, k + 1, out)
  {
    OneStep(With(sh, r, e), id, r, With(sh, r, e1), r1, k, out);
  }

  /** A write to a reservation's markers or answers, in the store. */
  lemma MarkerWritten(sh: Shared, r: Request, e: Reservation, n: nat, m: Marker)
    ensures SetMarker(With(sh, r, e), r.scope, n, m) == With(sh, r, e.(markers := e.markers[n := m]))
    ensures SyncEntryDir(With(sh, r, e), r.scope) == With(sh, r, SyncNames(e))
  {
  }

  lemma AnswerWritten(sh: Shared, r: Request, e: Reservation, n: nat, a: Answer)
    ensures SetAnswer(With(sh, r, e), r.scope, n, a) == With(sh, r, e.(answers := e.answers[n := a]))
    ensures SyncEntryDir(With(sh, r, e), r.scope) == With(sh, r, SyncNames(e))
  {
  }

  /** What a request does with a name it found taken. */
  function FoundTaken(e: Reservation, r: Request, n: nat): Request {
    if Closes(e, n) then ClosedKey(r.At(ReadTaken(n))) else r.At(Rescanning(1))
  }

  lemma TakenAlone(sh: Shared, id: RequestId, r: Request, e: Reservation, n: nat)
    ensures Leads(With(sh, r, e), id, r.At(ReadTaken(n)), 1, (With(sh, r, e), FoundTaken(e, r, n)))
  {
    NoStep(With(sh, r, e), id, FoundTaken(e, r, n));
    OneStep(With(sh, r, e), id, r.At(ReadTaken(n)), With(sh, r, e), FoundTaken(e, r, n), 0, (With(sh, r, e), FoundTaken(e, r, n)));
  }

  /** What the request does next with the answer of closeDispatch. */
  function AfterClose(e: Reservation, r: Request, n: nat): Request {
    if !NoneAbove(e, n) then r.At(Rescanning(1))
    else if n in e.markers then FoundTaken(e, r, n)
    else ClosedKey(r.At(Closing(SyncClose, n)))
  }

  lemma LinkAlone(sh: Shared, id: RequestId, r: Request, e: Reservation, n: nat)
    requires r.pc == Closing(LinkClose, n) && NoneAbove(e, n)
    ensures Leads(With(sh, r, e), id, r, 2, (With(sh, r, KeyClosedAt(e, id, n)), AfterClose(e, r, n)))
  {
    var out := (With(sh, r, KeyClosedAt(e, id, n)), AfterClose(e, r, n));
    if n in e.markers {
      TakenAlone(sh, id, r, e, n);
      ClosingStep(sh, id, r, e, e, r.At(ReadTaken(n)), 1, out);
    } else {
      var close := Marker(Close, id, true, false);
      var e1, r1 := e.(markers := e.markers[n := close]), r.At(Closing(SyncClose, n));
      MarkerWritten(sh, r, e, n, close);
      MarkerWritten(sh, r, e1, n, close);
      NoStep(With(sh, r, SyncNames(e1)), id, ClosedKey(r1));
      ClosingStep(sh, id, r1, e1, SyncNames(e1), ClosedKey(r1), 0, out);
      ClosingStep(sh, id, r, e, e1, r1, 1, out);
    }
  }

  /** Undisturbed, the machine's steps of a close are closeDispatch, on every path: a marker above,
      a name taken, or the close made and synced. */
  lemma {:induction false} CloseAlone(sh: Shared, id: RequestId, r: Request, e: Reservation, n: nat, later: nat, out: (Shared, Request))
    returns (k: nat)
    requires r.pc == Closing(LookLater(later), n) && n < later <= ATTEMPTS + 1
    requires forall m :: n < m < later ==> m !in e.markers
    requires out == (With(sh, r, KeyClosedAt(e, id, n)), AfterClose(e, r, n))
    ensures Leads(With(sh, r, e), id, r, k, out)
    decreases ATTEMPTS + 1 - later
  {
    if later > ATTEMPTS {
      LinkAlone(sh, id, r.At(Closing(LinkClose, n)), e, n);
      LookedAll(sh, id, r, e, n, later, 2, out);
      k := 3;
    } else if later in e.markers {
      LookBlocked(sh, id, r, e, n, later);
      k := 1;
    } else {
      k := CloseAlone(sh, id, r.At(Closing(LookLater(later + 1), n)), e, n, later + 1, out);
      LookOn(sh, id, r, e, n, later, k, out);
      k := k + 1;
    }
  }

  lemma LookedAll(sh: Shared, id: RequestId, r: Request, e: Reservation, n: nat, later: nat, k: nat, out: (Shared, Request))
    requires r.pc == Closing(LookLater(later), n) && later > ATTEMPTS && Leads(With(sh, r, e), id, r.At(Closing(LinkClose, n)), k, out)
    ensures Leads(With(sh, r, e), id, r, k + 1, out)
  {
    ClosingStep(sh, id, r, e, e, r.At(Closing(LinkClose, n)), k, out);
  }

  lemma LookBlocked(sh: Shared, id: RequestId, r: Request, e: Reservation, n: nat, later: nat)
    requires r.pc == Closing(LookLater(later), n) && later <= ATTEMPTS && later in e.markers
    ensures Leads(With(sh, r, e), id, r, 1, (With(sh, r, e), r.At(Rescanning(1))))
  {
    NoStep(With(sh, r, e), id, r.At(Rescanning(1)));
    ClosingStep(sh, id, r, e, e, r.At(Rescanning(1)), 0, (With(sh, r, e), r.At(Rescanning(1))));
  }

  lemma LookOn(sh: Shared, id: RequestId, r: Request, e: Reservation, n: nat, later: nat, k: nat, out: (Shared, Request))
    requires r.pc == Closing(LookLater(later), n) && later <= ATTEMPTS && later !in e.markers
    requires Leads(With(sh, r, e), id, r.At(Closing(LookLater(later + 1), n)), k, out)
    ensures Leads(With(sh, r, e), id, r, k + 1, out)
  {
    ClosingStep(sh, id, r, e, e, r.At(Closing(LookLater(later + 1), n)), k, out);
  }

  /** What the request does next with the answer of claimDispatchUnder. */
  function AfterClaim(e: Reservation, r: Request, n: nat): Request {
    if n in e.markers then FoundTaken(e, r, n) else r.At(Claiming(RunSource, n))
  }

  /** Undisturbed, the machine's steps of a claim are claimDispatchUnder: the marker whole under a
      delegation, torn and then written and synced without one, or a name found taken. */
  lemma ClaimAlone(sh: Shared, id: RequestId, r: Request, e: Reservation, n: nat) returns (k: nat)
    requires r.pc == Claiming(CreateMarker, n)
    ensures Leads(With(sh, r, e), id, r, k, (With(sh, r, Claimed(e, id, n)), AfterClaim(e, r, n)))
  {
    var out := (With(sh, r, Claimed(e, id, n)), AfterClaim(e, r, n));
    if n in e.markers {
      TakenAlone(sh, id, r, e, n);
      ClaimingStep(sh, id, r, e, e, r.At(ReadTaken(n)), 1, out);
      k := 2;
    } else {
      var whole := Marker(Dispatch, id, true, false);
      var e3 := e.(markers := e.markers[n := whole]);
      SyncClaimAlone(sh, id, r, e3, n);
      if r.sender.Actor? {
        MarkerWritten(sh, r, e, n, whole);
        ClaimingStep(sh, id, r, e, e3, r.At(Claiming(SyncClaim, n)), 1, out);
        k := 2;
      } else {
        TornAlone(sh, id, r, e, n, out);
        k := 4;
      }
    }
  }

  lemma SyncClaimAlone(sh: Shared, id: RequestId, r: Request, e: Reservation, n: nat)
    ensures Leads(With(sh, r, e), id, r.At(Claiming(SyncClaim, n)), 1, (With(sh, r, SyncNames(e)), r.At(Claiming(RunSource, n))))
  {
    var r1, r2 := r.At(Claiming(SyncClaim, n)), r.At(Claiming(RunSource, n));
    NoStep(With(sh, r, SyncNames(e)), id, r2);
    MarkerWritten(sh, r, e, n, Marker(Torn, id, false, false));
    ClaimingStep(sh, id, r1, e, SyncNames(e), r2, 0, (With(sh, r, SyncNames(e)), r2));
  }

  lemma TornStep(sh: Shared, id: RequestId, r: Request, e: Reservation, e1: Reservation, n: nat, k: nat, out: (Shared, Request))
    requires r.pc == Claiming(CreateMarker, n) && !r.sender.Actor? && n !in e.markers
    requires e1 == e.(markers := e.markers[n := Marker(Torn, id, false, false)])
    requires Leads(With(sh, r, e1), id, r.At(Claiming(WriteMarker, n)), k, out)
    ensures Leads(With(sh, r, e), id, r, k + 1, out)
  {
    MarkerWritten(sh, r, e, n, Marker(Torn, id, false, false));
    ClaimingStep(sh, id, r, e, e1, r.At(Claiming(WriteMarker, n)), k, out);
  }

  lemma WriteStep(sh: Shared, id: RequestId, r: Request, e: Reservation, e1: Reservation, n: nat, m: Marker, k: nat, out: (Shared, Request))
    requires n in e.markers && m == e.markers[n].(kind := Dispatch) && e1 == e.(markers := e.markers[n := m])
    requires Leads(With(sh, r, e1), id, r.At(Claiming(SyncMarker, n)), k, out)
    ensures Leads(With(sh, r, e), id, r.At(Claiming(WriteMarker, n)), k + 1, out)
  {
    MarkerWritten(sh, r, e, n, m);
    ClaimingStep(sh, id, r.At(Claiming(WriteMarker, n)), e, e1, r.At(Claiming(SyncMarker, n)), k, out);
  }

  lemma SyncStep(sh: Shared, id: RequestId, r: Request, e: Reservation, e1: Reservation, n: nat, m: Marker, k: nat, out: (Shared, Request))
    requires n in e.markers && m == e.markers[n].(bytesSynced := true) && e1 == e.(markers := e.markers[n := m])
    requires Leads(With(sh, r, e1), id, r.At(Claiming(SyncClaim, n)), k, out)
    ensures Leads(With(sh, r, e), id, r.At(Claiming(SyncMarker, n)), k + 1, out)
  {
    MarkerWritten(sh, r, e, n, m);
    ClaimingStep(sh, id, r.At(Claiming(SyncMarker, n)), e, e1, r.At(Claiming(SyncClaim, n)), k, out);
  }

  /** The marker at n, replaced and replaced again. */
  lemma Rewritten<K, V>(m: map<K, V>, k: K, v: V, w: V)
    ensures m[k := v][k := w] == m[k := w]
  {
  }

  lemma TornAlone(sh: Shared, id: RequestId, r: Request, e: Reservation, n: nat, out: (Shared, Request))
    requires r.pc == Claiming(CreateMarker, n) && !r.sender.Actor? && n !in e.markers
    requires Leads(With(sh, r, e.(markers := e.markers[n := Marker(Dispatch, id, true, false)])), id, r.At(Claiming(SyncClaim, n)), 1, out)
    ensures Leads(With(sh, r, e), id, r, 4, out)
  {
    var m1, m2, m3 := Marker(Torn, id, false, false), Marker(Dispatch, id, false, false), Marker(Dispatch, id, true, false);
    var e1, e2, e3 := e.(markers := e.markers[n := m1]), e.(markers := e.markers[n := m2]), e.(markers := e.markers[n := m3]);
    Rewritten(e.markers, n, m1, m2);
    Rewritten(e.markers, n, m2, m3);
    SyncStep(sh, id, r, e2, e3, n, m3, 1, out);
    WriteStep(sh, id, r, e1, e2, n, m2, 2, out);
    TornStep(sh, id, r, e, e1, n, 3, out);
  }

  /** Undisturbed, the machine's steps of a release are releaseDispatch: the answer created, written
      and synced, or one found there, which leaves uncertainty to record. */
  lemma ReleaseAlone(sh: Shared, id: RequestId, r: Request, e: Reservation, n: nat) returns (k: nat)
    requires r.pc == Releasing(CreateAnswer, n)
    ensures Leads(With(sh, r, e), id, r, k,
      (With(sh, r, Released(e, n)), r.At(if n in e.answers then Recording(LinkAction, Uncertain) else Done(SaidRetry))))
  {
    var out := (With(sh, r, Released(e, n)), r.At(if n in e.answers then Recording(LinkAction, Uncertain) else Done(SaidRetry)));
    NoStep(out.0, id, out.1);
    if n in e.answers {
      ReleasingStep(sh, id, r, e, e, out.1, 0, out);
      k := 1;
    } else {
      AnswerAlone(sh, id, r, e, n, out);
      k := 4;
    }
  }

  lemma CreateStep(sh: Shared, id: RequestId, r: Request, e: Reservation, e1: Reservation, n: nat, k: nat, out: (Shared, Request))
    requires r.pc == Releasing(CreateAnswer, n) && n !in e.answers && e1 == e.(answers := e.answers[n := Answer(false, false, false)])
    requires Leads(With(sh, r, e1), id, r.At(Releasing(WriteAnswer, n)), k, out)
    ensures Leads(With(sh, r, e), id, r, k + 1, out)
  {
    AnswerWritten(sh, r, e, n, Answer(false, false, false));
    ReleasingStep(sh, id, r, e, e1, r.At(Releasing(WriteAnswer, n)), k, out);
  }

  lemma FillStep(sh: Shared, id: RequestId, r: Request, e: Reservation, e1: Reservation, n: nat, a: Answer, k: nat, out: (Shared, Request))
    requires n in e.answers && a == e.answers[n].(whole := true) && e1 == e.(answers := e.answers[n := a])
    requires Leads(With(sh, r, e1), id, r.At(Releasing(SyncAnswer, n)), k, out)
    ensures Leads(With(sh, r, e), id, r.At(Releasing(WriteAnswer, n)), k + 1, out)
  {
    AnswerWritten(sh, r, e, n, a);
    ReleasingStep(sh, id, r.At(Releasing(WriteAnswer, n)), e, e1, r.At(Releasing(SyncAnswer, n)), k, out);
  }

  lemma FlushStep(sh: Shared, id: RequestId, r: Request, e: Reservation, e1: Reservation, n: nat, a: Answer, k: nat, out: (Shared, Request))
    requires n in e.answers && a == e.answers[n].(bytesSynced := true) && e1 == e.(answers := e.answers[n := a])
    requires Leads(With(sh, r, e1), id, r.At(Releasing(SyncRelease, n)), k, out)
    ensures Leads(With(sh, r, e), id, r.At(Releasing(SyncAnswer, n)), k + 1, out)
  {
    AnswerWritten(sh, r, e, n, a);
    ReleasingStep(sh, id, r.At(Releasing(SyncAnswer, n)), e, e1, r.At(Releasing(SyncRelease, n)), k, out);
  }

  lemma ReleaseEnds(sh: Shared, id: RequestId, r: Request, e: Reservation, n: nat, out: (Shared, Request))
    requires Leads(With(sh, r, SyncNames(e)), id, r.At(Done(SaidRetry)), 0, out)
    ensures Leads(With(sh, r, e), id, r.At(Releasing(SyncRelease, n)), 1, out)
  {
    AnswerWritten(sh, r, e, n, Answer(true, true, false));
    ReleasingStep(sh, id, r.At(Releasing(SyncRelease, n)), e, SyncNames(e), r.At(Done(SaidRetry)), 0, out);
  }

  lemma AnswerAlone(sh: Shared, id: RequestId, r: Request, e: Reservation, n: nat, out: (Shared, Request))
    requires r.pc == Releasing(CreateAnswer, n) && n !in e.answers
    requires Leads(With(sh, r, Released(e, n)), id, r.At(Done(SaidRetry)), 0, out)
    ensures Leads(With(sh, r, e), id, r, 4, out)
  {
    var a1, a2, a3 := Answer(false, false, false), Answer(true, false, false), Answer(true, true, false);
    var e1, e2, e3 := e.(answers := e.answers[n := a1]), e.(answers := e.answers[n := a2]), e.(answers := e.answers[n := a3]);
    Rewritten(e.answers, n, a1, a2);
    Rewritten(e.answers, n, a2, a3);
    ReleaseEnds(sh, id, r, e3, n, out);
    FlushStep(sh, id, r, e2, e3, n, a3, 1, out);
    FillStep(sh, id, r, e1, e2, n, a2, 2, out);
    CreateStep(sh, id, r, e, e1, n, 3, out);
  }
}
