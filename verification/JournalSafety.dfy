/** What every run of the journal keeps: an invariant of the store and of each request,
    kept by every step of its own, by every step of any other, and by a loss of power. */
module JournalSafety {
  import opened Wrappers
  import opened Journal

  /* ---------- The store ---------- */

  ghost predicate EntryKept(sh: Shared, s: Scope)
    requires s in sh.entries
  {
    var e := sh.entries[s];
    && (forall n :: n in e.markers ==> 1 <= n <= ATTEMPTS)
    && (forall n, m :: n in e.markers && 1 <= m < n ==> m in e.markers && (s, m) in sh.freed)
    && (forall n :: n in e.markers && e.markers[n].kind.Close? ==> e.markers[n].bytesSynced)
    && (forall n :: n in e.answers ==> (s, n) in sh.freed)
    && (e.action.Some? && e.action.value.outcome.Response? ==> SomeStart(sh, s))
    && (!e.nameSynced ==>
          && e.answers == map[] && e.action.None?
          && (forall n :: n in e.markers ==> n == 1 && e.markers[n].kind.Close? && e.markers[n].nameSynced))
  }

  /** Attempt n's marker is a dispatch's and its name is durable, in a durable reservation. */
  ghost predicate Durable(sh: Shared, s: Scope, n: nat) {
    && s in sh.entries && sh.entries[s].nameSynced
    && n in sh.entries[s].markers && sh.entries[s].markers[n].nameSynced
    && !sh.entries[s].markers[n].kind.Close?
  }

  ghost predicate HoldsIndex(sh: Shared, s: Scope) {
    sh.index == Some(Index(s, true)) && sh.indexDirSynced
  }

  ghost predicate ClosedDurably(sh: Shared, s: Scope) {
    && s in sh.entries && sh.entries[s].nameSynced
    && exists n :: Closes(sh.entries[s], n) && sh.entries[s].markers[n].nameSynced
  }

  ghost predicate StartKept(sh: Shared, st: Start) {
    && Durable(sh, st.scope, st.attempt)
    && var m := sh.entries[st.scope].markers[st.attempt];
    && m.kind.Dispatch? && m.bytesSynced && m.maker == st.maker
    && (st.scope, st.attempt) !in sh.freed
    && (st.holds ==> HoldsIndex(sh, st.scope))
  }

  ghost predicate Kept(sh: Shared) {
    && (forall s :: s in sh.entries ==> EntryKept(sh, s))
    && (forall f :: f in sh.freed ==> Durable(sh, f.0, f.1))
    && (forall st :: st in sh.started ==> StartKept(sh, st))
    && (forall a, b :: a in sh.started && b in sh.started && a.scope == b.scope ==> a == b)
    && (forall p :: p in sh.replies ==> ClosedDurably(sh, p.scope) && (p.NotDispatched? ==> HoldsIndex(sh, p.scope)))
  }

  /* ---------- A request ---------- */

  ghost predicate HasClaim(sh: Shared, r: Request) {
    r.scope in sh.entries && sh.entries[r.scope].nameSynced && sh.entries[r.scope].content == r.content
  }

  /** Every attempt below n is completely answered. */
  ghost predicate AnsweredBelow(sh: Shared, s: Scope, n: nat)
    requires s in sh.entries
  {
    forall m :: 1 <= m < n ==> m in sh.entries[s].answers && sh.entries[s].answers[m].whole
  }

  ghost predicate Frontier(sh: Shared, r: Request, n: nat) {
    HasClaim(sh, r) && 1 <= n && AnsweredBelow(sh, r.scope, n)
  }

  /** The request made attempt n's marker and has neither run nor released under it. */
  ghost predicate Owns(sh: Shared, id: RequestId, r: Request, n: nat) {
    && Frontier(sh, r, n) && n <= ATTEMPTS
    && n in sh.entries[r.scope].markers
    && sh.entries[r.scope].markers[n].maker == id
    && !sh.entries[r.scope].markers[n].kind.Close?
    && (r.scope, n) !in sh.freed
    && (forall st :: st in sh.started ==> st.maker != id)
  }

  /* What a point of the program is for. */
  predicate Dispatches(pc: PC) { pc.Claiming? || pc.Releasing? || pc.Ran? }
  predicate MayClose(pc: PC) { pc.ReserveClosed? || pc.Closing? }
  predicate AtForeignHas(pc: PC) { pc.Starting? && pc.start.ForeignHas? }
  predicate Publishes(pc: PC) { pc.Reserving? && pc.reserve.PublishEntry? }
  predicate Makes(pc: PC) { pc.Reserving? && (pc.reserve.LookEntry? || pc.reserve.PublishEntry?) }

  /** Points reached only once a request that must hold the first scope holds it. */
  predicate PastHold(pc: PC) { pc.Reserving? || pc.Scanning? || pc.ReadAction? || Opened(pc) }

  predicate MustHold(r: Request) { r.MayHold() && !r.reconcile && !r.foreign }

  /** Points past the first reading of every marker: a request that begins on a closed key
      never comes here. */
  predicate PastScan(pc: PC) {
    pc.ReadAction? || (Opened(pc) && !pc.Answering?) || (pc.Holding? && pc.after.ToEvidence?)
  }

  /** What the request's own flags and kind allow at a point of its program. */
  predicate LocalOk(r: Request) {
    && (r.reconcile ==> !r.sender.Plain? && !Dispatches(r.pc) && !Makes(r.pc) && !r.made && !r.pc.HoldForeignHas?)
    && (r.foreign && !AtForeignHas(r.pc) && !r.pc.Done? ==>
          !Dispatches(r.pc) && !MayClose(r.pc) && !r.pc.Holding? && !Makes(r.pc) && !r.pc.HoldForeignHas? && !r.made)
    && (MayClose(r.pc) ==> r.reconcile)
    && (r.sender.Other? ==>
          && !Dispatches(r.pc) && !MayClose(r.pc) && !r.pc.HoldForeignHas? && !Publishes(r.pc) && !r.made
          && (r.pc.Holding? ==> r.indexed))
    && (r.pc.Holding? ==>
          && !r.foreign && (r.pc.after.ToReserve? <==> !r.reconcile)
          && (!r.pc.after.ToAnswer? ==> r.MayHold()))
    && (r.pc.HoldForeignHas? ==> r.MayHold() && !r.foreign)
    && (r.pc.Answering? ==>
          && !r.foreign && (r.pc.notDispatched <==> r.reconcile)
          && (r.sender.Other? ==> r.reconcile && r.indexed))
    && (r.made ==> PastHold(r.pc) || r.pc.Done?)
  }

  /** The request has found its reservation there. */
  predicate NeedsEntry(r: Request) {
    || (r.foreign && !AtForeignHas(r.pc) && !r.pc.Done?)
    || (r.sender.Other? && !r.pc.Done? && (r.pc.Starting? ==> r.pc.start.ReconcileHas?))
  }

  predicate EntryFound(sh: Shared, r: Request) { NeedsEntry(r) ==> r.scope in sh.entries }

  ghost predicate IndexKept(sh: Shared, r: Request) {
    && (r.indexed ==> sh.index.Some? && sh.index.value.scope == r.scope)
    && (PastHold(r.pc) && MustHold(r) ==> HoldsIndex(sh, r.scope))
  }

  /** A verdict that comes from evidence a reservation retains, or from an attempt. */
  predicate FromEvidence(pc: PC) {
    pc.Done? && (pc.verdict.Replayed? || pc.verdict.Recorded? || pc.verdict.SaidRetry? || pc.verdict.Exhausted?)
  }

  ghost predicate LateKept(sh: Shared, r: Request) {
    r.late ==> Closed(sh, r.scope) && !PastScan(r.pc) && !FromEvidence(r.pc) && !r.made
  }

  ghost predicate FlagsKept(sh: Shared, r: Request) {
    LocalOk(r) && EntryFound(sh, r) && IndexKept(sh, r) && LateKept(sh, r)
  }

  ghost predicate StartReady(sh: Shared, s: Scope, n: nat) {
    && Durable(sh, s, n)
    && sh.entries[s].markers[n].kind.Dispatch? && sh.entries[s].markers[n].bytesSynced
  }

  ghost predicate HoldKept(sh: Shared, r: Request)
    requires r.pc.Holding?
  {
    && (r.pc.hold.Reread? ==> sh.index.Some?)
    && (r.pc.hold.SyncIndex? ==> sh.index.Some? && sh.index.value.scope == r.scope)
    && (r.pc.hold.SyncParent? ==> sh.index == Some(Index(r.scope, true)))
    && (r.pc.after.ToAnswer? ==> ClosedDurably(sh, r.scope))
    && (r.pc.after.ToEvidence? ==> HasClaim(sh, r))
  }

  ghost predicate ReserveKept(sh: Shared, r: Request)
    requires r.pc.Reserving?
  {
    && (r.pc.reserve.SyncRoot? ==> r.scope in sh.entries && (r.made ==> sh.entries[r.scope].content == r.content))
    && (r.pc.reserve.OpenEntry? ==>
          && r.scope in sh.entries && sh.entries[r.scope].nameSynced
          && (r.made ==> sh.entries[r.scope].content == r.content))
  }

  ghost predicate ClaimKept(sh: Shared, id: RequestId, r: Request)
    requires r.pc.Claiming?
  {
    var n := r.pc.n;
    match r.pc.claim
    case CreateMarker => Frontier(sh, r, n) && n <= ATTEMPTS
    case WriteMarker => Owns(sh, id, r, n)
    case SyncMarker => Owns(sh, id, r, n) && sh.entries[r.scope].markers[n].kind.Dispatch?
    case SyncClaim => Owns(sh, id, r, n) && sh.entries[r.scope].markers[n].kind.Dispatch? && sh.entries[r.scope].markers[n].bytesSynced
    case RunSource => Owns(sh, id, r, n) && StartReady(sh, r.scope, n)
  }

  ghost predicate CloseKept(sh: Shared, r: Request)
    requires r.pc.Closing?
  {
    && Frontier(sh, r, r.pc.n) && r.pc.n <= ATTEMPTS
    && (r.pc.close.SyncClose? ==> Closes(sh.entries[r.scope], r.pc.n))
  }

  ghost predicate SomeStart(sh: Shared, s: Scope) { exists st :: st in sh.started && st.scope == s }

  ghost predicate LateScan(sh: Shared, r: Request, k: nat)
    requires r.scope in sh.entries
  {
    r.late ==> exists n :: k <= n && Closes(sh.entries[r.scope], n)
  }

  /** What holds at each point of the program. */
  ghost predicate PointKept(sh: Shared, id: RequestId, r: Request) {
    match r.pc
    case Starting(_) => true
    case ReserveClosed => true
    case Holding(_, _) => HoldKept(sh, r)
    case HoldForeignHas => true
    case Reserving(_) => ReserveKept(sh, r)
    case Scanning(k) => HasClaim(sh, r) && 1 <= k <= ATTEMPTS && LateScan(sh, r, k)
    case ReadAction => HasClaim(sh, r)
    case Attempting(look, n) =>
      Frontier(sh, r, n) && (!look.LookMarker? ==> n <= ATTEMPTS && n in sh.entries[r.scope].markers)
    case Closing(_, n) => CloseKept(sh, r)
    case ReadTaken(n) => HasClaim(sh, r)
    case Claiming(_, _) => ClaimKept(sh, id, r)
    case Releasing(_, n) => HasClaim(sh, r) && (r.scope, n) in sh.freed
    case Ran(n) => HasClaim(sh, r) && SomeStart(sh, r.scope)
    case Rescanning(_) => HasClaim(sh, r)
    case Recording(_, outcome) => HasClaim(sh, r) && (outcome.Response? ==> SomeStart(sh, r.scope))
    case Answering(_) => HasClaim(sh, r) && Closed(sh, r.scope)
    case Done(_) => true
  }

  /** A request that has not run its program is the maker of no start. */
  ghost predicate UnstartedKept(sh: Shared, id: RequestId, r: Request) {
    r.pc.Ran? || r.pc.Recording? || r.pc.Done? || (forall st :: st in sh.started ==> st.maker != id)
  }

  ghost predicate RequestKept(sh: Shared, id: RequestId, r: Request) {
    FlagsKept(sh, r) && PointKept(sh, id, r) && UnstartedKept(sh, id, r)
  }

  /* ---------- What one request's step may do to the store ---------- */

  ghost predicate EntryGrows(id: RequestId, e: Reservation, e': Reservation) {
    && e'.content == e.content && (e.nameSynced ==> e'.nameSynced)
    && (forall n :: n in e.markers ==> n in e'.markers)
    && (forall n :: n in e.markers ==>
          var m, m' := e.markers[n], e'.markers[n];
          && m'.maker == m.maker && (m.bytesSynced ==> m'.bytesSynced) && (m.nameSynced ==> m'.nameSynced)
          && (m'.kind == m.kind || (m.maker == id && m.kind.Torn? && m'.kind.Dispatch?)))
    && (forall n :: n in e'.markers && n !in e.markers ==> e'.markers[n].maker == id)
    && (forall n :: n in e.answers ==> n in e'.answers && (e.answers[n].whole ==> e'.answers[n].whole))
    && (e.action.Some? ==> e'.action.Some? && e'.action.value.outcome == e.action.value.outcome)
  }

  ghost predicate Grows(id: RequestId, sh: Shared, sh': Shared) {
    && (sh.index.Some? ==>
          && sh'.index.Some? && sh'.index.value.scope == sh.index.value.scope
          && (sh.index.value.nameSynced ==> sh'.index.value.nameSynced))
    && (sh.indexDirSynced ==> sh'.indexDirSynced)
    && (forall s :: s in sh.entries ==> s in sh'.entries && EntryGrows(id, sh.entries[s], sh'.entries[s]))
    && sh.freed <= sh'.freed && sh.started <= sh'.started && sh.replies <= sh'.replies
    && (forall f :: f in sh'.freed && f !in sh.freed ==>
          f.0 in sh.entries && f.1 in sh.entries[f.0].markers && sh.entries[f.0].markers[f.1].maker == id)
    && (forall st :: st in sh'.started && st !in sh.started ==> st.maker == id)
  }

  lemma ClosedGrows(sh: Shared, sh': Shared, id: RequestId, s: Scope)
    requires Grows(id, sh, sh') && Closed(sh, s)
    ensures Closed(sh', s)
  {
    var n :| Closes(sh.entries[s], n);
    assert Closes(sh'.entries[s], n);
  }

  lemma ClosedDurablyGrows(sh: Shared, sh': Shared, id: RequestId, s: Scope)
    requires Grows(id, sh, sh') && ClosedDurably(sh, s)
    ensures ClosedDurably(sh', s)
  {
    var n :| Closes(sh.entries[s], n) && sh.entries[s].markers[n].nameSynced;
    assert Closes(sh'.entries[s], n);
  }

  lemma FlagsUndisturbed(sh: Shared, sh': Shared, id: RequestId, r: Request)
    requires FlagsKept(sh, r) && Grows(id, sh, sh')
    ensures FlagsKept(sh', r)
  {
    if r.late {
      ClosedGrows(sh, sh', id, r.scope);
    }
  }

  lemma FrontierUndisturbed(sh: Shared, sh': Shared, id: RequestId, r: Request, n: nat)
    requires Frontier(sh, r, n) && Grows(id, sh, sh')
    ensures Frontier(sh', r, n)
  {
    assert EntryGrows(id, sh.entries[r.scope], sh'.entries[r.scope]);
  }

  lemma OwnsUndisturbed(sh: Shared, sh': Shared, id: RequestId, other: RequestId, r: Request, n: nat)
    requires id != other && Owns(sh, other, r, n) && Grows(id, sh, sh')
    ensures Owns(sh', other, r, n)
  {
    FrontierUndisturbed(sh, sh', id, r, n);
    assert EntryGrows(id, sh.entries[r.scope], sh'.entries[r.scope]);
  }

  lemma PointUndisturbed(sh: Shared, sh': Shared, id: RequestId, other: RequestId, r: Request)
    requires id != other && PointKept(sh, other, r) && Grows(id, sh, sh')
    ensures PointKept(sh', other, r)
  {
    if r.scope in sh.entries {
      assert EntryGrows(id, sh.entries[r.scope], sh'.entries[r.scope]);
    }
    match r.pc
    case Holding(_, after) => if after.ToAnswer? { ClosedDurablyGrows(sh, sh', id, r.scope); }
    case Scanning(k) =>
      if r.late {
        var n :| k <= n && Closes(sh.entries[r.scope], n);
        assert Closes(sh'.entries[r.scope], n);
      }
    case Attempting(_, n) => FrontierUndisturbed(sh, sh', id, r, n);
    case Closing(_, n) => FrontierUndisturbed(sh, sh', id, r, n);
    case Claiming(claim, n) =>
      if claim.CreateMarker? { FrontierUndisturbed(sh, sh', id, r, n); } else { OwnsUndisturbed(sh, sh', id, other, r, n); }
    case Answering(_) => ClosedGrows(sh, sh', id, r.scope);
    case _ =>
  }

  /** Another request's step never disturbs what a request relies on. */
  lemma Undisturbed(sh: Shared, sh': Shared, id: RequestId, other: RequestId, r: Request)
    requires id != other && RequestKept(sh, other, r) && Grows(id, sh, sh')
    ensures RequestKept(sh', other, r)
  {
    FlagsUndisturbed(sh, sh', id, r);
    PointUndisturbed(sh, sh', id, other, r);
  }

  /* ---------- Effects on the store ---------- */

  ghost predicate Keeps(id: RequestId, sh: Shared, sh': Shared) {
    Grows(id, sh, sh') && Kept(sh')
  }

  lemma DurableGrows(sh: Shared, sh': Shared, id: RequestId, s: Scope, n: nat)
    requires Grows(id, sh, sh') && Durable(sh, s, n)
    ensures Durable(sh', s, n)
  {
    assert EntryGrows(id, sh.entries[s], sh'.entries[s]);
  }

  lemma StartGrows(sh: Shared, sh': Shared, id: RequestId, st: Start)
    requires Grows(id, sh, sh') && StartKept(sh, st) && (st.scope, st.attempt) !in sh'.freed
    ensures StartKept(sh', st)
  {
    DurableGrows(sh, sh', id, st.scope, st.attempt);
    assert EntryGrows(id, sh.entries[st.scope], sh'.entries[st.scope]);
  }

  /** A reservation the step leaves alone stays kept. */
  lemma EntrySame(sh: Shared, sh': Shared, s: Scope)
    requires s in sh.entries && s in sh'.entries && sh'.entries[s] == sh.entries[s] && EntryKept(sh, s)
    requires sh.freed <= sh'.freed && sh.started <= sh'.started
    ensures EntryKept(sh', s)
  {
  }

  /** A grown store is kept once what is new in it is. */
  lemma Assemble(sh: Shared, sh': Shared, id: RequestId)
    requires Kept(sh) && Grows(id, sh, sh')
    requires forall s :: s in sh'.entries ==> EntryKept(sh', s)
    requires forall f :: f in sh'.freed && f !in sh.freed ==> Durable(sh', f.0, f.1)
    requires forall st :: st in sh'.started && st !in sh.started ==> StartKept(sh', st)
    requires forall st :: st in sh.started ==> (st.scope, st.attempt) !in sh'.freed
    requires forall a, b :: a in sh'.started && b in sh'.started && a.scope == b.scope ==> a == b
    requires forall p :: p in sh'.replies && p !in sh.replies ==> ClosedDurably(sh', p.scope) && (p.NotDispatched? ==> HoldsIndex(sh', p.scope))
    ensures Kept(sh')
  {
    forall f | f in sh'.freed ensures Durable(sh', f.0, f.1) {
      if f in sh.freed { DurableGrows(sh, sh', id, f.0, f.1); }
    }
    forall st | st in sh'.started ensures StartKept(sh', st) {
      if st in sh.started { StartGrows(sh, sh', id, st); }
    }
    forall p | p in sh'.replies ensures ClosedDurably(sh', p.scope) && (p.NotDispatched? ==> HoldsIndex(sh', p.scope)) {
      if p in sh.replies { ClosedDurablyGrows(sh, sh', id, p.scope); }
    }
  }

  lemma NotFreed(sh: Shared, st: Start)
    requires Kept(sh) && st in sh.started
    ensures (st.scope, st.attempt) !in sh.freed
  {
    assert StartKept(sh, st);
  }

  lemma SameKeeps(sh: Shared, id: RequestId)
    requires Kept(sh)
    ensures Keeps(id, sh, sh)
  {
  }

  lemma EntryGrowsSelf(id: RequestId, e: Reservation)
    ensures EntryGrows(id, e, e)
  {
  }

  lemma PutGrows(sh: Shared, id: RequestId, s: Scope, e': Reservation)
    requires s in sh.entries ==> EntryGrows(id, sh.entries[s], e')
    ensures Grows(id, sh, Put(sh, s, e'))
  {
    var sh' := Put(sh, s, e');
    forall t | t in sh.entries ensures t in sh'.entries && EntryGrows(id, sh.entries[t], sh'.entries[t]) {
      if t != s { EntryGrowsSelf(id, sh.entries[t]); }
    }
  }

  /** Only reservations changed: the history is as it was, so nothing started is freed. */
  lemma EntriesKeep(sh: Shared, sh': Shared, id: RequestId)
    requires Kept(sh) && Grows(id, sh, sh')
    requires forall s :: s in sh'.entries ==> EntryKept(sh', s)
    requires sh'.freed == sh.freed && sh'.started == sh.started && sh'.replies == sh.replies
    ensures Keeps(id, sh, sh')
  {
    forall st | st in sh.started ensures (st.scope, st.attempt) !in sh'.freed { NotFreed(sh, st); }
    Assemble(sh, sh', id);
  }

  /** Replacing one reservation by a grown one. */
  lemma PutKeeps(sh: Shared, id: RequestId, s: Scope, e': Reservation)
    requires Kept(sh) && s in sh.entries && EntryGrows(id, sh.entries[s], e')
    requires EntryKept(Put(sh, s, e'), s)
    ensures Keeps(id, sh, Put(sh, s, e'))
  {
    var sh' := Put(sh, s, e');
    PutGrows(sh, id, s, e');
    forall t | t in sh'.entries ensures EntryKept(sh', t) {
      if t != s { EntrySame(sh, sh', t); }
    }
    EntriesKeep(sh, sh', id);
  }

  lemma SyncEntryDirKeeps(sh: Shared, id: RequestId, s: Scope)
    requires Kept(sh) && s in sh.entries
    ensures Keeps(id, sh, SyncEntryDir(sh, s))
  {
    assert EntryKept(sh, s);
    PutKeeps(sh, id, s, SyncNames(sh.entries[s]));
  }

  lemma EntrySyncedKeeps(sh: Shared, id: RequestId, s: Scope)
    requires s in sh.entries && EntryKept(sh, s)
    ensures EntryGrows(id, sh.entries[s], SyncRootDir(sh).entries[s]) && EntryKept(SyncRootDir(sh), s)
  {
  }

  lemma SyncRootDirKeeps(sh: Shared, id: RequestId)
    requires Kept(sh)
    ensures Keeps(id, sh, SyncRootDir(sh))
  {
    var sh' := SyncRootDir(sh);
    forall t | t in sh.entries ensures EntryGrows(id, sh.entries[t], sh'.entries[t]) && EntryKept(sh', t) {
      EntrySyncedKeeps(sh, id, t);
    }
    EntriesKeep(sh, sh', id);
  }

  lemma IndexKeeps(sh: Shared, id: RequestId, index: Option<Index>)
    requires Kept(sh) && index.Some?
    requires sh.index.Some? ==> index.value.scope == sh.index.value.scope && (sh.index.value.nameSynced ==> index.value.nameSynced)
    ensures Keeps(id, sh, sh.(index := index))
  {
    var sh' := sh.(index := index);
    forall t | t in sh'.entries ensures EntryKept(sh', t) { EntrySame(sh, sh', t); }
    forall st | st in sh.started ensures (st.scope, st.attempt) !in sh'.freed { NotFreed(sh, st); }
    Assemble(sh, sh', id);
  }

  /** A new reservation, empty or closed from the start. */
  lemma PublishKeeps(sh: Shared, id: RequestId, s: Scope, e: Reservation)
    requires Kept(sh) && s !in sh.entries
    requires !e.nameSynced && e.answers == map[] && e.action.None?
    requires e.markers == map[] || e.markers == map[1 := Marker(Close, id, true, true)]
    ensures Keeps(id, sh, Put(sh, s, e))
  {
    var sh' := Put(sh, s, e);
    PutGrows(sh, id, s, e);
    forall t | t in sh'.entries ensures EntryKept(sh', t) {
      if t != s { EntrySame(sh, sh', t); }
    }
    EntriesKeep(sh, sh', id);
  }

  lemma NewMarkerKeeps(sh: Shared, id: RequestId, s: Scope, n: nat, m: Marker)
    requires Kept(sh) && s in sh.entries && sh.entries[s].nameSynced && n !in sh.entries[s].markers
    requires 1 <= n <= ATTEMPTS && AnsweredBelow(sh, s, n)
    requires m.maker == id && (m.kind.Close? ==> m.bytesSynced)
    ensures Keeps(id, sh, SetMarker(sh, s, n, m))
  {
    var e' := sh.entries[s].(markers := sh.entries[s].markers[n := m]);
    assert EntryKept(sh, s);
    forall m | 1 <= m < n ensures m in e'.markers && (s, m) in sh.freed {
      assert m in sh.entries[s].answers;
      assert Durable(sh, (s, m).0, (s, m).1);
    }
    forall k, m | k in e'.markers && 1 <= m < k ensures m in e'.markers && (s, m) in sh.freed {
      if k != n {
        assert (s, m) in sh.freed;
      }
    }
    assert EntryKept(Put(sh, s, e'), s);
    PutKeeps(sh, id, s, e');
  }

  lemma MarkerKeeps(sh: Shared, id: RequestId, s: Scope, n: nat, m: Marker)
    requires Kept(sh) && s in sh.entries && n in sh.entries[s].markers && sh.entries[s].nameSynced
    requires var was := sh.entries[s].markers[n];
             !was.kind.Close? && m.maker == was.maker == id && m.kind.Dispatch?
             && (was.bytesSynced ==> m.bytesSynced) && (was.nameSynced ==> m.nameSynced)
    ensures Keeps(id, sh, SetMarker(sh, s, n, m))
  {
    var e := sh.entries[s].(markers := sh.entries[s].markers[n := m]);
    assert EntryKept(sh, s);
    MarkerGrows(id, sh.entries[s], n, m);
    MarkerEntryKept(sh, s, n, m);
    PutKeeps(sh, id, s, e);
  }

  lemma MarkerGrows(id: RequestId, e: Reservation, n: nat, m: Marker)
    requires n in e.markers && m.maker == e.markers[n].maker == id && !e.markers[n].kind.Close? && m.kind.Dispatch?
    requires (e.markers[n].bytesSynced ==> m.bytesSynced) && (e.markers[n].nameSynced ==> m.nameSynced)
    ensures EntryGrows(id, e, e.(markers := e.markers[n := m]))
  {
  }

  lemma MarkerEntryKept(sh: Shared, s: Scope, n: nat, m: Marker)
    requires s in sh.entries && EntryKept(sh, s) && n in sh.entries[s].markers && m.kind.Dispatch? && sh.entries[s].nameSynced
    ensures EntryKept(Put(sh, s, sh.entries[s].(markers := sh.entries[s].markers[n := m])), s)
  {
  }

  lemma AnswerKeeps(sh: Shared, id: RequestId, s: Scope, n: nat, a: Answer)
    requires Kept(sh) && s in sh.entries && sh.entries[s].nameSynced && (s, n) in sh.freed
    requires n in sh.entries[s].answers ==> (sh.entries[s].answers[n].whole ==> a.whole)
    ensures Keeps(id, sh, SetAnswer(sh, s, n, a))
  {
    assert EntryKept(sh, s);
    PutKeeps(sh, id, s, sh.entries[s].(answers := sh.entries[s].answers[n := a]));
  }

  lemma ActionKeeps(sh: Shared, id: RequestId, s: Scope, a: Record)
    requires Kept(sh) && s in sh.entries && sh.entries[s].nameSynced && sh.entries[s].action.None?
    requires a.outcome.Response? ==> SomeStart(sh, s)
    ensures Keeps(id, sh, Put(sh, s, sh.entries[s].(action := Some(a))))
  {
    assert EntryKept(sh, s);
    PutKeeps(sh, id, s, sh.entries[s].(action := Some(a)));
  }

  /** Below a marker every attempt has one, and was found never started. */
  lemma AddFreedGrows(sh: Shared, id: RequestId, s: Scope, n: nat)
    requires s in sh.entries && n in sh.entries[s].markers && sh.entries[s].markers[n].maker == id
    ensures Grows(id, sh, sh.(freed := sh.freed + {(s, n)}))
  {
    forall t | t in sh.entries ensures EntryGrows(id, sh.entries[t], sh.entries[t]) { EntryGrowsSelf(id, sh.entries[t]); }
  }

  lemma FreeKeeps(sh: Shared, id: RequestId, r: Request, n: nat)
    requires Kept(sh) && Owns(sh, id, r, n) && StartReady(sh, r.scope, n)
    ensures Keeps(id, sh, sh.(freed := sh.freed + {(r.scope, n)}))
  {
    var sh' := sh.(freed := sh.freed + {(r.scope, n)});
    AddFreedGrows(sh, id, r.scope, n);
    forall t | t in sh'.entries ensures EntryKept(sh', t) { EntrySame(sh, sh', t); }
    OthersElsewhere(sh, id, r, n);
    Assemble(sh, sh', id);
  }

  /** Nothing was ever started where a request owns the next attempt. */
  lemma NothingElseStarted(sh: Shared, id: RequestId, r: Request, n: nat, st: Start)
    requires Kept(sh) && Owns(sh, id, r, n) && st in sh.started
    ensures st.scope != r.scope
  {
  }

  lemma OthersElsewhere(sh: Shared, id: RequestId, r: Request, n: nat)
    requires Kept(sh) && Owns(sh, id, r, n)
    ensures forall st :: st in sh.started ==> st.scope != r.scope && (st.scope, st.attempt) !in sh.freed
  {
    forall st | st in sh.started ensures st.scope != r.scope && (st.scope, st.attempt) !in sh.freed {
      NotFreed(sh, st);
      NothingElseStarted(sh, id, r, n, st);
    }
  }

  lemma AddStartGrows(sh: Shared, id: RequestId, st: Start)
    requires st.maker == id
    ensures Grows(id, sh, sh.(started := sh.started + {st}))
  {
    forall s | s in sh.entries ensures EntryGrows(id, sh.entries[s], sh.entries[s]) { EntryGrowsSelf(id, sh.entries[s]); }
  }

  lemma NewStartKept(sh: Shared, id: RequestId, r: Request, n: nat, st: Start)
    requires Owns(sh, id, r, n) && StartReady(sh, r.scope, n) && (r.MayHold() ==> HoldsIndex(sh, r.scope))
    requires st == Start(r.scope, n, id, r.MayHold())
    ensures StartKept(sh.(started := sh.started + {st}), st)
  {
  }

  lemma StartKeeps(sh: Shared, id: RequestId, r: Request, n: nat)
    requires Kept(sh) && Owns(sh, id, r, n) && StartReady(sh, r.scope, n)
    requires r.MayHold() ==> HoldsIndex(sh, r.scope)
    ensures Keeps(id, sh, sh.(started := sh.started + {Start(r.scope, n, id, r.MayHold())}))
  {
    var st := Start(r.scope, n, id, r.MayHold());
    var sh' := sh.(started := sh.started + {st});
    AddStartGrows(sh, id, st);
    NewStartKept(sh, id, r, n, st);
    forall t | t in sh'.entries ensures EntryKept(sh', t) { EntrySame(sh, sh', t); }
    OthersElsewhere(sh, id, r, n);
    Assemble(sh, sh', id);
  }

  lemma ReplyKeeps(sh: Shared, id: RequestId, p: Reply)
    requires Kept(sh) && ClosedDurably(sh, p.scope) && (p.NotDispatched? ==> HoldsIndex(sh, p.scope))
    ensures Keeps(id, sh, sh.(replies := sh.replies + {p}))
  {
    var sh' := sh.(replies := sh.replies + {p});
    forall t | t in sh'.entries ensures EntryKept(sh', t) { EntrySame(sh, sh', t); }
    forall st | st in sh.started ensures (st.scope, st.attempt) !in sh'.freed { NotFreed(sh, st); }
    Assemble(sh, sh', id);
  }

  /* ---------- A request's own step keeps the store ---------- */

  lemma KeepsThen(id: RequestId, sh: Shared, sh1: Shared, sh2: Shared)
    requires Keeps(id, sh, sh1) && sh2.entries == sh1.entries && sh2.index == sh1.index && sh2.indexDirSynced == sh1.indexDirSynced
    requires sh2.started == sh1.started && sh2.freed == sh1.freed && sh1.replies <= sh2.replies && Kept(sh2)
    ensures Keeps(id, sh, sh2)
  {
  }

  lemma HoldParentKeeps(sh: Shared, id: RequestId, r: Request)
    requires Kept(sh) && r.pc.Holding? && HoldKept(sh, r) && r.pc.hold.SyncParent?
    ensures Keeps(id, sh, ActHold(sh, r).0)
  {
    SyncRootDirKeeps(sh, id);
    if r.pc.after.ToAnswer? {
      var sh1 := SyncRootDir(sh);
      ClosedDurablyGrows(sh, sh1, id, r.scope);
      ReplyKeeps(sh1, id, NotDispatched(r.scope));
      KeepsThen(id, sh, sh1, ActHold(sh, r).0);
    }
  }

  lemma HoldKeeps(sh: Shared, id: RequestId, r: Request)
    requires Kept(sh) && r.pc.Holding? && HoldKept(sh, r)
    ensures Keeps(id, sh, ActHold(sh, r).0)
  {
    SameKeeps(sh, id);
    match r.pc.hold
    case Link => if sh.index.None? { IndexKeeps(sh, id, Some(Index(r.scope, false))); }
    case SyncIndex => IndexKeeps(sh, id, Some(sh.index.value.(nameSynced := true)));
    case SyncParent => HoldParentKeeps(sh, id, r);
    case _ =>
  }

  lemma ReserveKeeps(sh: Shared, id: RequestId, r: Request)
    requires Kept(sh) && r.pc.Reserving?
    ensures Keeps(id, sh, ActReserve(sh, r).0)
  {
    SameKeeps(sh, id);
    match r.pc.reserve
    case PublishEntry =>
      if r.scope !in sh.entries { PublishKeeps(sh, id, r.scope, Reservation(r.content, false, map[], map[], None)); }
    case SyncRoot => SyncRootDirKeeps(sh, id);
    case _ =>
  }

  lemma CloseKeeps(sh: Shared, id: RequestId, r: Request)
    requires Kept(sh) && r.pc.Closing? && CloseKept(sh, r)
    ensures Keeps(id, sh, ActClose(sh, id, r).0)
  {
    SameKeeps(sh, id);
    match r.pc.close
    case LinkClose =>
      if r.pc.n !in sh.entries[r.scope].markers { NewMarkerKeeps(sh, id, r.scope, r.pc.n, Marker(Close, id, true, false)); }
    case SyncClose => SyncEntryDirKeeps(sh, id, r.scope);
    case _ =>
  }

  lemma ClaimKeeps(sh: Shared, id: RequestId, r: Request, c: Choice)
    requires Kept(sh) && r.pc.Claiming? && ClaimKept(sh, id, r) && (r.MayHold() ==> HoldsIndex(sh, r.scope))
    ensures Keeps(id, sh, ActClaim(sh, id, r, c).0)
  {
    SameKeeps(sh, id);
    var e, n := sh.entries[r.scope], r.pc.n;
    match r.pc.claim
    case CreateMarker =>
      if n !in e.markers {
        NewMarkerKeeps(sh, id, r.scope, n, if r.sender.Actor? then Marker(Dispatch, id, true, false) else Marker(Torn, id, false, false));
      }
    case WriteMarker => MarkerKeeps(sh, id, r.scope, n, e.markers[n].(kind := Dispatch));
    case SyncMarker => MarkerKeeps(sh, id, r.scope, n, e.markers[n].(bytesSynced := true));
    case SyncClaim => SyncEntryDirKeeps(sh, id, r.scope);
    case RunSource => if c.Well? { StartKeeps(sh, id, r, n); } else { FreeKeeps(sh, id, r, n); }
  }

  lemma ReleaseKeeps(sh: Shared, id: RequestId, r: Request, c: Choice)
    requires Kept(sh) && r.pc.Releasing? && HasClaim(sh, r) && (r.scope, r.pc.n) in sh.freed
    ensures Keeps(id, sh, ActRelease(sh, r, c).0)
  {
    SameKeeps(sh, id);
    var e, n := sh.entries[r.scope], r.pc.n;
    match r.pc.release
    case CreateAnswer => if n !in e.answers { AnswerKeeps(sh, id, r.scope, n, Answer(false, false, false)); }
    case WriteAnswer => if n in e.answers { AnswerKeeps(sh, id, r.scope, n, e.answers[n].(whole := true)); }
    case SyncAnswer => if n in e.answers { AnswerKeeps(sh, id, r.scope, n, e.answers[n].(bytesSynced := true)); }
    case SyncRelease => SyncEntryDirKeeps(sh, id, r.scope);
  }

  lemma RecordKeeps(sh: Shared, id: RequestId, r: Request)
    requires Kept(sh) && r.pc.Recording? && HasClaim(sh, r) && (r.pc.outcome.Response? ==> SomeStart(sh, r.scope))
    ensures Keeps(id, sh, ActRecord(sh, r).0)
  {
    SameKeeps(sh, id);
    match r.pc.record
    case LinkAction =>
      if sh.entries[r.scope].action.None? { ActionKeeps(sh, id, r.scope, Record(r.pc.outcome, false)); }
    case SyncAction => SyncEntryDirKeeps(sh, id, r.scope);
  }

  lemma SyncedClose(sh: Shared, s: Scope)
    requires Closed(sh, s) && sh.entries[s].nameSynced
    ensures ClosedDurably(SyncEntryDir(sh, s), s)
  {
    var n :| Closes(sh.entries[s], n);
    assert Closes(SyncEntryDir(sh, s).entries[s], n);
  }

  lemma AnswerGivenKeeps(sh: Shared, id: RequestId, r: Request)
    requires Kept(sh) && r.pc.Answering? && HasClaim(sh, r) && Closed(sh, r.scope)
    ensures Keeps(id, sh, ActAnswer(sh, r).0)
  {
    SyncEntryDirKeeps(sh, id, r.scope);
    if !r.pc.notDispatched {
      SyncedClose(sh, r.scope);
      ReplyKeeps(SyncEntryDir(sh, r.scope), id, KeyClosed(r.scope));
    }
  }

  /* ---------- A request's own step keeps the request ---------- */

  lemma LocalClosedKey(r: Request)
    requires LocalOk(r) && (r.made ==> PastHold(r.pc))
    ensures LocalOk(ClosedKey(r))
  {
  }

  lemma LocalProceed(r: Request)
    requires LocalOk(r) && !r.made && !AtForeignHas(r.pc)
    ensures LocalOk(Proceed(r))
  {
  }

  lemma LocalStart(sh: Shared, r: Request)
    requires LocalOk(r) && EntryFound(sh, r) && r.pc.Starting?
    ensures LocalOk(ActStart(sh, r))
  {
    if r.pc.start.ReconcileHas? { LocalProceed(r); }
  }

  lemma LocalHold(sh: Shared, r: Request)
    requires LocalOk(r) && r.pc.Holding?
    ensures LocalOk(ActHold(sh, r).1)
  {
    match r.pc.hold
    case Read =>
    case Link =>
    case Reread =>
    case SyncIndex =>
    case SyncParent =>
  }

  lemma LocalReserve(sh: Shared, r: Request)
    requires LocalOk(r) && EntryFound(sh, r) && r.pc.Reserving?
    ensures LocalOk(ActReserve(sh, r).1)
  {
    match r.pc.reserve
    case LookEntry =>
    case PublishEntry =>
    case SyncRoot =>
    case OpenEntry =>
  }

  lemma LocalAttempt(e: Reservation, r: Request)
    requires LocalOk(r) && r.pc.Attempting?
    ensures LocalOk(ActAttempt(e, r))
  {
    LocalClosedKey(r);
  }

  lemma LocalClose(sh: Shared, id: RequestId, r: Request)
    requires LocalOk(r) && r.pc.Closing? && r.scope in sh.entries
    ensures LocalOk(ActClose(sh, id, r).1)
  {
    LocalClosedKey(r);
  }

  lemma LocalClaim(sh: Shared, id: RequestId, r: Request, c: Choice)
    requires LocalOk(r) && r.pc.Claiming? && r.scope in sh.entries
    ensures LocalOk(ActClaim(sh, id, r, c).1)
  {
    match r.pc.claim
    case CreateMarker =>
    case WriteMarker =>
    case SyncMarker =>
    case SyncClaim =>
    case RunSource =>
  }

  lemma LocalRelease(sh: Shared, r: Request, c: Choice)
    requires LocalOk(r) && r.pc.Releasing? && r.scope in sh.entries
    ensures LocalOk(ActRelease(sh, r, c).1)
  {
  }

  /* What the request keeps beside LocalOk, for each journal operation. */

  ghost predicate Good(sh: Shared, id: RequestId, out: (Shared, Request)) {
    Keeps(id, sh, out.0) && RequestKept(out.0, id, out.1)
  }

  lemma DoneGood(sh: Shared, id: RequestId, r: Request, v: Verdict)
    requires FlagsKept(sh, r) && !(r.late && FromEvidence(Done(v)))
    ensures RequestKept(sh, id, r.At(Done(v)))
  {
  }

  /** Any request that has opened its reservation and found it closed may answer so. */
  lemma ClosedKeyGood(sh: Shared, id: RequestId, r: Request)
    requires FlagsKept(sh, r) && UnstartedKept(sh, id, r) && (r.pc.Scanning? || Opened(r.pc))
    requires !r.pc.Ran? && !r.pc.Recording? && HasClaim(sh, r) && Closed(sh, r.scope)
    ensures RequestKept(sh, id, ClosedKey(r))
  {
    LocalClosedKey(r);
  }

  lemma ReconcileHasGood(sh: Shared, id: RequestId, r: Request)
    requires RequestKept(sh, id, r) && r.pc.Starting? && r.pc.start.ReconcileHas?
    ensures RequestKept(sh, id, ActStart(sh, r))
  {
    LocalStart(sh, r);
  }

  lemma StartGood(sh: Shared, id: RequestId, r: Request)
    requires RequestKept(sh, id, r) && r.pc.Starting? && !r.pc.start.ReconcileHas?
    ensures RequestKept(sh, id, ActStart(sh, r))
  {
    LocalStart(sh, r);
    match r.pc.start
    case ReadIndex =>
    case ForeignHas =>
    case SenderHas =>
  }

  lemma ReserveClosedGood(sh: Shared, id: RequestId, r: Request)
    requires RequestKept(sh, id, r) && r.pc.ReserveClosed?
    requires Grows(id, sh, ActReserveClosed(sh, id, r).0)
    ensures RequestKept(ActReserveClosed(sh, id, r).0, id, ActReserveClosed(sh, id, r).1)
  {
    var sh' := ActReserveClosed(sh, id, r).0;
    LocalProceed(r);
    FlagsUndisturbed(sh, sh', id, r);
  }

  lemma HoldReadGood(sh: Shared, id: RequestId, r: Request)
    requires RequestKept(sh, id, r) && r.pc.Holding? && (r.pc.hold.Read? || r.pc.hold.Reread? || (r.pc.hold.Link? && sh.index.Some?))
    ensures ActHold(sh, r).0 == sh && RequestKept(sh, id, ActHold(sh, r).1)
  {
    LocalHold(sh, r);
  }

  lemma HoldLinkGood(sh: Shared, id: RequestId, r: Request)
    requires RequestKept(sh, id, r) && r.pc.Holding? && r.pc.hold.Link? && sh.index.None?
    requires Grows(id, sh, ActHold(sh, r).0)
    ensures RequestKept(ActHold(sh, r).0, id, ActHold(sh, r).1)
  {
    LocalHold(sh, r);
    FlagsUndisturbed(sh, ActHold(sh, r).0, id, r);
  }

  lemma HoldSyncIndexGood(sh: Shared, id: RequestId, r: Request)
    requires RequestKept(sh, id, r) && r.pc.Holding? && r.pc.hold.SyncIndex?
    requires Grows(id, sh, ActHold(sh, r).0)
    ensures RequestKept(ActHold(sh, r).0, id, ActHold(sh, r).1)
  {
    LocalHold(sh, r);
    FlagsUndisturbed(sh, ActHold(sh, r).0, id, r);
  }

  lemma HeldToReserve(sh: Shared, id: RequestId, r: Request)
    requires RequestKept(sh, id, r) && r.pc.Holding? && r.pc.hold.SyncParent? && r.pc.after.ToReserve?
    requires Grows(id, sh, ActHold(sh, r).0)
    ensures RequestKept(ActHold(sh, r).0, id, ActHold(sh, r).1)
  {
    LocalHold(sh, r);
    FlagsUndisturbed(sh, ActHold(sh, r).0, id, r);
  }

  lemma HeldToEvidence(sh: Shared, id: RequestId, r: Request)
    requires RequestKept(sh, id, r) && r.pc.Holding? && r.pc.hold.SyncParent? && r.pc.after.ToEvidence?
    requires Grows(id, sh, ActHold(sh, r).0)
    ensures RequestKept(ActHold(sh, r).0, id, ActHold(sh, r).1)
  {
    LocalHold(sh, r);
    FlagsUndisturbed(sh, ActHold(sh, r).0, id, r);
  }

  lemma HeldToAnswer(sh: Shared, id: RequestId, r: Request)
    requires RequestKept(sh, id, r) && r.pc.Holding? && r.pc.hold.SyncParent? && r.pc.after.ToAnswer?
    requires Grows(id, sh, ActHold(sh, r).0)
    ensures RequestKept(ActHold(sh, r).0, id, ActHold(sh, r).1)
  {
    LocalHold(sh, r);
    FlagsUndisturbed(sh, ActHold(sh, r).0, id, r);
  }

  lemma HoldSyncParentGood(sh: Shared, id: RequestId, r: Request)
    requires RequestKept(sh, id, r) && r.pc.Holding? && r.pc.hold.SyncParent?
    requires Grows(id, sh, ActHold(sh, r).0)
    ensures RequestKept(ActHold(sh, r).0, id, ActHold(sh, r).1)
  {
    match r.pc.after
    case ToReserve => HeldToReserve(sh, id, r);
    case ToEvidence => HeldToEvidence(sh, id, r);
    case ToAnswer => HeldToAnswer(sh, id, r);
  }

  lemma HoldForeignGood(sh: Shared, id: RequestId, r: Request)
    requires RequestKept(sh, id, r) && r.pc.HoldForeignHas?
    ensures RequestKept(sh, id, ActHoldForeign(sh, r))
  {
  }

  lemma LookEntryGood(sh: Shared, id: RequestId, r: Request)
    requires RequestKept(sh, id, r) && r.pc.Reserving? && (r.pc.reserve.LookEntry? || r.scope in sh.entries) && Makes(r.pc)
    ensures ActReserve(sh, r).0 == sh && RequestKept(sh, id, ActReserve(sh, r).1)
  {
    LocalReserve(sh, r);
  }

  lemma PublishGood(sh: Shared, id: RequestId, r: Request)
    requires RequestKept(sh, id, r) && r.pc.Reserving? && r.pc.reserve.PublishEntry? && r.scope !in sh.entries
    requires Grows(id, sh, ActReserve(sh, r).0)
    ensures RequestKept(ActReserve(sh, r).0, id, ActReserve(sh, r).1)
  {
    LocalReserve(sh, r);
    FlagsUndisturbed(sh, ActReserve(sh, r).0, id, r);
  }

  lemma SyncRootGood(sh: Shared, id: RequestId, r: Request)
    requires RequestKept(sh, id, r) && r.pc.Reserving? && r.pc.reserve.SyncRoot?
    requires Grows(id, sh, ActReserve(sh, r).0)
    ensures RequestKept(ActReserve(sh, r).0, id, ActReserve(sh, r).1)
  {
    LocalReserve(sh, r);
    FlagsUndisturbed(sh, ActReserve(sh, r).0, id, r);
  }

  lemma OpenEntryGood(sh: Shared, id: RequestId, r: Request)
    requires RequestKept(sh, id, r) && r.pc.Reserving? && r.pc.reserve.OpenEntry? && EntryKept(sh, r.scope)
    ensures ActReserve(sh, r).0 == sh && RequestKept(sh, id, ActReserve(sh, r).1)
  {
    LocalReserve(sh, r);
    if r.late {
      var n :| Closes(sh.entries[r.scope], n);
      assert 1 <= n;
    }
  }

  lemma ScanGood(sh: Shared, id: RequestId, r: Request)
    requires RequestKept(sh, id, r) && r.pc.Scanning? && EntryKept(sh, r.scope)
    ensures RequestKept(sh, id, ActScan(sh, r))
  {
    var k := r.pc.k;
    if Closes(sh.entries[r.scope], k) {
      ClosedKeyGood(sh, id, r);
    } else if r.late {
      var n :| k <= n && Closes(sh.entries[r.scope], n);
      assert k + 1 <= n <= ATTEMPTS;
    }
  }

  lemma ReadActionGood(sh: Shared, id: RequestId, r: Request)
    requires RequestKept(sh, id, r) && r.pc.ReadAction?
    ensures RequestKept(sh, id, ActReadAction(sh, r))
  {
  }

  lemma LookMarkerGood(sh: Shared, id: RequestId, r: Request)
    requires RequestKept(sh, id, r) && r.pc.Attempting? && r.pc.look.LookMarker?
    ensures RequestKept(sh, id, ActAttempt(sh.entries[r.scope], r))
  {
    LocalAttempt(sh.entries[r.scope], r);
  }

  lemma ReadMarkerGood(sh: Shared, id: RequestId, r: Request)
    requires RequestKept(sh, id, r) && r.pc.Attempting? && !r.pc.look.LookMarker?
    ensures RequestKept(sh, id, ActAttempt(sh.entries[r.scope], r))
  {
    LocalAttempt(sh.entries[r.scope], r);
    if Closes(sh.entries[r.scope], r.pc.n) { ClosedKeyGood(sh, id, r); }
  }

  lemma LookLaterGood(sh: Shared, id: RequestId, r: Request)
    requires RequestKept(sh, id, r) && r.pc.Closing?
    requires r.pc.close.LookLater? || (r.pc.close.LinkClose? && r.pc.n in sh.entries[r.scope].markers)
    ensures ActClose(sh, id, r).0 == sh && RequestKept(sh, id, ActClose(sh, id, r).1)
  {
    LocalClose(sh, id, r);
  }

  lemma LinkCloseGood(sh: Shared, id: RequestId, r: Request)
    requires RequestKept(sh, id, r) && r.pc.Closing? && r.pc.close.LinkClose? && r.pc.n !in sh.entries[r.scope].markers
    requires Grows(id, sh, ActClose(sh, id, r).0)
    ensures RequestKept(ActClose(sh, id, r).0, id, ActClose(sh, id, r).1)
  {
    LocalClose(sh, id, r);
    FlagsUndisturbed(sh, ActClose(sh, id, r).0, id, r);
  }

  lemma SyncCloseGood(sh: Shared, id: RequestId, r: Request)
    requires RequestKept(sh, id, r) && r.pc.Closing? && r.pc.close.SyncClose?
    requires Grows(id, sh, ActClose(sh, id, r).0)
    ensures RequestKept(ActClose(sh, id, r).0, id, ActClose(sh, id, r).1)
  {
    LocalClose(sh, id, r);
    FlagsUndisturbed(sh, ActClose(sh, id, r).0, id, r);
    assert Closes(ActClose(sh, id, r).0.entries[r.scope], r.pc.n);
    ClosedKeyGood(ActClose(sh, id, r).0, id, r);
  }

  lemma ReadTakenGood(sh: Shared, id: RequestId, r: Request)
    requires RequestKept(sh, id, r) && r.pc.ReadTaken?
    ensures RequestKept(sh, id, ActReadTaken(sh.entries[r.scope], r))
  {
    if Closes(sh.entries[r.scope], r.pc.n) { ClosedKeyGood(sh, id, r); }
  }

  lemma RescanGood(sh: Shared, id: RequestId, r: Request)
    requires RequestKept(sh, id, r) && r.pc.Rescanning?
    ensures RequestKept(sh, id, ActRescan(sh.entries[r.scope], r))
  {
    if Closes(sh.entries[r.scope], r.pc.k) { ClosedKeyGood(sh, id, r); }
  }

  lemma CreateMarkerGood(sh: Shared, id: RequestId, r: Request, c: Choice)
    requires RequestKept(sh, id, r) && r.pc.Claiming? && r.pc.claim.CreateMarker?
    requires r.pc.n !in sh.entries[r.scope].markers ==> (r.scope, r.pc.n) !in sh.freed
    requires Grows(id, sh, ActClaim(sh, id, r, c).0)
    ensures RequestKept(ActClaim(sh, id, r, c).0, id, ActClaim(sh, id, r, c).1)
  {
    LocalClaim(sh, id, r, c);
    FlagsUndisturbed(sh, ActClaim(sh, id, r, c).0, id, r);
  }

  lemma SyncMarkerGood(sh: Shared, id: RequestId, r: Request, c: Choice)
    requires RequestKept(sh, id, r) && r.pc.Claiming? && (r.pc.claim.WriteMarker? || r.pc.claim.SyncMarker?)
    requires Grows(id, sh, ActClaim(sh, id, r, c).0)
    ensures RequestKept(ActClaim(sh, id, r, c).0, id, ActClaim(sh, id, r, c).1)
  {
    LocalClaim(sh, id, r, c);
    FlagsUndisturbed(sh, ActClaim(sh, id, r, c).0, id, r);
  }

  lemma SyncClaimGood(sh: Shared, id: RequestId, r: Request, c: Choice)
    requires RequestKept(sh, id, r) && r.pc.Claiming? && r.pc.claim.SyncClaim?
    requires Grows(id, sh, ActClaim(sh, id, r, c).0)
    ensures RequestKept(ActClaim(sh, id, r, c).0, id, ActClaim(sh, id, r, c).1)
  {
    LocalClaim(sh, id, r, c);
    FlagsUndisturbed(sh, ActClaim(sh, id, r, c).0, id, r);
  }

  lemma RunGood(sh: Shared, id: RequestId, r: Request, c: Choice)
    requires RequestKept(sh, id, r) && r.pc.Claiming? && r.pc.claim.RunSource?
    requires Grows(id, sh, ActClaim(sh, id, r, c).0)
    ensures RequestKept(ActClaim(sh, id, r, c).0, id, ActClaim(sh, id, r, c).1)
  {
    LocalClaim(sh, id, r, c);
    FlagsUndisturbed(sh, ActClaim(sh, id, r, c).0, id, r);
    if c.Well? {
      assert Start(r.scope, r.pc.n, id, r.MayHold()) in ActClaim(sh, id, r, c).0.started;
    }
  }

  lemma UncertainGood(sh: Shared, id: RequestId, r: Request)
    requires FlagsKept(sh, r) && HasClaim(sh, r) && Dispatches(r.pc)
    ensures RequestKept(sh, id, r.At(Recording(LinkAction, Uncertain)))
  {
  }

  lemma ReleaseOnGood(sh: Shared, id: RequestId, r: Request)
    requires RequestKept(sh, id, r) && r.pc.Releasing? && Grows(id, sh, ActRelease(sh, r, Well).0)
    ensures RequestKept(ActRelease(sh, r, Well).0, id, ActRelease(sh, r, Well).1)
  {
    var sh' := ActRelease(sh, r, Well).0;
    LocalRelease(sh, r, Well);
    FlagsUndisturbed(sh, sh', id, r);
    match r.pc.release
    case CreateAnswer => if r.pc.n in sh.entries[r.scope].answers { UncertainGood(sh, id, r); }
    case WriteAnswer => if r.pc.n !in sh.entries[r.scope].answers { DoneGood(sh, id, r, Refused); }
    case SyncAnswer => if r.pc.n !in sh.entries[r.scope].answers { DoneGood(sh, id, r, Refused); }
    case SyncRelease => DoneGood(sh', id, r, SaidRetry);
  }

  lemma ReleaseGood(sh: Shared, id: RequestId, r: Request, c: Choice)
    requires RequestKept(sh, id, r) && r.pc.Releasing? && Grows(id, sh, ActRelease(sh, r, c).0)
    ensures RequestKept(ActRelease(sh, r, c).0, id, ActRelease(sh, r, c).1)
  {
    if c.Ill? { UncertainGood(sh, id, r); } else { ReleaseOnGood(sh, id, r); }
  }

  lemma RecordedGood(sh: Shared, id: RequestId, r: Request)
    requires RequestKept(sh, id, r) && r.pc.Recording? && r.pc.record.SyncAction?
    requires Grows(id, sh, ActRecord(sh, r).0)
    ensures RequestKept(ActRecord(sh, r).0, id, ActRecord(sh, r).1)
  {
    var sh' := ActRecord(sh, r).0;
    FlagsUndisturbed(sh, sh', id, r);
    DoneGood(sh', id, r, Recorded(r.pc.outcome));
  }

  lemma RecordGood(sh: Shared, id: RequestId, r: Request)
    requires RequestKept(sh, id, r) && r.pc.Recording?
    requires Grows(id, sh, ActRecord(sh, r).0)
    ensures RequestKept(ActRecord(sh, r).0, id, ActRecord(sh, r).1)
  {
    if r.pc.record.SyncAction? {
      RecordedGood(sh, id, r);
    } else {
      var sh' := ActRecord(sh, r).0;
      FlagsUndisturbed(sh, sh', id, r);
      if sh.entries[r.scope].action.Some? { DoneGood(sh', id, r, Refused); }
    }
  }

  lemma NotDispatchedGood(sh: Shared, id: RequestId, r: Request)
    requires RequestKept(sh, id, r) && r.pc.Answering? && r.pc.notDispatched
    requires Grows(id, sh, ActAnswer(sh, r).0)
    ensures RequestKept(ActAnswer(sh, r).0, id, ActAnswer(sh, r).1)
  {
    FlagsUndisturbed(sh, ActAnswer(sh, r).0, id, r);
    SyncedClose(sh, r.scope);
  }

  lemma AnswerGood(sh: Shared, id: RequestId, r: Request)
    requires RequestKept(sh, id, r) && r.pc.Answering?
    requires Grows(id, sh, ActAnswer(sh, r).0)
    ensures RequestKept(ActAnswer(sh, r).0, id, ActAnswer(sh, r).1)
  {
    if r.pc.notDispatched {
      NotDispatchedGood(sh, id, r);
    } else {
      var sh' := ActAnswer(sh, r).0;
      FlagsUndisturbed(sh, sh', id, r);
      DoneGood(sh', id, r, SaidClosed);
    }
  }

  /** A claim by a request that may hold the first scope is made holding it. */
  lemma ClaimHolds(sh: Shared, r: Request)
    requires FlagsKept(sh, r) && r.pc.Claiming? && r.MayHold()
    ensures HoldsIndex(sh, r.scope)
  {
  }

  lemma NewNameNotFreed(sh: Shared, s: Scope, n: nat)
    requires Kept(sh) && s in sh.entries && n !in sh.entries[s].markers
    ensures (s, n) !in sh.freed
  {
    assert (s, n) in sh.freed ==> Durable(sh, (s, n).0, (s, n).1);
  }

  lemma HoldGood(sh: Shared, id: RequestId, r: Request)
    requires Kept(sh) && RequestKept(sh, id, r) && r.pc.Holding? && Grows(id, sh, ActHold(sh, r).0)
    ensures RequestKept(ActHold(sh, r).0, id, ActHold(sh, r).1)
  {
    match r.pc.hold
    case Read => HoldReadGood(sh, id, r);
    case Link => if sh.index.None? { HoldLinkGood(sh, id, r); } else { HoldReadGood(sh, id, r); }
    case Reread => HoldReadGood(sh, id, r);
    case SyncIndex => HoldSyncIndexGood(sh, id, r);
    case SyncParent => HoldSyncParentGood(sh, id, r);
  }

  lemma HoldStep(sh: Shared, id: RequestId, r: Request, c: Choice)
    requires Kept(sh) && RequestKept(sh, id, r) && r.pc.Holding?
    ensures Good(sh, id, Act(sh, id, r, c))
  {
    HoldKeeps(sh, id, r);
    HoldGood(sh, id, r);
  }

  lemma ReserveGood(sh: Shared, id: RequestId, r: Request)
    requires Kept(sh) && RequestKept(sh, id, r) && r.pc.Reserving? && Grows(id, sh, ActReserve(sh, r).0)
    ensures RequestKept(ActReserve(sh, r).0, id, ActReserve(sh, r).1)
  {
    match r.pc.reserve
    case LookEntry => LookEntryGood(sh, id, r);
    case PublishEntry => if r.scope in sh.entries { LookEntryGood(sh, id, r); } else { PublishGood(sh, id, r); }
    case SyncRoot => SyncRootGood(sh, id, r);
    case OpenEntry => OpenEntryGood(sh, id, r);
  }

  lemma ReserveStep(sh: Shared, id: RequestId, r: Request, c: Choice)
    requires Kept(sh) && RequestKept(sh, id, r) && r.pc.Reserving?
    ensures Good(sh, id, Act(sh, id, r, c))
  {
    ReserveKeeps(sh, id, r);
    ReserveGood(sh, id, r);
  }

  lemma CloseGood(sh: Shared, id: RequestId, r: Request)
    requires Kept(sh) && RequestKept(sh, id, r) && r.pc.Closing? && Grows(id, sh, ActClose(sh, id, r).0)
    ensures RequestKept(ActClose(sh, id, r).0, id, ActClose(sh, id, r).1)
  {
    match r.pc.close
    case LookLater(_) => LookLaterGood(sh, id, r);
    case LinkClose =>
      if r.pc.n in sh.entries[r.scope].markers { LookLaterGood(sh, id, r); } else { LinkCloseGood(sh, id, r); }
    case SyncClose => SyncCloseGood(sh, id, r);
  }

  lemma CloseStep(sh: Shared, id: RequestId, r: Request, c: Choice)
    requires Kept(sh) && RequestKept(sh, id, r) && r.pc.Closing?
    ensures Good(sh, id, Act(sh, id, r, c))
  {
    CloseKeeps(sh, id, r);
    CloseGood(sh, id, r);
  }

  lemma ClaimGood(sh: Shared, id: RequestId, r: Request, c: Choice)
    requires Kept(sh) && RequestKept(sh, id, r) && r.pc.Claiming? && Grows(id, sh, ActClaim(sh, id, r, c).0)
    ensures RequestKept(ActClaim(sh, id, r, c).0, id, ActClaim(sh, id, r, c).1)
  {
    match r.pc.claim
    case CreateMarker =>
      if r.pc.n !in sh.entries[r.scope].markers { NewNameNotFreed(sh, r.scope, r.pc.n); }
      CreateMarkerGood(sh, id, r, c);
    case WriteMarker => SyncMarkerGood(sh, id, r, c);
    case SyncMarker => SyncMarkerGood(sh, id, r, c);
    case SyncClaim => SyncClaimGood(sh, id, r, c);
    case RunSource => RunGood(sh, id, r, c);
  }

  lemma ClaimStep(sh: Shared, id: RequestId, r: Request, c: Choice)
    requires Kept(sh) && RequestKept(sh, id, r) && r.pc.Claiming?
    ensures Good(sh, id, Act(sh, id, r, c))
  {
    if r.MayHold() { ClaimHolds(sh, r); }
    ClaimKeeps(sh, id, r, c);
    ClaimGood(sh, id, r, c);
  }

  lemma ReserveClosedStep(sh: Shared, id: RequestId, r: Request, c: Choice)
    requires Kept(sh) && RequestKept(sh, id, r) && r.pc.ReserveClosed?
    ensures Good(sh, id, Act(sh, id, r, c))
  {
    SameKeeps(sh, id);
    if r.scope !in sh.entries { PublishKeeps(sh, id, r.scope, ClosedEntry(id, r.content)); }
    ReserveClosedGood(sh, id, r);
  }

  /** Steps that only read. */
  lemma ReadStep(sh: Shared, id: RequestId, r: Request, r': Request)
    requires Kept(sh) && RequestKept(sh, id, r')
    ensures Good(sh, id, (sh, r'))
  {
    SameKeeps(sh, id);
  }

  lemma StartStep(sh: Shared, id: RequestId, r: Request, c: Choice)
    requires Kept(sh) && RequestKept(sh, id, r) && r.pc.Starting?
    ensures Good(sh, id, Act(sh, id, r, c))
  {
    if r.pc.start.ReconcileHas? { ReconcileHasGood(sh, id, r); } else { StartGood(sh, id, r); }
    ReadStep(sh, id, r, ActStart(sh, r));
  }

  lemma HoldForeignStep(sh: Shared, id: RequestId, r: Request, c: Choice)
    requires Kept(sh) && RequestKept(sh, id, r) && r.pc.HoldForeignHas?
    ensures Good(sh, id, Act(sh, id, r, c))
  {
    HoldForeignGood(sh, id, r);
    ReadStep(sh, id, r, ActHoldForeign(sh, r));
  }

  lemma ScanStep(sh: Shared, id: RequestId, r: Request, c: Choice)
    requires Kept(sh) && RequestKept(sh, id, r) && r.pc.Scanning?
    ensures Good(sh, id, Act(sh, id, r, c))
  {
    ScanGood(sh, id, r);
    ReadStep(sh, id, r, ActScan(sh, r));
  }

  lemma ReadActionStep(sh: Shared, id: RequestId, r: Request, c: Choice)
    requires Kept(sh) && RequestKept(sh, id, r) && r.pc.ReadAction?
    ensures Good(sh, id, Act(sh, id, r, c))
  {
    ReadActionGood(sh, id, r);
    ReadStep(sh, id, r, ActReadAction(sh, r));
  }

  lemma AttemptStep(sh: Shared, id: RequestId, r: Request, c: Choice)
    requires Kept(sh) && RequestKept(sh, id, r) && r.pc.Attempting?
    ensures Good(sh, id, Act(sh, id, r, c))
  {
    if r.pc.look.LookMarker? { LookMarkerGood(sh, id, r); } else { ReadMarkerGood(sh, id, r); }
    ReadStep(sh, id, r, ActAttempt(sh.entries[r.scope], r));
  }

  lemma ReadTakenStep(sh: Shared, id: RequestId, r: Request, c: Choice)
    requires Kept(sh) && RequestKept(sh, id, r) && r.pc.ReadTaken?
    ensures Good(sh, id, Act(sh, id, r, c))
  {
    ReadTakenGood(sh, id, r);
    ReadStep(sh, id, r, ActReadTaken(sh.entries[r.scope], r));
  }

  lemma ReleaseStep(sh: Shared, id: RequestId, r: Request, c: Choice)
    requires Kept(sh) && RequestKept(sh, id, r) && r.pc.Releasing?
    ensures Good(sh, id, Act(sh, id, r, c))
  {
    ReleaseKeeps(sh, id, r, c);
    ReleaseGood(sh, id, r, c);
  }

  lemma RanStep(sh: Shared, id: RequestId, r: Request, c: Choice)
    requires Kept(sh) && RequestKept(sh, id, r) && r.pc.Ran?
    ensures Good(sh, id, Act(sh, id, r, c))
  {
    ReadStep(sh, id, r, Act(sh, id, r, c).1);
  }

  lemma RescanStep(sh: Shared, id: RequestId, r: Request, c: Choice)
    requires Kept(sh) && RequestKept(sh, id, r) && r.pc.Rescanning?
    ensures Good(sh, id, Act(sh, id, r, c))
  {
    RescanGood(sh, id, r);
    ReadStep(sh, id, r, ActRescan(sh.entries[r.scope], r));
  }

  lemma RecordStep(sh: Shared, id: RequestId, r: Request, c: Choice)
    requires Kept(sh) && RequestKept(sh, id, r) && r.pc.Recording?
    ensures Good(sh, id, Act(sh, id, r, c))
  {
    RecordKeeps(sh, id, r);
    RecordGood(sh, id, r);
  }

  lemma AnswerStep(sh: Shared, id: RequestId, r: Request, c: Choice)
    requires Kept(sh) && RequestKept(sh, id, r) && r.pc.Answering?
    ensures Good(sh, id, Act(sh, id, r, c))
  {
    AnswerGivenKeeps(sh, id, r);
    AnswerGood(sh, id, r);
  }

  /** Every step of a request keeps the store and the request, and changes the store only
      as one step of that request may. */
  /** The steps before the reservation's dispatch state is looked at. */
  predicate Early(pc: PC) {
    pc.Starting? || pc.ReserveClosed? || pc.Holding? || pc.HoldForeignHas? || pc.Reserving? || pc.Scanning? || pc.ReadAction?
  }

  lemma EarlyStep(sh: Shared, id: RequestId, r: Request, c: Choice)
    requires Kept(sh) && RequestKept(sh, id, r) && Early(r.pc)
    ensures Good(sh, id, Act(sh, id, r, c))
  {
    match r.pc
    case Starting(_) => StartStep(sh, id, r, c);
    case ReserveClosed => ReserveClosedStep(sh, id, r, c);
    case Holding(_, _) => HoldStep(sh, id, r, c);
    case HoldForeignHas => HoldForeignStep(sh, id, r, c);
    case Reserving(_) => ReserveStep(sh, id, r, c);
    case Scanning(_) => ScanStep(sh, id, r, c);
    case ReadAction => ReadActionStep(sh, id, r, c);
  }

  lemma DispatchStep(sh: Shared, id: RequestId, r: Request, c: Choice)
    requires Kept(sh) && RequestKept(sh, id, r) && (r.pc.Attempting? || r.pc.Closing? || r.pc.ReadTaken? || r.pc.Claiming? || r.pc.Releasing?)
    ensures Good(sh, id, Act(sh, id, r, c))
  {
    match r.pc
    case Attempting(_, _) => AttemptStep(sh, id, r, c);
    case Closing(_, _) => CloseStep(sh, id, r, c);
    case ReadTaken(_) => ReadTakenStep(sh, id, r, c);
    case Claiming(_, _) => ClaimStep(sh, id, r, c);
    case Releasing(_, _) => ReleaseStep(sh, id, r, c);
  }

  lemma LateStep(sh: Shared, id: RequestId, r: Request, c: Choice)
    requires Kept(sh) && RequestKept(sh, id, r) && (r.pc.Ran? || r.pc.Rescanning? || r.pc.Recording? || r.pc.Answering? || r.pc.Done?)
    ensures Good(sh, id, Act(sh, id, r, c))
  {
    match r.pc
    case Ran(_) => RanStep(sh, id, r, c);
    case Rescanning(_) => RescanStep(sh, id, r, c);
    case Recording(_, _) => RecordStep(sh, id, r, c);
    case Answering(_) => AnswerStep(sh, id, r, c);
    case Done(_) => ReadStep(sh, id, r, r);
  }

  lemma EveryStep(sh: Shared, id: RequestId, r: Request, c: Choice)
    requires Kept(sh) && RequestKept(sh, id, r)
    ensures Good(sh, id, Act(sh, id, r, c))
  {
    if Early(r.pc) { EarlyStep(sh, id, r, c); }
    else if r.pc.Ran? || r.pc.Rescanning? || r.pc.Recording? || r.pc.Answering? || r.pc.Done? { LateStep(sh, id, r, c); }
    else { DispatchStep(sh, id, r, c); }
  }
}
