/** What a keyed request is answered when nobody disturbs it, decided at once from the store it finds:
    a reference for the whole of the step machine. */
module JournalReference {
  import opened Wrappers
  import opened Journal
  import opened Claim

  predicate FirstIsAnothers(sh: Shared, r: Request) { sh.index.Some? && sh.index.value.scope != r.scope }

  /** The reservation of the request's scope holds its content and a record of this outcome. */
  ghost predicate Retains(sh: Shared, r: Request, outcome: Outcome) {
    r.scope in sh.entries && sh.entries[r.scope].content == r.content
    && sh.entries[r.scope].action.Some? && sh.entries[r.scope].action.value.outcome == outcome
  }

  predicate FirstIsOwn(sh: Shared, r: Request) { sh.index.Some? && sh.index.value.scope == r.scope }

  /** A closed key's answer. */
  function ClosedVerdict(r: Request, foreign: bool, indexed: bool): Verdict {
    if foreign then ScopeConflict
    else if r.sender.Other? && !(r.reconcile && indexed) then ActorOnly
    else if r.reconcile then SaidNotDispatched
    else SaidClosed
  }

  /** The answer where attempt n is free. */
  function FreeVerdict(e: Reservation, r: Request, foreign: bool, n: nat): Verdict {
    if foreign then ScopeConflict
    else if r.sender.Other? then ActorOnly
    else if !r.reconcile then Recorded(Response)
    else if NoneAbove(e, n) then SaidNotDispatched
    else Recorded(Uncertain)
  }

  /** The answer where nothing is retained and nothing closed: by the first attempt not answered. */
  function AttemptVerdict(e: Reservation, r: Request, foreign: bool): Verdict {
    match AttemptFrom(e, 1)
    case TooMany => Exhausted
    case Free(n) => FreeVerdict(e, r, foreign, n)
    case _ => Recorded(Uncertain)
  }

  /** The answer from a reservation found there: a conflict, a close, what is retained, or what its
      attempts say. */
  ghost function EntryVerdict(e: Reservation, r: Request, foreign: bool, indexed: bool): Verdict {
    if e.content != r.content then KeyConflict
    else if AnyClose(e) then ClosedVerdict(r, foreign, indexed)
    else if e.action.Some? then Replayed(e.action.value.outcome)
    else AttemptVerdict(e, r, foreign)
  }

  /** The whole decision, from the store as the request finds it and the program doing well. */
  ghost function Expected(sh: Shared, r: Request): Verdict {
    var foreign, indexed := FirstIsAnothers(sh, r), FirstIsOwn(sh, r);
    if r.scope in sh.entries then EntryVerdict(sh.entries[r.scope], r, foreign, indexed)
    else if foreign then ScopeConflict
    else if r.sender.Other? then ActorOnly
    else if !r.reconcile then Recorded(Response)
    else if indexed then OutcomeUnknown
    else SaidNotDispatched
  }

  /** The program the request starts, if it comes to start one. */
  ghost function EntryStarts(e: Reservation, id: RequestId, r: Request, foreign: bool): set<Start> {
    if e.content != r.content || AnyClose(e) || e.action.Some? || foreign || r.sender.Other? || r.reconcile then {}
    else match AttemptFrom(e, 1)
      case Free(n) => {Start(r.scope, n, id, r.MayHold())}
      case _ => {}
  }

  ghost function ExpectedStarts(sh: Shared, id: RequestId, r: Request): set<Start> {
    if r.scope in sh.entries then EntryStarts(sh.entries[r.scope], id, r, FirstIsAnothers(sh, r))
    else if FirstIsAnothers(sh, r) || r.sender.Other? || r.reconcile then {}
    else {Start(r.scope, 1, id, r.MayHold())}
  }

  /* ---------- Ending in a verdict ---------- */

  /** What a verdict leaves in the store. */
  ghost predicate Leaves(sh: Shared, r: Request, v: Verdict) {
    && (v.Recorded? ==> Retains(sh, r, v.outcome))
    && (v.SaidNotDispatched? ==> NotDispatched(r.scope) in sh.replies)
    && (v.SaidClosed? ==> KeyClosed(r.scope) in sh.replies)
  }

  ghost predicate Finished(out: (Shared, Request), v: Verdict, st: set<Start>) {
    out.1.pc == Done(v) && out.0.started == st && Leaves(out.0, out.1, v)
  }

  /** Alone, the request comes to this verdict, with these programs started in all. */
  ghost predicate Ends(sh: Shared, id: RequestId, r: Request, v: Verdict, st: set<Start>) {
    exists k: nat, out :: Leads(sh, id, r, k, out) && Finished(out, v, st)
  }

  lemma Ended(sh: Shared, id: RequestId, r: Request, v: Verdict)
    requires r.pc == Done(v) && Leaves(sh, r, v)
    ensures Ends(sh, id, r, v, sh.started)
  {
    NoStep(sh, id, r);
  }

  lemma Back(sh: Shared, id: RequestId, r: Request, sh1: Shared, r1: Request, v: Verdict, st: set<Start>)
    requires Act(sh, id, r, Well) == (sh1, r1) && Ends(sh1, id, r1, v, st)
    ensures Ends(sh, id, r, v, st)
  {
    var k: nat, out :| Leads(sh1, id, r1, k, out) && Finished(out, v, st);
    OneStep(sh, id, r, sh1, r1, k, out);
  }

  /* A step backwards of each operation, by its own function. */

  lemma StartBack(sh: Shared, id: RequestId, r: Request, r1: Request, v: Verdict, st: set<Start>)
    requires r.pc.Starting? && ActStart(sh, r) == r1 && Ends(sh, id, r1, v, st)
    ensures Ends(sh, id, r, v, st)
  {
    Back(sh, id, r, sh, r1, v, st);
  }

  lemma ReserveBack(sh: Shared, id: RequestId, r: Request, sh1: Shared, r1: Request, v: Verdict, st: set<Start>)
    requires r.pc.Reserving? && ActReserve(sh, r) == (sh1, r1) && Ends(sh1, id, r1, v, st)
    ensures Ends(sh, id, r, v, st)
  {
    Back(sh, id, r, sh1, r1, v, st);
  }

  lemma HoldBack(sh: Shared, id: RequestId, r: Request, sh1: Shared, r1: Request, v: Verdict, st: set<Start>)
    requires r.pc.Holding? && ActHold(sh, r) == (sh1, r1) && Ends(sh1, id, r1, v, st)
    ensures Ends(sh, id, r, v, st)
  {
    Back(sh, id, r, sh1, r1, v, st);
  }

  lemma ScanBack(sh: Shared, id: RequestId, r: Request, r1: Request, v: Verdict, st: set<Start>)
    requires r.pc.Scanning? && ActScan(sh, r) == r1 && Ends(sh, id, r1, v, st)
    ensures Ends(sh, id, r, v, st)
  {
    Back(sh, id, r, sh, r1, v, st);
  }

  lemma {:induction false} AloneTwice(sh: Shared, id: RequestId, r: Request, k: nat, j: nat)
    ensures Alone(sh, id, r, Well, k + j) == Alone(Alone(sh, id, r, Well, k).0, id, Alone(sh, id, r, Well, k).1, Well, j)
    decreases k
  {
    if k > 0 {
      var out := Act(sh, id, r, Well);
      AloneTwice(out.0, id, out.1, k - 1, j);
    }
  }

  lemma BackMany(sh: Shared, id: RequestId, r: Request, k: nat, out: (Shared, Request), v: Verdict, st: set<Start>)
    requires Leads(sh, id, r, k, out) && Ends(out.0, id, out.1, v, st)
    ensures Ends(sh, id, r, v, st)
  {
    var j: nat, end :| Leads(out.0, id, out.1, j, end) && Finished(end, v, st);
    assert Alone(sh, id, r, Well, k) == out && Alone(out.0, id, out.1, Well, j) == end;
    AloneTwice(sh, id, r, k, j);
    assert Leads(sh, id, r, k + j, end);
  }

  /* ---------- From the end backwards ---------- */

  /** The reservation there holds the request's content, and no outcome yet. */
  predicate HasNoRecord(sh: Shared, r: Request) {
    r.scope in sh.entries && sh.entries[r.scope].content == r.content && sh.entries[r.scope].action.None?
  }

  lemma RecordEnds(sh: Shared, id: RequestId, r: Request, outcome: Outcome)
    requires r.pc == Recording(LinkAction, outcome) && HasNoRecord(sh, r)
    ensures Ends(sh, id, r, Recorded(outcome), sh.started)
  {
    var sh1, r1 := ActRecord(sh, r).0, r.At(Recording(SyncAction, outcome));
    var sh2, r2 := SyncEntryDir(sh1, r.scope), r.At(Done(Recorded(outcome)));
    Ended(sh2, id, r2, Recorded(outcome));
    Back(sh1, id, r1, sh2, r2, Recorded(outcome), sh.started);
    Back(sh, id, r, sh1, r1, Recorded(outcome), sh.started);
  }

  lemma RescanEnds(sh: Shared, id: RequestId, r: Request)
    requires r.pc == Rescanning(1) && HasNoRecord(sh, r) && !AnyClose(sh.entries[r.scope])
    ensures Ends(sh, id, r, Recorded(Uncertain), sh.started)
  {
    var r1 := Rescanned(sh.entries[r.scope], r, 1);
    RescannedMeans(sh.entries[r.scope], r, 1);
    RecordEnds(sh, id, r1, Uncertain);
    var k := RescanAlone(sh, id, r, 1, (sh, r1));
    BackMany(sh, id, r, k, (sh, r1), Recorded(Uncertain), sh.started);
  }

  /** The store once the first scope is held durably. */
  function Held(sh: Shared, r: Request): Shared {
    SyncRootDir(SyncIndexDir(if sh.index.None? then sh.(index := Some(Index(r.scope, false))) else sh))
  }

  lemma HoldLeads(sh: Shared, id: RequestId, r: Request, after: After, v: Verdict, st: set<Start>)
    requires r.pc == Holding(Read, after) && !FirstIsAnothers(sh, r)
    requires var out := AfterHold(Held(sh, r), r, after); Ends(out.0, id, out.1, v, st)
    ensures Ends(sh, id, r, v, st)
  {
    var linked := if sh.index.None? then sh.(index := Some(Index(r.scope, false))) else sh;
    var r1, r2 := r.At(Holding(SyncIndex, after)), r.At(Holding(SyncParent, after));
    var out := AfterHold(Held(sh, r), r, after);
    HeldParent(linked, id, r, after, v, st);
    HoldBack(linked, id, r1, SyncIndexDir(linked), r2, v, st);
    if sh.index.None? {
      HoldBack(sh, id, r.At(Holding(Link, after)), linked, r1, v, st);
      HoldBack(sh, id, r, sh, r.At(Holding(Link, after)), v, st);
    } else {
      HoldBack(sh, id, r, sh, r1, v, st);
    }
  }

  lemma HeldParent(linked: Shared, id: RequestId, r: Request, after: After, v: Verdict, st: set<Start>)
    requires var out := AfterHold(SyncRootDir(SyncIndexDir(linked)), r, after); Ends(out.0, id, out.1, v, st)
    ensures Ends(SyncIndexDir(linked), id, r.At(Holding(SyncParent, after)), v, st)
  {
    var out := AfterHold(SyncRootDir(SyncIndexDir(linked)), r, after);
    assert AfterHold(SyncRootDir(SyncIndexDir(linked)), r.At(Holding(SyncParent, after)), after) == out;
    HoldBack(SyncIndexDir(linked), id, r.At(Holding(SyncParent, after)), out.0, out.1, v, st);
  }

  lemma AnswerEnds(sh: Shared, id: RequestId, r: Request, nothing: bool)
    requires r.pc == Answering(nothing) && r.scope in sh.entries && (nothing ==> !FirstIsAnothers(sh, r))
    ensures Ends(sh, id, r, if nothing then SaidNotDispatched else SaidClosed, sh.started)
  {
    var sh1 := SyncEntryDir(sh, r.scope);
    if nothing {
      var r1 := r.At(Holding(Read, ToAnswer));
      var out := AfterHold(Held(sh1, r1), r1, ToAnswer);
      Ended(out.0, id, out.1, SaidNotDispatched);
      HoldLeads(sh1, id, r1, ToAnswer, SaidNotDispatched, sh.started);
      Back(sh, id, r, sh1, r1, SaidNotDispatched, sh.started);
    } else {
      var sh2, r2 := ActAnswer(sh, r).0, r.At(Done(SaidClosed));
      Ended(sh2, id, r2, SaidClosed);
      Back(sh, id, r, sh2, r2, SaidClosed, sh.started);
    }
  }

  lemma ClosedEnds(sh: Shared, id: RequestId, r: Request)
    requires r.scope in sh.entries && r.foreign == FirstIsAnothers(sh, r)
    ensures Ends(sh, id, ClosedKey(r), ClosedVerdict(r, r.foreign, r.indexed), sh.started)
  {
    var r1 := ClosedKey(r);
    if r1.pc.Done? { Ended(sh, id, r1, r1.pc.verdict); } else { AnswerEnds(sh, id, r1, r.reconcile); }
  }

  lemma RunEnds(sh: Shared, id: RequestId, r: Request, n: nat, st: set<Start>)
    requires r.pc == Claiming(RunSource, n) && HasNoRecord(sh, r)
    requires st == sh.started + {Start(r.scope, n, id, r.MayHold())}
    ensures Ends(sh, id, r, Recorded(Response), st)
  {
    var sh1, r1 := sh.(started := st), r.At(Ran(n));
    RecordEnds(sh1, id, r.At(Recording(LinkAction, Response)), Response);
    Back(sh1, id, r1, sh1, r.At(Recording(LinkAction, Response)), Recorded(Response), st);
    Back(sh, id, r, sh1, r1, Recorded(Response), st);
  }

  lemma ClaimEnds(sh: Shared, id: RequestId, r: Request, n: nat)
    requires r.pc == Claiming(CreateMarker, n) && HasNoRecord(sh, r) && n !in sh.entries[r.scope].markers
    ensures Ends(sh, id, r, Recorded(Response), sh.started + {Start(r.scope, n, id, r.MayHold())})
  {
    var e := sh.entries[r.scope];
    var sh1, r1 := With(sh, r, Claimed(e, id, n)), r.At(Claiming(RunSource, n));
    var st := sh.started + {Start(r.scope, n, id, r.MayHold())};
    RunEnds(sh1, id, r1, n, st);
    Unchanged(sh, r);
    var k := ClaimAlone(sh, id, r, e, n);
    BackMany(sh, id, r, k, (sh1, r1), Recorded(Response), st);
  }

  lemma Unchanged(sh: Shared, r: Request)
    requires r.scope in sh.entries
    ensures With(sh, r, sh.entries[r.scope]) == sh
  {
    assert sh.entries[r.scope := sh.entries[r.scope]] == sh.entries;
  }

  lemma CloseEnds(sh: Shared, id: RequestId, r: Request, n: nat)
    requires r.pc == Closing(LookLater(n + 1), n) && n <= ATTEMPTS && HasNoRecord(sh, r) && r.reconcile && !r.foreign && !r.sender.Other?
    requires n !in sh.entries[r.scope].markers && !AnyClose(sh.entries[r.scope]) && !FirstIsAnothers(sh, r)
    ensures Ends(sh, id, r, if NoneAbove(sh.entries[r.scope], n) then SaidNotDispatched else Recorded(Uncertain), sh.started)
  {
    var e := sh.entries[r.scope];
    var sh1, r1 := With(sh, r, KeyClosedAt(e, id, n)), AfterClose(e, r, n);
    Unchanged(sh, r);
    if NoneAbove(e, n) { ClosedEnds(sh1, id, r.At(Closing(SyncClose, n))); } else { RescanEnds(sh, id, r1); }
    var k := CloseAlone(sh, id, r, e, n, n + 1, (sh1, r1));
    BackMany(sh, id, r, k, (sh1, r1), if NoneAbove(e, n) then SaidNotDispatched else Recorded(Uncertain), sh.started);
  }

  lemma FreeEnds(sh: Shared, id: RequestId, r: Request, n: nat, st: set<Start>)
    requires HasNoRecord(sh, r) && !AnyClose(sh.entries[r.scope]) && r.foreign == FirstIsAnothers(sh, r) && r.pc.Attempting?
    requires n <= ATTEMPTS && n !in sh.entries[r.scope].markers
    requires st == sh.started + if r.foreign || r.sender.Other? || r.reconcile then {} else {Start(r.scope, n, id, r.MayHold())}
    ensures Ends(sh, id, Decided(r, Free(n)), FreeVerdict(sh.entries[r.scope], r, r.foreign, n), st)
  {
    var r1 := Decided(r, Free(n));
    assert sh.started + {} == sh.started;
    if r1.pc.Done? { Ended(sh, id, r1, r1.pc.verdict); }
    else if r.reconcile { CloseEnds(sh, id, r1, n); }
    else { ClaimEnds(sh, id, r1, n); }
  }

  lemma DecidedEnds(sh: Shared, id: RequestId, r: Request, a: AttemptAnswer, st: set<Start>)
    requires r.scope in sh.entries && r.foreign == FirstIsAnothers(sh, r) && r.pc.Attempting?
    requires var e := sh.entries[r.scope]; e.content == r.content && !AnyClose(e) && e.action.None? && a == AttemptFrom(e, 1)
    requires st == sh.started + EntryStarts(sh.entries[r.scope], id, r, r.foreign)
    ensures Ends(sh, id, Decided(r, a), AttemptVerdict(sh.entries[r.scope], r, r.foreign), st)
  {
    var r1 := Decided(r, a);
    AttemptMeans(sh.entries[r.scope], 1);
    assert !a.ClosedAt? && sh.started + {} == sh.started;
    if a.Free? { FreeEnds(sh, id, r, a.n, st); }
    else if a.Begun? { RescanEnds(sh, id, r1); }
    else { Ended(sh, id, r1, Exhausted); }
  }

  lemma AttemptEnds(sh: Shared, id: RequestId, r: Request)
    requires r.pc == Attempting(LookMarker, 1) && r.scope in sh.entries && r.foreign == FirstIsAnothers(sh, r)
    requires var e := sh.entries[r.scope]; e.content == r.content && !AnyClose(e) && e.action.None?
    ensures Ends(sh, id, r, AttemptVerdict(sh.entries[r.scope], r, r.foreign), sh.started + EntryStarts(sh.entries[r.scope], id, r, r.foreign))
  {
    var e := sh.entries[r.scope];
    var a, st := AttemptFrom(e, 1), sh.started + EntryStarts(e, id, r, r.foreign);
    DecidedEnds(sh, id, r, a, st);
    var k := AttemptAlone(sh, id, r, 1, (sh, Decided(r, a)));
    BackMany(sh, id, r, k, (sh, Decided(r, a)), AttemptVerdict(e, r, r.foreign), st);
  }

  lemma EvidenceEnds(sh: Shared, id: RequestId, r: Request)
    requires r.pc.ReadAction? && r.scope in sh.entries && r.foreign == FirstIsAnothers(sh, r)
    requires var e := sh.entries[r.scope]; e.content == r.content && !AnyClose(e)
    ensures Ends(sh, id, r, EntryVerdict(sh.entries[r.scope], r, r.foreign, r.indexed),
                 sh.started + EntryStarts(sh.entries[r.scope], id, r, r.foreign))
  {
    var e := sh.entries[r.scope];
    if e.action.Some? {
      assert sh.started + {} == sh.started;
      RetainedEnds(sh, id, r, e.action.value.outcome);
    } else {
      NothingRetainedEnds(sh, id, r, sh.started + EntryStarts(e, id, r, r.foreign));
    }
  }

  lemma RetainedEnds(sh: Shared, id: RequestId, r: Request, outcome: Outcome)
    requires r.pc.ReadAction? && Retains(sh, r, outcome)
    ensures Ends(sh, id, r, Replayed(outcome), sh.started)
  {
    Ended(sh, id, r.At(Done(Replayed(outcome))), Replayed(outcome));
    Back(sh, id, r, sh, r.At(Done(Replayed(outcome))), Replayed(outcome), sh.started);
  }

  lemma NothingRetainedEnds(sh: Shared, id: RequestId, r: Request, st: set<Start>)
    requires r.pc.ReadAction? && HasNoRecord(sh, r) && r.foreign == FirstIsAnothers(sh, r) && !AnyClose(sh.entries[r.scope])
    requires st == sh.started + EntryStarts(sh.entries[r.scope], id, r, r.foreign)
    ensures Ends(sh, id, r, AttemptVerdict(sh.entries[r.scope], r, r.foreign), st)
  {
    var r1 := r.At(Attempting(LookMarker, 1));
    AttemptEnds(sh, id, r1);
    Back(sh, id, r, sh, r1, AttemptVerdict(sh.entries[r.scope], r1, r.foreign), st);
  }

  /** Only what was asked bears on the answer. */
  lemma AskedAlike(e: Reservation, id: RequestId, r: Request, r1: Request, foreign: bool, indexed: bool)
    requires r.SameAsked(r1)
    ensures EntryVerdict(e, r1, foreign, indexed) == EntryVerdict(e, r, foreign, indexed)
    ensures EntryStarts(e, id, r1, foreign) == EntryStarts(e, id, r, foreign)
  {
  }

  /** Only sync marks of the reservation change when the root is synced. */
  lemma SameEntry(e: Reservation, e': Reservation, id: RequestId, r: Request, foreign: bool, indexed: bool)
    requires e' == e.(nameSynced := true)
    ensures EntryVerdict(e', r, foreign, indexed) == EntryVerdict(e, r, foreign, indexed)
    ensures EntryStarts(e', id, r, foreign) == EntryStarts(e, id, r, foreign) && (AnyClose(e') <==> AnyClose(e))
  {
    SameAttempts(e, e', 1);
    if AnyClose(e) { var n :| 1 <= n <= ATTEMPTS && Closes(e, n); assert Closes(e', n); }
    if AnyClose(e') { var n :| 1 <= n <= ATTEMPTS && Closes(e', n); assert Closes(e, n); }
  }

  lemma {:induction false} SameAttempts(e: Reservation, e': Reservation, n: nat)
    requires e'.markers == e.markers && e'.answers == e.answers
    ensures AttemptFrom(e', n) == AttemptFrom(e, n)
    decreases ATTEMPTS + 1 - n
  {
    if n <= ATTEMPTS { SameAttempts(e, e', n + 1); }
  }

  /** A request that flags what is so of the first scope. */
  predicate Flagged(sh: Shared, r: Request) {
    r.scope in sh.entries && r.foreign == FirstIsAnothers(sh, r) && (r.sender.Other? ==> r.indexed == FirstIsOwn(sh, r))
    && !(r.reconcile && r.sender.Plain?)
  }

  /** A reconciling request that may hold the first scope does so before it answers from evidence. */
  lemma HoldingEvidenceEnds(sh: Shared, id: RequestId, r: Request, v: Verdict, st: set<Start>)
    requires r.pc == Holding(Read, ToEvidence) && Flagged(sh, r) && r.MayHold() && !r.foreign
    requires sh.entries[r.scope].content == r.content && !AnyClose(sh.entries[r.scope])
    requires v == EntryVerdict(sh.entries[r.scope], r, false, r.indexed) && st == sh.started + EntryStarts(sh.entries[r.scope], id, r, false)
    ensures Ends(sh, id, r, v, st)
  {
    var e := sh.entries[r.scope];
    var out := AfterHold(Held(sh, r), r, ToEvidence);
    assert out.0.entries[r.scope] == e.(nameSynced := true);
    SameEntry(e, out.0.entries[r.scope], id, r, false, r.indexed);
    AskedAlike(out.0.entries[r.scope], id, r, out.1, false, r.indexed);
    IndexedAlike(out.0.entries[r.scope], out.1, false);
    EvidenceEnds(out.0, id, out.1);
    HoldLeads(sh, id, r, ToEvidence, v, st);
  }

  lemma ScannedEnds(sh: Shared, id: RequestId, r: Request, v: Verdict, st: set<Start>)
    requires r.pc == Scanning(ATTEMPTS) && Flagged(sh, r) && sh.entries[r.scope].content == r.content && !AnyClose(sh.entries[r.scope])
    requires v == EntryVerdict(sh.entries[r.scope], r, r.foreign, r.indexed)
    requires st == sh.started + EntryStarts(sh.entries[r.scope], id, r, r.foreign)
    ensures Ends(sh, id, r, v, st)
  {
    var e := sh.entries[r.scope];
    var r1 := ActScan(sh, r);
    assert !Closes(e, ATTEMPTS);
    AskedAlike(e, id, r, r1, r.foreign, r.indexed);
    if r1.pc.Holding? { HoldingEvidenceEnds(sh, id, r1, v, st); } else { EvidenceEnds(sh, id, r1); }
    ScanBack(sh, id, r, r1, v, st);
  }

  /** Whether the request found its first scope recorded bears only on a sender other than the actor. */
  lemma IndexedAlike(e: Reservation, r: Request, foreign: bool)
    requires !r.sender.Other?
    ensures EntryVerdict(e, r, foreign, true) == EntryVerdict(e, r, foreign, false)
  {
  }

  lemma {:induction false} ScanEnds(sh: Shared, id: RequestId, r: Request, k: nat, v: Verdict, st: set<Start>)
    requires r.pc == Scanning(k) && 1 <= k <= ATTEMPTS && Flagged(sh, r) && sh.entries[r.scope].content == r.content
    requires forall m :: 1 <= m < k ==> !Closes(sh.entries[r.scope], m)
    requires v == EntryVerdict(sh.entries[r.scope], r, r.foreign, r.indexed)
    requires st == sh.started + EntryStarts(sh.entries[r.scope], id, r, r.foreign)
    ensures Ends(sh, id, r, v, st)
    decreases ATTEMPTS - k
  {
    var e := sh.entries[r.scope];
    if Closes(e, k) {
      assert AnyClose(e) && sh.started + {} == sh.started;
      ClosedEnds(sh, id, r);
      ScanBack(sh, id, r, ClosedKey(r), v, st);
    } else if k < ATTEMPTS {
      AskedAlike(e, id, r, r.At(Scanning(k + 1)), r.foreign, r.indexed);
      ScanEnds(sh, id, r.At(Scanning(k + 1)), k + 1, v, st);
      ScanBack(sh, id, r, r.At(Scanning(k + 1)), v, st);
    } else {
      ScannedEnds(sh, id, r, v, st);
    }
  }

  lemma OpenEnds(sh: Shared, id: RequestId, r: Request, v: Verdict, st: set<Start>)
    requires r.pc == Reserving(OpenEntry) && !r.made && Flagged(sh, r)
    requires v == EntryVerdict(sh.entries[r.scope], r, r.foreign, r.indexed)
    requires st == sh.started + EntryStarts(sh.entries[r.scope], id, r, r.foreign)
    ensures Ends(sh, id, r, v, st)
  {
    if sh.entries[r.scope].content != r.content {
      assert sh.started + {} == sh.started;
      Ended(sh, id, r.At(Done(KeyConflict)), KeyConflict);
      ReserveBack(sh, id, r, sh, r.At(Done(KeyConflict)), v, st);
    } else {
      AskedAlike(sh.entries[r.scope], id, r, r.At(Scanning(1)), r.foreign, r.indexed);
      ScanEnds(sh, id, r.At(Scanning(1)), 1, v, st);
      ReserveBack(sh, id, r, sh, r.At(Scanning(1)), v, st);
    }
  }

  /** From opening a reservation that was there. */
  lemma FoundEnds(sh: Shared, id: RequestId, r: Request)
    requires r.pc == Reserving(SyncRoot) && !r.made && Flagged(sh, r)
    ensures Ends(sh, id, r, EntryVerdict(sh.entries[r.scope], r, r.foreign, r.indexed),
                 sh.started + EntryStarts(sh.entries[r.scope], id, r, r.foreign))
  {
    var e := sh.entries[r.scope];
    var v, st := EntryVerdict(e, r, r.foreign, r.indexed), sh.started + EntryStarts(e, id, r, r.foreign);
    var sh1, r1 := SyncRootDir(sh), r.At(Reserving(OpenEntry));
    SameEntry(e, sh1.entries[r.scope], id, r, r.foreign, r.indexed);
    AskedAlike(sh1.entries[r.scope], id, r, r1, r.foreign, r.indexed);
    OpenEnds(sh1, id, r1, v, st);
    ReserveBack(sh, id, r, sh1, r1, v, st);
  }

  /** From a reservation just made. */
  lemma MadeEnds(sh: Shared, id: RequestId, r: Request)
    requires r.pc == Reserving(PublishEntry) && r.scope !in sh.entries && !r.foreign && !r.sender.Other? && !r.reconcile && !FirstIsAnothers(sh, r)
    ensures Ends(sh, id, r, Recorded(Response), sh.started + {Start(r.scope, 1, id, r.MayHold())})
  {
    var v, st := Recorded(Response), sh.started + {Start(r.scope, 1, id, r.MayHold())};
    var sh1, r1 := Put(sh, r.scope, Reservation(r.content, false, map[], map[], None)), r.(made := true).At(Reserving(SyncRoot));
    MadeOpenEnds(SyncRootDir(sh1), id, r1.At(Reserving(OpenEntry)));
    ReserveBack(sh1, id, r1, SyncRootDir(sh1), r1.At(Reserving(OpenEntry)), v, st);
    ReserveBack(sh, id, r, sh1, r1, v, st);
  }

  lemma MadeOpenEnds(sh: Shared, id: RequestId, r: Request)
    requires r.pc == Reserving(OpenEntry) && r.made && HasNoRecord(sh, r) && !r.foreign && !r.sender.Other? && !r.reconcile
    requires 1 !in sh.entries[r.scope].markers
    ensures Ends(sh, id, r, Recorded(Response), sh.started + {Start(r.scope, 1, id, r.MayHold())})
  {
    var v, st := Recorded(Response), sh.started + {Start(r.scope, 1, id, r.MayHold())};
    var r1, r2 := r.At(Attempting(LookMarker, 1)), r.At(Claiming(CreateMarker, 1));
    ClaimEnds(sh, id, r2, 1);
    Back(sh, id, r1, sh, r2, v, st);
    ReserveBack(sh, id, r, sh, r1, v, st);
  }

  /** From the choice between reserving and only opening. */
  lemma LookEnds(sh: Shared, id: RequestId, r: Request)
    requires r.pc == Reserving(LookEntry) && !r.reconcile && !r.foreign && !FirstIsAnothers(sh, r)
    requires r.sender.Other? ==> r.scope in sh.entries && r.indexed == FirstIsOwn(sh, r)
    ensures Ends(sh, id, r, Expected(sh, r), sh.started + ExpectedStarts(sh, id, r))
  {
    if r.scope in sh.entries {
      var r1 := r.(made := false).At(Reserving(SyncRoot));
      FoundEnds(sh, id, r1);
      if !r.sender.Other? { IndexedAlike(sh.entries[r.scope], r, false); }
      ReserveBack(sh, id, r, sh, r1, Expected(sh, r), sh.started + ExpectedStarts(sh, id, r));
    } else {
      MadeEnds(sh, id, r.At(Reserving(PublishEntry)));
      ReserveBack(sh, id, r, sh, r.At(Reserving(PublishEntry)), Expected(sh, r), sh.started + ExpectedStarts(sh, id, r));
    }
  }

  /** Holding the first scope changes no answer of a request it is not another's to. */
  lemma HeldExpected(sh: Shared, id: RequestId, r: Request)
    requires !FirstIsAnothers(sh, r) && !r.reconcile && !r.sender.Other?
    ensures Expected(Held(sh, r), r) == Expected(sh, r) && ExpectedStarts(Held(sh, r), id, r) == ExpectedStarts(sh, id, r)
    ensures Held(sh, r).started == sh.started && !FirstIsAnothers(Held(sh, r), r)
  {
    if r.scope in sh.entries {
      SameEntry(sh.entries[r.scope], Held(sh, r).entries[r.scope], id, r, false, true);
      IndexedAlike(sh.entries[r.scope], r, false);
    }
  }

  /** What a request that arrives has set of its flags before it reserves or opens. */
  predicate Sorted(sh: Shared, r: Request) {
    && r.foreign == FirstIsAnothers(sh, r) && r.indexed == FirstIsOwn(sh, r) && !r.made
    && !(r.reconcile && r.sender.Plain?) && (r.foreign || r.sender.Other? || r.reconcile ==> r.scope in sh.entries)
  }

  lemma HoldsEnds(sh: Shared, id: RequestId, r: Request, v: Verdict, st: set<Start>)
    requires Sorted(sh, r) && r.MayHold() && !r.reconcile && !r.foreign
    requires v == Expected(sh, r) && st == sh.started + ExpectedStarts(sh, id, r)
    ensures Ends(sh, id, r.At(Holding(Read, ToReserve)), v, st)
  {
    var r1 := r.At(Reserving(LookEntry));
    HeldExpected(sh, id, r);
    ExpectedAlike(Held(sh, r), id, r, r1);
    LookEnds(Held(sh, r), id, r1);
    HoldLeads(sh, id, r.At(Holding(Read, ToReserve)), ToReserve, v, st);
  }

  lemma ExpectedAlike(sh: Shared, id: RequestId, r: Request, r1: Request)
    requires r.SameAsked(r1)
    ensures Expected(sh, r1) == Expected(sh, r) && ExpectedStarts(sh, id, r1) == ExpectedStarts(sh, id, r)
  {
    if r.scope in sh.entries { AskedAlike(sh.entries[r.scope], id, r, r1, FirstIsAnothers(sh, r), FirstIsOwn(sh, r)); }
  }

  lemma ProceedEnds(sh: Shared, id: RequestId, r: Request)
    requires Sorted(sh, r)
    ensures Ends(sh, id, Proceed(r), Expected(sh, r), sh.started + ExpectedStarts(sh, id, r))
  {
    if r.MayHold() && !r.reconcile && !r.foreign {
      HoldsEnds(sh, id, r, Expected(sh, r), sh.started + ExpectedStarts(sh, id, r));
    } else {
      ExpectedAlike(sh, id, r, Proceed(r));
      if r.reconcile || r.foreign { FoundEnds(sh, id, Proceed(r)); } else { LookEnds(sh, id, Proceed(r)); }
    }
  }

  /** A reconciling request under a key nobody used: it closes, and says so. */
  lemma NewKeyCloses(sh: Shared, id: RequestId, r: Request)
    requires r.pc.ReserveClosed? && r.scope !in sh.entries && r.reconcile && !r.foreign && !r.indexed && !r.made
    requires sh.index.None? && !r.sender.Other? && !r.sender.Plain?
    ensures Ends(sh, id, r, SaidNotDispatched, sh.started)
  {
    var sh1, r1 := Put(sh, r.scope, ClosedEntry(id, r.content)), Proceed(r);
    assert Closes(sh1.entries[r.scope], 1);
    FoundEnds(sh1, id, r1);
    assert sh1.started + {} == sh.started;
    Back(sh, id, r, sh1, r1, SaidNotDispatched, sh.started);
  }

  lemma ReconcileHasEnds(sh: Shared, id: RequestId, r: Request)
    requires r.pc == Starting(ReconcileHas) && r.foreign == FirstIsAnothers(sh, r) && r.indexed == FirstIsOwn(sh, r) && !r.made
    requires !(r.reconcile && r.sender.Plain?) && (r.foreign || r.sender.Other? ==> r.scope in sh.entries)
    ensures Ends(sh, id, r, Expected(sh, r), sh.started + ExpectedStarts(sh, id, r))
  {
    var v, st := Expected(sh, r), sh.started + ExpectedStarts(sh, id, r);
    if !r.reconcile || r.scope in sh.entries {
      ProceedEnds(sh, id, r);
      StartBack(sh, id, r, Proceed(r), v, st);
    } else {
      assert sh.started + {} == sh.started;
      if r.indexed {
        Ended(sh, id, r.At(Done(OutcomeUnknown)), OutcomeUnknown);
        StartBack(sh, id, r, r.At(Done(OutcomeUnknown)), v, st);
      } else {
        NewKeyCloses(sh, id, r.At(ReserveClosed));
        StartBack(sh, id, r, r.At(ReserveClosed), v, st);
      }
    }
  }

  lemma SenderHasEnds(sh: Shared, id: RequestId, r: Request)
    requires r.pc == Starting(SenderHas) && r.foreign == FirstIsAnothers(sh, r) && r.indexed == FirstIsOwn(sh, r) && !r.made
    requires !(r.reconcile && r.sender.Plain?) && (r.foreign ==> r.scope in sh.entries)
    ensures Ends(sh, id, r, Expected(sh, r), sh.started + ExpectedStarts(sh, id, r))
  {
    var v, st := Expected(sh, r), sh.started + ExpectedStarts(sh, id, r);
    if r.sender.Other? && r.scope !in sh.entries {
      assert sh.started + {} == sh.started;
      Ended(sh, id, r.At(Done(ActorOnly)), ActorOnly);
      StartBack(sh, id, r, r.At(Done(ActorOnly)), v, st);
    } else {
      ReconcileHasEnds(sh, id, r.At(Starting(ReconcileHas)));
      StartBack(sh, id, r, r.At(Starting(ReconcileHas)), v, st);
    }
  }

  lemma ForeignHasEnds(sh: Shared, id: RequestId, r: Request)
    requires r.pc == Starting(ForeignHas) && r.foreign && FirstIsAnothers(sh, r) && !r.indexed && !r.made && !(r.reconcile && r.sender.Plain?)
    ensures Ends(sh, id, r, Expected(sh, r), sh.started + ExpectedStarts(sh, id, r))
  {
    var v, st := Expected(sh, r), sh.started + ExpectedStarts(sh, id, r);
    if r.scope in sh.entries {
      SenderHasEnds(sh, id, r.At(Starting(SenderHas)));
      StartBack(sh, id, r, r.At(Starting(SenderHas)), v, st);
    } else {
      assert sh.started + {} == sh.started;
      Ended(sh, id, r.At(Done(ScopeConflict)), ScopeConflict);
      StartBack(sh, id, r, r.At(Done(ScopeConflict)), v, st);
    }
  }

  lemma ArrivesScoped(sh: Shared, r: Request)
    requires Arrives(sh, r)
    ensures !(r.reconcile && r.sender.Plain?)
  {
    var keyScope, reconcile :| Sends(r, keyScope, reconcile);
  }

  /** Whatever the store holds, a request that arrives and is not disturbed is answered as the
      reference says, and starts the program the reference says, or none. */
  lemma UndisturbedAnswer(sh: Shared, id: RequestId, r: Request)
    requires Arrives(sh, r)
    ensures Ends(sh, id, r, Expected(sh, r), sh.started + ExpectedStarts(sh, id, r))
  {
    ArrivesScoped(sh, r);
    var v, st := Expected(sh, r), sh.started + ExpectedStarts(sh, id, r);
    var r1 := ActStart(sh, r);
    if FirstIsAnothers(sh, r) { ForeignHasEnds(sh, id, r1); } else { SenderHasEnds(sh, id, r1); }
    StartBack(sh, id, r, r1, v, st);
  }

  /** A retry of content whose outcome is retained, under a key that is not closed, is answered that
      outcome, whoever's the first scope is. */
  lemma RetainedIsReplayed(sh: Shared, id: RequestId, r: Request)
    requires Arrives(sh, r) && r.scope in sh.entries && !AnyClose(sh.entries[r.scope])
    requires sh.entries[r.scope].content == r.content && sh.entries[r.scope].action.Some?
    ensures Ends(sh, id, r, Replayed(sh.entries[r.scope].action.value.outcome), sh.started)
  {
    UndisturbedAnswer(sh, id, r);
    assert sh.started + {} == sh.started;
  }

  /* ---------- When a race is lost ---------- */

  /** The answer of a request that finds another's scope first as it comes to hold its own. */
  ghost function LostVerdict(sh: Shared, r: Request, after: After): Verdict {
    match after
    case ToReserve => if r.scope in sh.entries then EntryVerdict(sh.entries[r.scope], r, true, r.indexed) else ScopeConflict
    case ToEvidence =>
      if r.scope in sh.entries && sh.entries[r.scope].action.Some? then Replayed(sh.entries[r.scope].action.value.outcome)
      else if r.scope in sh.entries then AttemptVerdict(sh.entries[r.scope], r, true)
      else Refused
    case ToAnswer => ScopeConflict
  }

  /** Undisturbed from there, wherever in holding its scope the other's was found: it is answered from its
      own scope's reservation, if there is one, as a request that the first scope is not; it starts nothing. */
  lemma LostScopeEnds(sh: Shared, id: RequestId, r: Request, after: After)
    requires (r.pc == Holding(Read, after) || r.pc == Holding(Link, after) || r.pc == Holding(Reread, after))
    requires FirstIsAnothers(sh, r) && r.MayHold() && r.scope in sh.entries
    requires after.ToEvidence? ==> sh.entries[r.scope].content == r.content && !AnyClose(sh.entries[r.scope])
    ensures Ends(sh, id, r, LostVerdict(sh, r, after), sh.started)
  {
    LostForeignEnds(sh, id, r, after, LostVerdict(sh, r, after));
    if r.pc.hold.Link? {
      LostForeignEnds(sh, id, r.At(Holding(Reread, after)), after, LostVerdict(sh, r, after));
      HoldBack(sh, id, r.At(Holding(Reread, after)), sh, HoldForeign(r.At(Holding(Reread, after)), after), LostVerdict(sh, r, after), sh.started);
      HoldBack(sh, id, r, sh, r.At(Holding(Reread, after)), LostVerdict(sh, r, after), sh.started);
    } else {
      HoldBack(sh, id, r, sh, HoldForeign(r, after), LostVerdict(sh, r, after), sh.started);
    }
  }

  lemma LostForeignEnds(sh: Shared, id: RequestId, r: Request, after: After, v: Verdict)
    requires r.pc.Holding? && FirstIsAnothers(sh, r) && r.MayHold() && r.scope in sh.entries && v == LostVerdict(sh, r, after)
    requires after.ToEvidence? ==> sh.entries[r.scope].content == r.content && !AnyClose(sh.entries[r.scope])
    ensures Ends(sh, id, HoldForeign(r, after), v, sh.started)
  {
    var e, r1 := sh.entries[r.scope], HoldForeign(r, after);
    match after
    case ToReserve => LostReserveEnds(sh, id, r1, v);
    case ToEvidence =>
      assert sh.started + {} == sh.started;
      LostEvidence(e, r, r1);
      EvidenceEnds(sh, id, r1);
    case ToAnswer => Ended(sh, id, r1, ScopeConflict);
  }

  lemma LostReserveEnds(sh: Shared, id: RequestId, r: Request, v: Verdict)
    requires r.pc.HoldForeignHas? && FirstIsAnothers(sh, r) && r.MayHold() && r.scope in sh.entries
    requires v == EntryVerdict(sh.entries[r.scope], r, true, r.indexed)
    ensures Ends(sh, id, r, v, sh.started)
  {
    var r1 := r.(foreign := true, made := false).At(Reserving(SyncRoot));
    assert sh.started + {} == sh.started;
    AskedAlike(sh.entries[r.scope], id, r, r1, true, r.indexed);
    FoundEnds(sh, id, r1);
    Back(sh, id, r, sh, r1, v, sh.started);
  }

  lemma LostEvidence(e: Reservation, r: Request, r1: Request)
    requires r.SameAsked(r1) && e.content == r.content && !AnyClose(e)
    ensures EntryVerdict(e, r1, true, r1.indexed) ==
      if e.action.Some? then Replayed(e.action.value.outcome) else AttemptVerdict(e, r, true)
  {
  }

  /** A reservation another request published first is opened as one that was there. */
  lemma LostEntryEnds(sh: Shared, id: RequestId, r: Request)
    requires r.pc == Reserving(PublishEntry) && Flagged(sh, r)
    ensures Ends(sh, id, r, EntryVerdict(sh.entries[r.scope], r, r.foreign, r.indexed),
                 sh.started + EntryStarts(sh.entries[r.scope], id, r, r.foreign))
  {
    var e, r1 := sh.entries[r.scope], r.(made := false).At(Reserving(SyncRoot));
    AskedAlike(e, id, r, r1, r.foreign, r.indexed);
    FoundEnds(sh, id, r1);
    ReserveBack(sh, id, r, sh, r1, EntryVerdict(e, r, r.foreign, r.indexed), sh.started + EntryStarts(e, id, r, r.foreign));
  }

  /** A request that finds the name it was to claim or close taken starts nothing: it is answered the
      close, if the key was closed meanwhile, and else records uncertainty. */
  lemma LostNameEnds(sh: Shared, id: RequestId, r: Request, n: nat)
    requires r.pc == Claiming(CreateMarker, n) || r.pc == Closing(LinkClose, n)
    requires 1 <= n <= ATTEMPTS && HasNoRecord(sh, r) && n in sh.entries[r.scope].markers && r.foreign == FirstIsAnothers(sh, r)
    ensures Ends(sh, id, r, if AnyClose(sh.entries[r.scope]) then ClosedVerdict(r, r.foreign, r.indexed) else Recorded(Uncertain), sh.started)
  {
    var v := if AnyClose(sh.entries[r.scope]) then ClosedVerdict(r, r.foreign, r.indexed) else Recorded(Uncertain);
    var r1 := r.At(ReadTaken(n));
    TakenEnds(sh, id, r1, n, v);
    Back(sh, id, r, sh, r1, v, sh.started);
  }

  lemma TakenEnds(sh: Shared, id: RequestId, r: Request, n: nat, v: Verdict)
    requires r.pc == ReadTaken(n) && 1 <= n <= ATTEMPTS && HasNoRecord(sh, r) && r.foreign == FirstIsAnothers(sh, r)
    requires v == if AnyClose(sh.entries[r.scope]) then ClosedVerdict(r, r.foreign, r.indexed) else Recorded(Uncertain)
    ensures Ends(sh, id, r, v, sh.started)
  {
    var e := sh.entries[r.scope];
    if Closes(e, n) {
      ClosedEnds(sh, id, r);
      Back(sh, id, r, sh, ClosedKey(r), v, sh.started);
    } else {
      if AnyClose(e) { RescanFinds(sh, id, r.At(Rescanning(1)), 1); } else { RescanEnds(sh, id, r.At(Rescanning(1))); }
      Back(sh, id, r, sh, r.At(Rescanning(1)), v, sh.started);
    }
  }

  lemma {:induction false} RescanFinds(sh: Shared, id: RequestId, r: Request, k: nat)
    requires r.pc == Rescanning(k) && r.scope in sh.entries && r.foreign == FirstIsAnothers(sh, r)
    requires exists n :: 1 <= k <= n <= ATTEMPTS && Closes(sh.entries[r.scope], n)
    ensures Ends(sh, id, r, ClosedVerdict(r, r.foreign, r.indexed), sh.started)
    decreases ATTEMPTS - k
  {
    var v := ClosedVerdict(r, r.foreign, r.indexed);
    if Closes(sh.entries[r.scope], k) {
      ClosedEnds(sh, id, r);
      Back(sh, id, r, sh, ClosedKey(r), v, sh.started);
    } else {
      RescanFinds(sh, id, r.At(Rescanning(k + 1)), k + 1);
      Back(sh, id, r, sh, r.At(Rescanning(k + 1)), v, sh.started);
    }
  }
}
