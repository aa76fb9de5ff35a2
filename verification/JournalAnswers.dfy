/** What a request's answer means, over every run. */
module JournalAnswers {
  import opened Wrappers
  import opened Journal
  import opened JournalSafety
  import opened JournalTheorems
  import opened JournalReference

  /* ---------- What each verdict says of the store, over every run ---------- */

  /** What a verdict says, for the stores before and after the step that gives it. */
  ghost predicate Means(sh: Shared, sh': Shared, id: RequestId, r: Request, v: Verdict) {
    match v
    case Refused => true
    case ScopeConflict => FirstIsAnothers(sh, r)
    case ActorOnly => r.sender.Other?
    case OutcomeUnknown => r.reconcile && r.scope !in sh.entries && sh.index.Some? && sh.index.value.scope == r.scope
    case KeyConflict => r.scope in sh.entries && sh.entries[r.scope].content != r.content
    case Exhausted =>
      r.scope in sh.entries && forall m :: 1 <= m <= ATTEMPTS ==> m in sh.entries[r.scope].answers && sh.entries[r.scope].answers[m].whole
    case SaidNotDispatched => r.reconcile && NotDispatched(r.scope) in sh'.replies
    case SaidClosed => !r.reconcile && KeyClosed(r.scope) in sh'.replies
    case Replayed(outcome) => Retains(sh, r, outcome)
    case Recorded(outcome) => Retains(sh', r, outcome)
    case SaidRetry =>
      r.scope in sh'.entries && (forall st :: st in sh'.started ==> st.maker != id)
      && exists n :: (r.scope, n) in sh'.freed && n in sh'.entries[r.scope].answers && sh'.entries[r.scope].answers[n].whole
  }

  /** What a request has noted that the invariant of the safety proof does not say. */
  ghost predicate Noted(sh: Shared, r: Request) {
    && (r.foreign || AtForeignHas(r.pc) || r.pc.HoldForeignHas? ==> FirstIsAnothers(sh, r))
    && (r.pc.Recording? && r.pc.record.SyncAction? ==> Retains(sh, r, r.pc.outcome))
    && (r.pc.Releasing? && (r.pc.release.SyncAnswer? || r.pc.release.SyncRelease?) ==>
          r.scope in sh.entries && r.pc.n in sh.entries[r.scope].answers && sh.entries[r.scope].answers[r.pc.n].whole)
  }

  lemma NotedUndisturbed(sh: Shared, sh': Shared, id: RequestId, r: Request)
    requires Grows(id, sh, sh') && Noted(sh, r)
    ensures Noted(sh', r)
  {
    if r.scope in sh.entries { assert EntryGrows(id, sh.entries[r.scope], sh'.entries[r.scope]); }
  }

  /* One lemma for each operation: what it notes, and what its verdicts say. */

  ghost predicate Says(sh: Shared, id: RequestId, r: Request, out: (Shared, Request)) {
    Noted(out.0, out.1) && (out.1.pc.Done? ==> Means(sh, out.0, id, r, out.1.pc.verdict))
  }

  ghost predicate Ready(sh: Shared, id: RequestId, r: Request) { RequestKept(sh, id, r) && Noted(sh, r) }

  lemma StartSays(sh: Shared, id: RequestId, r: Request)
    requires Ready(sh, id, r) && r.pc.Starting?
    ensures Says(sh, id, r, (sh, ActStart(sh, r)))
  {
    match r.pc.start
    case ReadIndex =>
    case ForeignHas =>
    case SenderHas =>
    case ReconcileHas =>
  }

  lemma ReserveClosedSays(sh: Shared, id: RequestId, r: Request)
    requires Ready(sh, id, r) && r.pc.ReserveClosed?
    ensures Says(sh, id, r, ActReserveClosed(sh, id, r))
  {
  }

  lemma HoldSays(sh: Shared, id: RequestId, r: Request)
    requires Ready(sh, id, r) && r.pc.Holding?
    ensures Says(sh, id, r, ActHold(sh, r))
  {
    match r.pc.hold
    case Read =>
    case Link =>
    case Reread =>
    case SyncIndex =>
    case SyncParent =>
  }

  lemma ReserveSays(sh: Shared, id: RequestId, r: Request)
    requires Ready(sh, id, r) && r.pc.Reserving?
    ensures Says(sh, id, r, ActReserve(sh, r))
  {
    match r.pc.reserve
    case LookEntry =>
    case PublishEntry =>
    case SyncRoot =>
    case OpenEntry =>
  }

  lemma ScanSays(sh: Shared, id: RequestId, r: Request)
    requires Ready(sh, id, r) && r.pc.Scanning?
    ensures Says(sh, id, r, (sh, ActScan(sh, r)))
  {
  }

  lemma AttemptSays(sh: Shared, id: RequestId, r: Request)
    requires Ready(sh, id, r) && r.pc.Attempting? && r.scope in sh.entries
    ensures Says(sh, id, r, (sh, ActAttempt(sh.entries[r.scope], r)))
  {
    match r.pc.look
    case LookMarker =>
    case ReadMarker =>
    case ReadAnswer =>
  }

  lemma CloseSays(sh: Shared, id: RequestId, r: Request)
    requires Ready(sh, id, r) && r.pc.Closing? && r.scope in sh.entries
    ensures Says(sh, id, r, ActClose(sh, id, r))
  {
    match r.pc.close
    case LookLater(_) =>
    case LinkClose =>
    case SyncClose =>
  }

  lemma ClaimSays(sh: Shared, id: RequestId, r: Request, c: Choice)
    requires Ready(sh, id, r) && r.pc.Claiming? && r.scope in sh.entries
    ensures Says(sh, id, r, ActClaim(sh, id, r, c))
  {
    match r.pc.claim
    case CreateMarker =>
    case WriteMarker =>
    case SyncMarker =>
    case SyncClaim =>
    case RunSource =>
  }

  lemma ReleaseSays(sh: Shared, id: RequestId, r: Request, c: Choice)
    requires Ready(sh, id, r) && r.pc.Releasing? && r.scope in sh.entries
    ensures Says(sh, id, r, ActRelease(sh, r, c))
  {
    match r.pc.release
    case CreateAnswer =>
    case WriteAnswer =>
    case SyncAnswer =>
    case SyncRelease =>
  }

  lemma RecordSays(sh: Shared, id: RequestId, r: Request)
    requires Ready(sh, id, r) && r.pc.Recording? && r.scope in sh.entries
    ensures Says(sh, id, r, ActRecord(sh, r))
  {
    assert HasClaim(sh, r);
    match r.pc.record
    case LinkAction =>
    case SyncAction => assert Retains(SyncEntryDir(sh, r.scope), r, r.pc.outcome);
  }

  lemma AnswerSays(sh: Shared, id: RequestId, r: Request)
    requires Ready(sh, id, r) && r.pc.Answering?
    ensures Says(sh, id, r, ActAnswer(sh, r))
  {
  }

  lemma HoldForeignSays(sh: Shared, id: RequestId, r: Request)
    requires Ready(sh, id, r) && r.pc.HoldForeignHas?
    ensures Says(sh, id, r, (sh, ActHoldForeign(sh, r)))
  {
  }

  lemma ReadActionSays(sh: Shared, id: RequestId, r: Request)
    requires Ready(sh, id, r) && r.pc.ReadAction?
    ensures Says(sh, id, r, (sh, ActReadAction(sh, r)))
  {
  }

  lemma ReadTakenSays(sh: Shared, id: RequestId, r: Request)
    requires Ready(sh, id, r) && r.pc.ReadTaken? && r.scope in sh.entries
    ensures Says(sh, id, r, (sh, ActReadTaken(sh.entries[r.scope], r)))
  {
  }

  lemma RescanSays(sh: Shared, id: RequestId, r: Request)
    requires Ready(sh, id, r) && r.pc.Rescanning? && r.scope in sh.entries
    ensures Says(sh, id, r, (sh, ActRescan(sh.entries[r.scope], r)))
  {
  }

  lemma RanSays(sh: Shared, id: RequestId, r: Request, outcome: Outcome)
    requires Ready(sh, id, r) && r.pc.Ran?
    ensures Says(sh, id, r, (sh, r.At(Recording(LinkAction, outcome))))
  {
  }

  lemma RefusedSays(sh: Shared, id: RequestId, r: Request)
    requires Noted(sh, r)
    ensures Says(sh, id, r, (sh, r.At(Done(Refused))))
  {
  }

  lemma BeforeOpening(sh: Shared, id: RequestId, r: Request, c: Choice)
    requires Ready(sh, id, r) && Early(r.pc)
    ensures Says(sh, id, r, Act(sh, id, r, c))
  {
    match r.pc
    case Starting(_) => StartSays(sh, id, r);
    case ReserveClosed => ReserveClosedSays(sh, id, r);
    case Holding(_, _) => HoldSays(sh, id, r);
    case HoldForeignHas => HoldForeignSays(sh, id, r);
    case Reserving(_) => ReserveSays(sh, id, r);
    case Scanning(_) => ScanSays(sh, id, r);
    case ReadAction => ReadActionSays(sh, id, r);
  }

  lemma OnceOpened(sh: Shared, id: RequestId, r: Request, c: Choice)
    requires Ready(sh, id, r) && Opened(r.pc) && r.scope in sh.entries
    ensures Says(sh, id, r, Act(sh, id, r, c))
  {
    match r.pc
    case Attempting(_, _) => AttemptSays(sh, id, r);
    case Closing(_, _) => CloseSays(sh, id, r);
    case ReadTaken(_) => ReadTakenSays(sh, id, r);
    case Claiming(_, _) => ClaimSays(sh, id, r, c);
    case Releasing(_, _) => ReleaseSays(sh, id, r, c);
    case Ran(_) => RanSays(sh, id, r, if c.Well? then Response else Uncertain);
    case Rescanning(_) => RescanSays(sh, id, r);
    case Recording(_, _) => RecordSays(sh, id, r);
    case Answering(_) => AnswerSays(sh, id, r);
  }

  lemma ActSays(sh: Shared, id: RequestId, r: Request, c: Choice)
    requires Ready(sh, id, r) && !r.pc.Done?
    ensures Says(sh, id, r, Act(sh, id, r, c))
  {
    if !Opened(r.pc) { BeforeOpening(sh, id, r, c); }
    else if r.scope in sh.entries { OnceOpened(sh, id, r, c); }
    else { RefusedSays(sh, id, r); }
  }

  /* Over runs. */

  lemma {:induction false} RunNotes(states: seq<State>, events: seq<Event>, i: nat)
    requires IsRun(states, events) && i < |states|
    ensures forall id :: id in states[i].requests ==> Noted(states[i].sh, states[i].requests[id])
  {
    if i > 0 {
      RunNotes(states, events, i - 1);
      RunSafe(states, events, i - 1);
      assert NextAt(states, events, i - 1);
      NextNotes(states[i - 1], events[i - 1], states[i]);
    }
  }

  lemma NextNotes(s: State, ev: Event, s': State)
    requires Safe(s) && Next(s, ev, s') && forall id :: id in s.requests ==> Noted(s.sh, s.requests[id])
    ensures forall id :: id in s'.requests ==> Noted(s'.sh, s'.requests[id])
  {
    if ev.Step? {
      var r := s.requests[ev.id];
      EveryStep(s.sh, ev.id, r, ev.c);
      assert RequestKept(s.sh, ev.id, r);
      forall id | id in s'.requests ensures Noted(s'.sh, s'.requests[id]) {
        if id != ev.id { NotedUndisturbed(s.sh, s'.sh, ev.id, s.requests[id]); }
        else if !r.pc.Done? { ActSays(s.sh, id, r, ev.c); }
      }
    }
  }

  /** In every run, the step that gives a request its verdict finds the store, or leaves it, as the
      verdict says. */
  lemma VerdictMeans(states: seq<State>, events: seq<Event>, i: nat, id: RequestId, c: Choice)
    requires IsRun(states, events) && i < |events| && events[i] == Step(id, c)
    requires id in states[i].requests && !states[i].requests[id].pc.Done?
    requires id in states[i + 1].requests && states[i + 1].requests[id].pc.Done?
    ensures Means(states[i].sh, states[i + 1].sh, id, states[i].requests[id], states[i + 1].requests[id].pc.verdict)
  {
    RunSafe(states, events, i);
    RunNotes(states, events, i);
    assert NextAt(states, events, i);
    assert RequestKept(states[i].sh, id, states[i].requests[id]);
    ActSays(states[i].sh, id, states[i].requests[id], c);
  }

  /** A request with a verdict was given it by a step of its own. */
  lemma {:induction false} GivenByStep(states: seq<State>, events: seq<Event>, j: nat, id: RequestId) returns (i: nat, c: Choice)
    requires IsRun(states, events) && j < |states| && id in states[j].requests && states[j].requests[id].pc.Done?
    ensures i < j && events[i] == Step(id, c) && id in states[i].requests && !states[i].requests[id].pc.Done?
    ensures id in states[i + 1].requests && states[i + 1].requests[id] == states[j].requests[id]
    ensures states[i].requests[id].SameAsked(states[j].requests[id])
  {
    assert j > 0 && NextAt(states, events, j - 1);
    var ev := events[j - 1];
    if ev.Step? && ev.id == id && !states[j - 1].requests[id].pc.Done? {
      i, c := j - 1, ev.c;
    } else {
      i, c := GivenByStep(states, events, j - 1, id);
    }
  }

  /** A request answered from retained evidence was answered what its own scope's reservation, of its
      own content, retained in some state of the run. */
  lemma ReplayedWasRetained(states: seq<State>, events: seq<Event>, j: nat, id: RequestId, outcome: Outcome)
    requires IsRun(states, events) && j < |states| && id in states[j].requests && states[j].requests[id].pc == Done(Replayed(outcome))
    ensures exists i :: 0 <= i < j && Retains(states[i].sh, states[j].requests[id], outcome)
  {
    var i, c := GivenByStep(states, events, j, id);
    VerdictMeans(states, events, i, id, c);
  }

  /** The same of a request that recorded its outcome itself. */
  lemma RecordedIsRetained(states: seq<State>, events: seq<Event>, j: nat, id: RequestId, outcome: Outcome)
    requires IsRun(states, events) && j < |states| && id in states[j].requests && states[j].requests[id].pc == Done(Recorded(outcome))
    ensures exists i :: 0 <= i <= j && Retains(states[i].sh, states[j].requests[id], outcome)
  {
    var i, c := GivenByStep(states, events, j, id);
    VerdictMeans(states, events, i, id, c);
    assert Retains(states[i + 1].sh, states[j].requests[id], outcome);
  }

  /* ---------- A retained outcome never changes while its name stands ---------- */

  ghost predicate Stands(sh: Shared, s: Scope) { s in sh.entries && sh.entries[s].action.Some? }

  ghost predicate Holds(sh: Shared, s: Scope, content: Content, outcome: Outcome) {
    Stands(sh, s) && sh.entries[s].content == content && sh.entries[s].action.value.outcome == outcome
  }

  lemma NextOutcome(s: State, ev: Event, s': State, scope: Scope, content: Content, outcome: Outcome)
    requires Safe(s) && Next(s, ev, s') && Holds(s.sh, scope, content, outcome) && Stands(s'.sh, scope)
    ensures Holds(s'.sh, scope, content, outcome)
  {
    if ev.Step? {
      EveryStep(s.sh, ev.id, s.requests[ev.id], ev.c);
      assert EntryGrows(ev.id, s.sh.entries[scope], s'.sh.entries[scope]);
    } else if ev.PowerLoss? {
      assert RecoversEntry(s.sh.entries[scope], s'.sh.entries[scope]);
    }
  }

  lemma StepStands(states: seq<State>, events: seq<Event>, k: nat, scope: Scope, content: Content, outcome: Outcome)
    requires IsRun(states, events) && k < |events|
    ensures Holds(states[k].sh, scope, content, outcome) && Stands(states[k + 1].sh, scope) ==> Holds(states[k + 1].sh, scope, content, outcome)
  {
    RunSafe(states, events, k);
    assert NextAt(states, events, k);
    if Holds(states[k].sh, scope, content, outcome) && Stands(states[k + 1].sh, scope) {
      NextOutcome(states[k], events[k], states[k + 1], scope, content, outcome);
    }
  }

  /** While the record's name stands, its content and outcome do. */
  lemma {:induction false} OutcomeStands(states: seq<State>, events: seq<Event>, i: nat, j: nat, scope: Scope, content: Content, outcome: Outcome)
    requires IsRun(states, events) && i <= j < |states| && Holds(states[i].sh, scope, content, outcome)
    requires forall k :: i <= k <= j ==> Stands(states[k].sh, scope)
    ensures Holds(states[j].sh, scope, content, outcome)
    decreases j - i
  {
    if i < j {
      OutcomeStands(states, events, i, j - 1, scope, content, outcome);
      StepStands(states, events, j - 1, scope, content, outcome);
    }
  }

  /* ---------- A response is told as one, and nothing else is ---------- */

  /** The program ran and its result read, and that is being recorded, was recorded or could not be. */
  predicate HasResponse(pc: PC) {
    match pc
    case Recording(_, outcome) => outcome.Response?
    case Done(verdict) => verdict == Recorded(Response)
    case _ => false
  }

  /** The step at which the program of the request is found to have done well. */
  predicate ReadsWell(states: seq<State>, events: seq<Event>, i: nat, id: RequestId)
    requires |states| == |events| + 1 && i < |events|
  {
    events[i] == Step(id, Well) && id in states[i].requests && states[i].requests[id].pc.Ran?
  }

  predicate NoResponse(out: (Shared, Request)) { HasResponse(out.1.pc) == false }

  lemma StartNoResponse(sh: Shared, r: Request)
    requires r.pc.Starting?
    ensures NoResponse((sh, ActStart(sh, r)))
  {
    match r.pc.start
    case ReadIndex =>
    case ForeignHas =>
    case SenderHas =>
    case ReconcileHas =>
  }

  lemma ReserveClosedNoResponse(sh: Shared, id: RequestId, r: Request)
    requires r.pc.ReserveClosed?
    ensures NoResponse(ActReserveClosed(sh, id, r))
  {
  }

  lemma HoldNoResponse(sh: Shared, r: Request)
    requires r.pc.Holding?
    ensures NoResponse(ActHold(sh, r))
  {
    if r.pc.hold.SyncParent? {
      AfterHoldAnswers(SyncRootDir(sh), r, r.pc.after);
    } else if r.pc.hold.SyncIndex? || r.pc.hold.Link? {
      HoldMovesOn(sh, r);
    } else {
      HoldForeignAnswers(r, r.pc.after);
    }
  }

  lemma HoldMovesOn(sh: Shared, r: Request)
    requires r.pc.Holding? && (r.pc.hold.SyncIndex? || r.pc.hold.Link?)
    ensures ActHold(sh, r).1.pc.Holding?
  {
  }

  lemma HoldForeignAnswers(r: Request, after: After)
    ensures !HasResponse(HoldForeign(r, after).pc)
  {
  }

  lemma AfterHoldAnswers(sh: Shared, r: Request, after: After)
    ensures NoResponse(AfterHold(sh, r, after))
  {
  }

  lemma ReserveNoResponse(sh: Shared, r: Request)
    requires r.pc.Reserving?
    ensures NoResponse(ActReserve(sh, r))
  {
    match r.pc.reserve
    case LookEntry =>
    case PublishEntry =>
    case SyncRoot =>
    case OpenEntry =>
  }

  lemma ScanNoResponse(sh: Shared, r: Request)
    requires r.pc.Scanning?
    ensures NoResponse((sh, ActScan(sh, r)))
  {
  }

  lemma AttemptNoResponse(sh: Shared, r: Request)
    requires r.pc.Attempting? && r.scope in sh.entries
    ensures NoResponse((sh, ActAttempt(sh.entries[r.scope], r)))
  {
    match r.pc.look
    case LookMarker =>
    case ReadMarker =>
    case ReadAnswer =>
  }

  lemma CloseNoResponse(sh: Shared, id: RequestId, r: Request)
    requires r.pc.Closing? && r.scope in sh.entries
    ensures NoResponse(ActClose(sh, id, r))
  {
    match r.pc.close
    case LookLater(_) =>
    case LinkClose =>
    case SyncClose =>
  }

  lemma ClaimNoResponse(sh: Shared, id: RequestId, r: Request, c: Choice)
    requires r.pc.Claiming? && r.scope in sh.entries
    ensures NoResponse(ActClaim(sh, id, r, c))
  {
    match r.pc.claim
    case CreateMarker =>
    case WriteMarker =>
    case SyncMarker =>
    case SyncClaim =>
    case RunSource =>
  }

  lemma ReleaseNoResponse(sh: Shared, r: Request, c: Choice)
    requires r.pc.Releasing? && r.scope in sh.entries
    ensures NoResponse(ActRelease(sh, r, c))
  {
    match r.pc.release
    case CreateAnswer =>
    case WriteAnswer =>
    case SyncAnswer =>
    case SyncRelease =>
  }

  lemma AnswerNoResponse(sh: Shared, r: Request)
    requires r.pc.Answering?
    ensures NoResponse(ActAnswer(sh, r))
  {
  }

  lemma RescanNoResponse(sh: Shared, r: Request)
    requires r.pc.Rescanning? && r.scope in sh.entries
    ensures NoResponse((sh, ActRescan(sh.entries[r.scope], r)))
  {
  }

  lemma HoldForeignNoResponse(sh: Shared, r: Request)
    requires r.pc.HoldForeignHas?
    ensures NoResponse((sh, ActHoldForeign(sh, r)))
  {
  }

  lemma ReadActionNoResponse(sh: Shared, r: Request)
    requires r.pc.ReadAction?
    ensures NoResponse((sh, ActReadAction(sh, r)))
  {
  }

  lemma ReadTakenNoResponse(sh: Shared, r: Request)
    requires r.pc.ReadTaken? && r.scope in sh.entries
    ensures NoResponse((sh, ActReadTaken(sh.entries[r.scope], r)))
  {
  }

  lemma NoResponseReserving(sh: Shared, id: RequestId, r: Request, c: Choice)
    requires r.pc.ReserveClosed? || r.pc.Reserving? || r.pc.Scanning? || r.pc.ReadAction?
    ensures NoResponse(Act(sh, id, r, c))
  {
    if r.pc.ReserveClosed? { ReserveClosedNoResponse(sh, id, r); }
    else if r.pc.Reserving? { ReserveNoResponse(sh, r); }
    else if r.pc.Scanning? { ScanNoResponse(sh, r); }
    else { ReadActionNoResponse(sh, r); }
  }

  lemma NoResponseYet(sh: Shared, id: RequestId, r: Request, c: Choice)
    requires Early(r.pc)
    ensures NoResponse(Act(sh, id, r, c))
  {
    if r.pc.Starting? { StartNoResponse(sh, r); }
    else if r.pc.Holding? { HoldNoResponse(sh, r); }
    else if r.pc.HoldForeignHas? { HoldForeignNoResponse(sh, r); }
    else { NoResponseReserving(sh, id, r, c); }
  }

  lemma NoResponseFrom(sh: Shared, id: RequestId, r: Request, c: Choice)
    requires Opened(r.pc) && !r.pc.Ran? && !r.pc.Recording? && r.scope in sh.entries
    ensures NoResponse(Act(sh, id, r, c))
  {
    match r.pc
    case Attempting(_, _) => AttemptNoResponse(sh, r);
    case Closing(_, _) => CloseNoResponse(sh, id, r);
    case ReadTaken(_) => ReadTakenNoResponse(sh, r);
    case Claiming(_, _) => ClaimNoResponse(sh, id, r, c);
    case Releasing(_, _) => ReleaseNoResponse(sh, r, c);
    case Rescanning(_) => RescanNoResponse(sh, r);
    case Answering(_) => AnswerNoResponse(sh, r);
  }

  lemma RecordingStep(sh: Shared, id: RequestId, r: Request, c: Choice)
    requires r.pc.Ran? || r.pc.Recording? || r.pc.Done?
    ensures HasResponse(Act(sh, id, r, c).1.pc) ==> HasResponse(r.pc) || (r.pc.Ran? && c.Well?)
  {
  }

  /** One step into a response comes from one, or is that step. */
  lemma ResponseStep(sh: Shared, id: RequestId, r: Request, c: Choice)
    requires HasResponse(Act(sh, id, r, c).1.pc)
    ensures HasResponse(r.pc) || (r.pc.Ran? && c.Well?)
  {
    if r.pc.Ran? || r.pc.Recording? || r.pc.Done? { RecordingStep(sh, id, r, c); }
    else if !Opened(r.pc) { NoResponseYet(sh, id, r, c); }
    else if r.scope in sh.entries { NoResponseFrom(sh, id, r, c); }
  }

  /** And one step out of it only ends it. */
  lemma ResponseStays(sh: Shared, id: RequestId, r: Request, c: Choice)
    requires HasResponse(r.pc) || (r.pc.Ran? && c.Well?) || r.pc == Done(Refused)
    ensures var pc := Act(sh, id, r, c).1.pc; HasResponse(pc) || pc == Done(Refused)
  {
  }

  /** In every run, a request answered with a response it recorded ran a program whose result read. */
  lemma {:induction false} ResponseWasRead(states: seq<State>, events: seq<Event>, j: nat, id: RequestId) returns (i: nat)
    requires IsRun(states, events) && j < |states| && id in states[j].requests && HasResponse(states[j].requests[id].pc)
    ensures i < j && ReadsWell(states, events, i, id)
  {
    assert j > 0 && NextAt(states, events, j - 1);
    var ev := events[j - 1];
    if ev.Step? && ev.id == id {
      ResponseStep(states[j - 1].sh, id, states[j - 1].requests[id], ev.c);
      if HasResponse(states[j - 1].requests[id].pc) { i := ResponseWasRead(states, events, j - 1, id); } else { i := j - 1; }
    } else {
      i := ResponseWasRead(states, events, j - 1, id);
    }
  }

  /** In every run, a request whose program's result read is never answered anything but that response,
      or a refusal where the record could not be made. */
  lemma {:induction false} ReadIsTold(states: seq<State>, events: seq<Event>, i: nat, j: nat, id: RequestId)
    requires IsRun(states, events) && i < j < |states| && ReadsWell(states, events, i, id) && id in states[j].requests
    ensures HasResponse(states[j].requests[id].pc) || states[j].requests[id].pc == Done(Refused)
    decreases j
  {
    assert NextAt(states, events, j - 1);
    UsedKept(states, events, i, j - 1, id);
    if j - 1 > i { ReadIsTold(states, events, i, j - 1, id); }
    if events[j - 1].Step? && events[j - 1].id == id {
      ResponseStays(states[j - 1].sh, id, states[j - 1].requests[id], events[j - 1].c);
    }
  }

  /** An identifier once used is not given again: a request there later was there before. */
  lemma {:induction false} UsedKept(states: seq<State>, events: seq<Event>, i: nat, j: nat, id: RequestId)
    requires IsRun(states, events) && i <= j < |events| && id in states[i].requests
    ensures id in states[j].used && (id in states[j + 1].requests ==> id in states[j].requests)
    decreases j
  {
    assert NextAt(states, events, j);
    if i < j {
      UsedKept(states, events, i, j - 1, id);
      assert NextAt(states, events, j - 1);
    } else {
      AllUsed(states, events, i, id);
    }
  }

  lemma {:induction false} AllUsed(states: seq<State>, events: seq<Event>, i: nat, id: RequestId)
    requires IsRun(states, events) && i < |states| && id in states[i].requests
    ensures id in states[i].used
  {
    if i > 0 {
      assert NextAt(states, events, i - 1);
      if id in states[i - 1].requests { AllUsed(states, events, i - 1, id); }
    }
  }
}
