/** What the journal promises, over every run: any number of requests, interleaved in any
    order, dying anywhere, and any number of losses of power. */
module JournalTheorems {
  import opened Wrappers
  import opened Journal
  import opened JournalSafety

  ghost predicate Safe(s: State) {
    && Kept(s.sh)
    && (forall id :: id in s.requests ==> id in s.used && RequestKept(s.sh, id, s.requests[id]))
    && (forall st :: st in s.sh.started ==> st.maker in s.used)
  }

  /* ---------- A loss of power keeps the store ---------- */

  lemma FreedBelowRecovers(sh: Shared, sh': Shared, s: Scope, n: nat, m: nat)
    requires Kept(sh) && Recovers(sh, sh') && s in sh'.entries && n in sh'.entries[s].markers && 1 <= m < n
    ensures m in sh'.entries[s].markers && (s, m) in sh'.freed
  {
    assert EntryKept(sh, s) && RecoversEntry(sh.entries[s], sh'.entries[s]);
    assert (s, m) in sh.freed;
    assert Durable(sh, (s, m).0, (s, m).1);
  }

  lemma EntryRecovers(sh: Shared, sh': Shared, s: Scope)
    requires s in sh.entries && s in sh'.entries && EntryKept(sh, s) && RecoversEntry(sh.entries[s], sh'.entries[s])
    requires sh'.freed == sh.freed && sh'.started == sh.started
    requires forall n, m :: n in sh'.entries[s].markers && 1 <= m < n ==> m in sh'.entries[s].markers && (s, m) in sh'.freed
    ensures EntryKept(sh', s)
  {
  }

  lemma DurableRecovers(sh: Shared, sh': Shared, s: Scope, n: nat)
    requires Recovers(sh, sh') && Durable(sh, s, n)
    ensures Durable(sh', s, n)
  {
    assert RecoversEntry(sh.entries[s], sh'.entries[s]);
  }

  lemma StartRecovers(sh: Shared, sh': Shared, st: Start)
    requires Recovers(sh, sh') && StartKept(sh, st)
    ensures StartKept(sh', st)
  {
    DurableRecovers(sh, sh', st.scope, st.attempt);
    assert RecoversEntry(sh.entries[st.scope], sh'.entries[st.scope]);
  }

  lemma ClosedDurablyRecovers(sh: Shared, sh': Shared, s: Scope)
    requires Kept(sh) && Recovers(sh, sh') && ClosedDurably(sh, s)
    ensures ClosedDurably(sh', s)
  {
    assert EntryKept(sh, s) && RecoversEntry(sh.entries[s], sh'.entries[s]);
    var n :| Closes(sh.entries[s], n) && sh.entries[s].markers[n].nameSynced;
    assert Closes(sh'.entries[s], n);
  }

  /** Everything a caller was told, and every program started, outlives a loss of power. */
  lemma PowerLossKeeps(sh: Shared, sh': Shared)
    requires Kept(sh) && Recovers(sh, sh')
    ensures Kept(sh')
  {
    forall s | s in sh'.entries ensures EntryKept(sh', s) {
      forall n, m | n in sh'.entries[s].markers && 1 <= m < n ensures m in sh'.entries[s].markers && (s, m) in sh'.freed {
        FreedBelowRecovers(sh, sh', s, n, m);
      }
      EntryRecovers(sh, sh', s);
    }
    forall f | f in sh'.freed ensures Durable(sh', f.0, f.1) { DurableRecovers(sh, sh', f.0, f.1); }
    forall st | st in sh'.started ensures StartKept(sh', st) { StartRecovers(sh, sh', st); }
    forall p | p in sh'.replies ensures ClosedDurably(sh', p.scope) && (p.NotDispatched? ==> HoldsIndex(sh', p.scope)) {
      ClosedDurablyRecovers(sh, sh', p.scope);
    }
  }

  /* ---------- Every event keeps the machine safe ---------- */

  lemma ArrivalSafe(s: State, id: RequestId, r: Request, s': State)
    requires Safe(s) && Next(s, Arrive(id, r), s')
    ensures Safe(s')
  {
    var keyScope, reconcile :| Sends(r, keyScope, reconcile);
    assert RequestKept(s.sh, id, r);
  }

  lemma StepSafe(s: State, id: RequestId, c: Choice, s': State)
    requires Safe(s) && Next(s, Step(id, c), s')
    ensures Safe(s')
  {
    var r := s.requests[id];
    EveryStep(s.sh, id, r, c);
    var out := Act(s.sh, id, r, c);
    assert Grows(id, s.sh, out.0);
    forall other | other in s'.requests ensures other in s'.used && RequestKept(s'.sh, other, s'.requests[other]) {
      if other != id { Undisturbed(s.sh, s'.sh, id, other, s.requests[other]); }
    }
  }

  lemma NextSafe(s: State, ev: Event, s': State)
    requires Safe(s) && Next(s, ev, s')
    ensures Safe(s')
  {
    match ev
    case Arrive(id, r) => ArrivalSafe(s, id, r, s');
    case Die(id) =>
    case Step(id, c) => StepSafe(s, id, c, s');
    case PowerLoss => PowerLossKeeps(s.sh, s'.sh);
  }

  lemma {:induction false} RunSafe(states: seq<State>, events: seq<Event>, i: nat)
    requires IsRun(states, events) && i < |states|
    ensures Safe(states[i])
  {
    if i > 0 {
      RunSafe(states, events, i - 1);
      assert NextAt(states, events, i - 1);
      NextSafe(states[i - 1], events[i - 1], states[i]);
    }
  }

  /* ---------- History only grows ---------- */

  lemma NextRemembers(s: State, ev: Event, s': State)
    requires Safe(s) && Next(s, ev, s')
    ensures s.sh.started <= s'.sh.started && s.sh.replies <= s'.sh.replies
  {
    if ev.Step? {
      EveryStep(s.sh, ev.id, s.requests[ev.id], ev.c);
    }
  }

  lemma StepRemembers(states: seq<State>, events: seq<Event>, i: nat)
    requires IsRun(states, events) && i < |events|
    ensures states[i].sh.started <= states[i + 1].sh.started && states[i].sh.replies <= states[i + 1].sh.replies
  {
    RunSafe(states, events, i);
    assert NextAt(states, events, i);
    NextRemembers(states[i], events[i], states[i + 1]);
  }

  lemma {:induction false} RunRemembers(states: seq<State>, events: seq<Event>, i: nat, j: nat)
    requires IsRun(states, events) && i <= j < |states|
    ensures states[i].sh.started <= states[j].sh.started && states[i].sh.replies <= states[j].sh.replies
    decreases j - i
  {
    if i < j {
      RunRemembers(states, events, i, j - 1);
      StepRemembers(states, events, j - 1);
    }
  }

  /* ---------- The promises ---------- */

  /** In every run, at most one write program is ever started in one reservation. */
  lemma AtMostOneProgram(states: seq<State>, events: seq<Event>, i: nat, j: nat, a: Start, b: Start)
    requires IsRun(states, events) && i < |states| && j < |states|
    requires a in states[i].sh.started && b in states[j].sh.started && a.scope == b.scope
    ensures a == b
  {
    var k := if i < j then j else i;
    RunRemembers(states, events, i, k);
    RunRemembers(states, events, j, k);
    RunSafe(states, events, k);
  }

  /** When attempt n's program starts, every attempt below n holds a complete
      not-dispatched answer, and none of them is started, before or after. */
  lemma StartsOnAnsweredAttempts(states: seq<State>, events: seq<Event>, i: nat, st: Start, m: nat)
    requires IsRun(states, events) && i < |events|
    requires st in states[i + 1].sh.started && st !in states[i].sh.started && 1 <= m < st.attempt
    ensures st.scope in states[i].sh.entries
    ensures m in states[i].sh.entries[st.scope].answers && states[i].sh.entries[st.scope].answers[m].whole
    ensures forall j, other :: 0 <= j < |states| && other in states[j].sh.started && other.scope == st.scope ==> other.attempt != m
  {
    RunSafe(states, events, i);
    assert NextAt(states, events, i);
    OnlyClaimsStart(states[i], events[i], states[i + 1], st);
    var r := states[i].requests[events[i].id];
    assert PointKept(states[i].sh, events[i].id, r);
    forall j, other | 0 <= j < |states| && other in states[j].sh.started && other.scope == st.scope ensures other.attempt != m {
      AtMostOneProgram(states, events, i + 1, j, st, other);
    }
  }

  lemma ActStartsOnlyAtRun(sh: Shared, id: RequestId, r: Request, c: Choice, st: Start)
    requires st in Act(sh, id, r, c).0.started && st !in sh.started
    ensures r.pc.Claiming? && r.pc.claim.RunSource? && st == Start(r.scope, r.pc.n, id, r.MayHold())
  {
  }

  lemma OnlyClaimsStart(s: State, ev: Event, s': State, st: Start)
    requires Next(s, ev, s') && st in s'.sh.started && st !in s.sh.started
    ensures ev.Step? && ev.id in s.requests
    ensures var r := s.requests[ev.id];
            r.pc.Claiming? && r.pc.claim.RunSource? && st == Start(r.scope, r.pc.n, ev.id, r.MayHold())
  {
    if ev.Step? {
      ActStartsOnlyAtRun(s.sh, ev.id, s.requests[ev.id], ev.c, st);
    }
  }

  /** A durable close and a start exclude each other in one scope. */
  lemma ClosedNeverStarted(sh: Shared, s: Scope, st: Start)
    requires Kept(sh) && Closed(sh, s) && st in sh.started
    ensures st.scope != s
  {
    assert StartKept(sh, st) && EntryKept(sh, s);
    var n: nat :| Closes(sh.entries[s], n);
    assert (s, n) in sh.freed ==> Durable(sh, (s, n).0, (s, n).1);
  }

  /** Once any request was answered that nothing was dispatched, no program was or will be
      started: in that scope by anyone, and in no scope by a request that holds the first
      scope (one that sends keyScope, or a delegated run's actor). */
  lemma NotDispatchedIsForever(states: seq<State>, events: seq<Event>, i: nat, j: nat, s: Scope, st: Start)
    requires IsRun(states, events) && i < |states| && j < |states|
    requires NotDispatched(s) in states[i].sh.replies && st in states[j].sh.started
    ensures st.scope != s && !st.holds
  {
    var k := if i < j then j else i;
    RunRemembers(states, events, i, k);
    RunRemembers(states, events, j, k);
    RunSafe(states, events, k);
    var sh := states[k].sh;
    assert ClosedDurably(sh, NotDispatched(s).scope) && HoldsIndex(sh, s);
    ClosedNeverStarted(sh, s, st);
    assert StartKept(sh, st);
  }

  /** A key answered closed is never dispatched in its scope, before or after. */
  lemma ClosedAnswerIsForever(states: seq<State>, events: seq<Event>, i: nat, j: nat, s: Scope, st: Start)
    requires IsRun(states, events) && i < |states| && j < |states|
    requires KeyClosed(s) in states[i].sh.replies && st in states[j].sh.started
    ensures st.scope != s
  {
    var k := if i < j then j else i;
    RunRemembers(states, events, i, k);
    RunRemembers(states, events, j, k);
    RunSafe(states, events, k);
    assert ClosedDurably(states[k].sh, KeyClosed(s).scope);
    ClosedNeverStarted(states[k].sh, s, st);
  }

  /** Every request on the key sends keyScope or is made under a delegation. */
  predicate AllScoped(events: seq<Event>) {
    forall i :: 0 <= i < |events| && events[i].Arrive? ==> !events[i].r.sender.Plain?
  }

  lemma {:induction false} AllScopedStartsHold(states: seq<State>, events: seq<Event>, i: nat)
    requires IsRun(states, events) && AllScoped(events) && i < |states|
    ensures forall id :: id in states[i].requests ==> !states[i].requests[id].sender.Plain?
    ensures forall st :: st in states[i].sh.started ==> st.holds
  {
    if i > 0 {
      AllScopedStartsHold(states, events, i - 1);
      RunSafe(states, events, i - 1);
      var s, ev, s' := states[i - 1], events[i - 1], states[i];
      assert NextAt(states, events, i - 1);
      forall st | st in s'.sh.started ensures st.holds {
        if st !in s.sh.started {
          OnlyClaimsStart(s, ev, s', st);
          assert RequestKept(s.sh, ev.id, s.requests[ev.id]);
        }
      }
    }
  }

  /** Then one scope alone ever dispatches the key, and it dispatches once. */
  lemma OneScopeDispatches(states: seq<State>, events: seq<Event>, i: nat, j: nat, a: Start, b: Start)
    requires IsRun(states, events) && AllScoped(events) && i < |states| && j < |states|
    requires a in states[i].sh.started && b in states[j].sh.started
    ensures a == b
  {
    var k := if i < j then j else i;
    RunRemembers(states, events, i, k);
    RunRemembers(states, events, j, k);
    RunSafe(states, events, k);
    AllScopedStartsHold(states, events, k);
    assert StartKept(states[k].sh, a) && StartKept(states[k].sh, b);
  }

  /** Two stores with the same reservations, and in each the same markers. */
  ghost predicate SameNames(sh: Shared, sh': Shared) {
    && sh'.entries.Keys == sh.entries.Keys
    && sh'.started == sh.started && sh'.freed == sh.freed && sh'.replies == sh.replies
    && (forall s :: s in sh.entries ==>
          sh'.entries[s].markers.Keys == sh.entries[s].markers.Keys && sh'.entries[s].answers.Keys == sh.entries[s].answers.Keys)
  }

  /** A request under another's first scope never reserves, dispatches or closes: its steps
      add no reservation, no marker and no answer.  It may still record, in its own
      reservation, that an earlier dispatch is uncertain. */
  lemma ForeignNeverActs(states: seq<State>, events: seq<Event>, i: nat, id: RequestId, c: Choice)
    requires IsRun(states, events) && i < |events| && events[i] == Step(id, c)
    requires id in states[i].requests && states[i].requests[id].foreign
    ensures SameNames(states[i].sh, states[i + 1].sh)
    ensures id in states[i + 1].requests && states[i + 1].requests[id].foreign
  {
    RunSafe(states, events, i);
    assert NextAt(states, events, i);
    ForeignStep(states[i].sh, id, states[i].requests[id], c);
  }

  lemma SyncRootSameNames(sh: Shared)
    ensures SameNames(sh, SyncRootDir(sh))
  {
  }

  lemma ForeignRecord(sh: Shared, r: Request)
    requires r.foreign && r.pc.Recording? && r.scope in sh.entries
    ensures SameNames(sh, ActRecord(sh, r).0) && ActRecord(sh, r).1.foreign
  {
  }

  lemma ForeignStep(sh: Shared, id: RequestId, r: Request, c: Choice)
    requires LocalOk(r) && r.foreign
    ensures SameNames(sh, Act(sh, id, r, c).0) && Act(sh, id, r, c).1.foreign
  {
    if r.pc.Reserving? {
      SyncRootSameNames(sh);
    } else if r.pc.Recording? && r.scope in sh.entries {
      ForeignRecord(sh, r);
    } else {
      ForeignReads(sh, id, r, c);
    }
  }

  lemma ForeignReads(sh: Shared, id: RequestId, r: Request, c: Choice)
    requires LocalOk(r) && r.foreign && !r.pc.Reserving? && (r.pc.Recording? ==> r.scope !in sh.entries)
    ensures Act(sh, id, r, c).0 == sh && Act(sh, id, r, c).1.foreign
  {
    match r.pc
    case Starting(_) =>
    case Scanning(_) =>
    case _ =>
  }

  /** After any loss of power, whatever it dropped: a started program's reservation and
      dispatch marker are there, every reservation's markers are a prefix 1..k, and every
      closed or not-dispatched answer already given still rests on a close, the latter on
      the first scope too. */
  lemma RecoveryKeepsWhatWasSaid(states: seq<State>, events: seq<Event>, i: nat)
    requires IsRun(states, events) && i < |events| && events[i] == PowerLoss
    ensures var sh, was := states[i + 1].sh, states[i].sh;
            && (forall st :: st in was.started ==>
                  st.scope in sh.entries && st.attempt in sh.entries[st.scope].markers
                  && sh.entries[st.scope].markers[st.attempt].kind.Dispatch?)
            && (forall s :: s in sh.entries ==> GapFreePrefix(sh.entries[s]))
            && (forall p :: p in was.replies ==>
                  Closed(sh, p.scope) && (p.NotDispatched? ==> sh.index.Some? && sh.index.value.scope == p.scope))
  {
    RunSafe(states, events, i + 1);
    assert NextAt(states, events, i);
    var sh := states[i + 1].sh;
    forall st | st in states[i].sh.started
      ensures st.scope in sh.entries && st.attempt in sh.entries[st.scope].markers
              && sh.entries[st.scope].markers[st.attempt].kind.Dispatch?
    {
      assert StartKept(sh, st);
    }
    forall s | s in sh.entries ensures GapFreePrefix(sh.entries[s]) {
      GapFree(sh, s);
    }
    forall p | p in states[i].sh.replies
      ensures Closed(sh, p.scope) && (p.NotDispatched? ==> sh.index.Some? && sh.index.value.scope == p.scope)
    {
      assert p in sh.replies && ClosedDurably(sh, p.scope);
    }
  }

  /** The markers are exactly 1..k for some k within the bound. */
  ghost predicate GapFreePrefix(e: Reservation) {
    exists k: nat :: k <= ATTEMPTS && PrefixTo(e, k)
  }

  ghost predicate PrefixTo(e: Reservation, k: nat) {
    forall n: nat :: n in e.markers <==> 1 <= n <= k
  }

  lemma GapFree(sh: Shared, s: Scope)
    requires s in sh.entries && EntryKept(sh, s)
    ensures GapFreePrefix(sh.entries[s])
  {
    GapFreeFrom(sh, s, ATTEMPTS);
  }

  lemma {:induction false} GapFreeFrom(sh: Shared, s: Scope, k: nat)
    requires s in sh.entries && EntryKept(sh, s) && k <= ATTEMPTS
    requires forall n :: n in sh.entries[s].markers ==> n <= k
    ensures GapFreePrefix(sh.entries[s])
  {
    var e := sh.entries[s];
    if k == 0 || k in e.markers {
      forall n: nat | 1 <= n <= k ensures n in e.markers {
        if n < k { assert n in e.markers; }
      }
      assert PrefixTo(e, k);
    } else {
      GapFreeFrom(sh, s, k - 1);
    }
  }

  /** No state holds both a close and a retained action whose outcome is a response. */
  lemma NoCloseBesideResponse(states: seq<State>, events: seq<Event>, i: nat, s: Scope)
    requires IsRun(states, events) && i < |states| && Closed(states[i].sh, s)
    ensures var e := states[i].sh.entries[s]; e.action.Some? ==> e.action.value.outcome.Uncertain?
  {
    RunSafe(states, events, i);
    var sh := states[i].sh;
    assert EntryKept(sh, s);
    if sh.entries[s].action.Some? && sh.entries[s].action.value.outcome.Response? {
      var st :| st in sh.started && st.scope == s;
      ClosedNeverStarted(sh, s, st);
    }
  }

  /** A request that begins once its key is closed never reads action.json, never looks for
      an attempt, and is never answered from retained evidence, whatever is recorded since. */
  lemma ClosedKeyNeverConsultsAction(states: seq<State>, events: seq<Event>, i: nat, j: nat, id: RequestId, r: Request)
    requires IsRun(states, events) && i < |events| && events[i] == Arrive(id, r) && Closed(states[i].sh, r.scope)
    requires i < j < |states| && id in states[j].requests
    ensures var pc := states[j].requests[id].pc; !PastScan(pc) && !FromEvidence(pc)
  {
    LateStays(states, events, i, j, id, r);
    RunSafe(states, events, j);
    assert RequestKept(states[j].sh, id, states[j].requests[id]);
  }

  lemma {:induction false} LateStays(states: seq<State>, events: seq<Event>, i: nat, j: nat, id: RequestId, r: Request)
    requires IsRun(states, events) && i < |events| && events[i] == Arrive(id, r) && Closed(states[i].sh, r.scope)
    requires i < j < |states|
    ensures id in states[j].used
    ensures id in states[j].requests ==> states[j].requests[id].late
    decreases j
  {
    assert NextAt(states, events, j - 1);
    if j - 1 > i {
      LateStays(states, events, i, j - 1, id, r);
    }
  }
}
