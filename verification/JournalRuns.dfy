/** Runs there are.  Every run goes on to the answer the reference gives the next request, so runs can be
    put together from requests that are answered one after the other. */
module JournalRuns {
  import opened Wrappers
  import opened Journal
  import opened JournalSafety
  import opened JournalTheorems
  import opened Claim
  import A = JournalAnswers
  import R = JournalReference

  /** A run that goes on from another, the states and events there were unchanged. */
  ghost predicate GoesOn(states: seq<State>, events: seq<Event>, states': seq<State>, events': seq<Event>) {
    IsRun(states', events') && states <= states' && events <= events'
  }

  lemma OneMore(states: seq<State>, events: seq<Event>, ev: Event, s: State)
    requires IsRun(states, events) && Next(states[|events|], ev, s)
    ensures GoesOn(states, events, states + [s], events + [ev])
  {
    var states', events' := states + [s], events + [ev];
    forall i | 0 <= i < |events'| ensures NextAt(states', events', i) {
      if i < |events| { assert NextAt(states, events, i); }
    }
  }

  /** The state once this request has come to this store, and nobody else has moved. */
  ghost predicate OnlyMoved(s: State, s': State, id: RequestId, out: (Shared, Request)) {
    s' == State(out.0, s.requests[id := out.1], s.used)
  }

  lemma {:induction false} StepsOn(states: seq<State>, events: seq<Event>, id: RequestId, k: nat)
    returns (states': seq<State>, events': seq<Event>)
    requires IsRun(states, events) && id in states[|events|].requests
    ensures GoesOn(states, events, states', events')
    ensures OnlyMoved(states[|events|], states'[|events'|], id, Alone(states[|events|].sh, id, states[|events|].requests[id], Well, k))
    decreases k
  {
    var s := states[|events|];
    var r := s.requests[id];
    if k == 0 {
      states', events' := states, events;
      assert s.requests[id := r] == s.requests;
    } else {
      var out := Act(s.sh, id, r, Well);
      var s1 := State(out.0, s.requests[id := out.1], s.used);
      OneMore(states, events, Step(id, Well), s1);
      states', events' := StepsOn(states + [s1], events + [Step(id, Well)], id, k - 1);
      assert s.requests[id := out.1][id := states'[|events'|].requests[id]] == s.requests[id := states'[|events'|].requests[id]];
    }
  }

  /** From every run on, a request that arrives and is not disturbed is answered as the reference says;
      the other requests stay where they are. */
  lemma EveryRunGoesOn(states: seq<State>, events: seq<Event>, id: RequestId, r: Request)
    returns (states': seq<State>, events': seq<Event>, r': Request)
    requires IsRun(states, events) && id !in states[|events|].used && Arrives(states[|events|].sh, r)
    ensures GoesOn(states, events, states', events')
    ensures states'[|events'|].requests == states[|events|].requests[id := r'] && states'[|events'|].used == states[|events|].used + {id}
    ensures r'.SameAsked(r) && r'.pc == Done(R.Expected(states[|events|].sh, r))
    ensures R.Leaves(states'[|events'|].sh, r', R.Expected(states[|events|].sh, r))
    ensures states'[|events'|].sh.started == states[|events|].sh.started + R.ExpectedStarts(states[|events|].sh, id, r)
  {
    var s := states[|events|];
    var s1 := State(s.sh, s.requests[id := r], s.used + {id});
    OneMore(states, events, Arrive(id, r), s1);
    R.UndisturbedAnswer(s.sh, id, r);
    var k: nat, out :| Leads(s.sh, id, r, k, out) && R.Finished(out, R.Expected(s.sh, r), s.sh.started + R.ExpectedStarts(s.sh, id, r));
    assert Alone(s.sh, id, r, Well, k) == out;
    states', events' := StepsOn(states + [s1], events + [Arrive(id, r)], id, k);
    r' := out.1;
    assert s.requests[id := r][id := r'] == s.requests[id := r'];
    AloneAsks(s.sh, id, r, k);
  }

  lemma {:induction false} AloneAsks(sh: Shared, id: RequestId, r: Request, k: nat)
    ensures r.SameAsked(Alone(sh, id, r, Well, k).1)
    decreases k
  {
    if k > 0 {
      var out := Act(sh, id, r, Well);
      AloneAsks(out.0, id, out.1, k - 1);
    }
  }

  /* ---------- Runs there are ---------- */

  const EMPTY: Shared := Shared(None, false, map[], {}, {}, {})
  const FIRST: Request :=
    Request(Requester("issuer", "subject"), "content", Plain, false, Starting(ReadIndex), false, false, false, false)

  lemma RunFromEmpty(id: RequestId, r: Request) returns (states: seq<State>, events: seq<Event>, r': Request)
    requires Arrives(EMPTY, r)
    ensures IsRun(states, events) && states[|events|].requests == map[id := r'] && states[|events|].used == {id}
    ensures r'.SameAsked(r) && r'.pc == Done(R.Expected(EMPTY, r)) && R.Leaves(states[|events|].sh, r', R.Expected(EMPTY, r))
    ensures states[|events|].sh.started == R.ExpectedStarts(EMPTY, id, r)
  {
    var none := State(EMPTY, map[], {});
    states, events, r' := EveryRunGoesOn([none], [], id, r);
    assert none.requests[id := r'] == map[id := r'] && none.used + {id} == {id};
    assert EMPTY.started + R.ExpectedStarts(EMPTY, id, r) == R.ExpectedStarts(EMPTY, id, r);
  }

  /** A requester's first request starts its write program and is answered the response; sent again, it
      is answered the response retained, and no second program starts. */
  lemma SomeRunReplays() returns (states: seq<State>, events: seq<Event>)
    ensures IsRun(states, events) && states[|events|].sh.started == {Start(FIRST.scope, 1, 1, false)}
    ensures var requests := states[|events|].requests;
            1 in requests && 2 in requests && requests[1].pc == Done(Recorded(Response)) && requests[2].pc == Done(Replayed(Response))
  {
    assert Sends(FIRST, Absent, Absent);
    var r1, r2;
    states, events, r1 := RunFromEmpty(1, FIRST);
    var sh := states[|events|].sh;
    assert !Closed(sh, FIRST.scope) by {
      if Closed(sh, FIRST.scope) { NoCloseBesideResponse(states, events, |events|, FIRST.scope); }
    }
    assert Arrives(sh, FIRST) && R.Expected(sh, FIRST) == Replayed(Response);
    states, events, r2 := EveryRunGoesOn(states, events, 2, FIRST);
  }

  /** A reconciling request under a key nobody used closes it, is answered so, and no program starts. */
  lemma SomeRunCloses() returns (states: seq<State>, events: seq<Event>)
    ensures IsRun(states, events) && states[|events|].sh.started == {}
    ensures 1 in states[|events|].requests && states[|events|].requests[1].pc == Done(SaidNotDispatched)
    ensures NotDispatched(FIRST.scope) in states[|events|].sh.replies
  {
    var r0 := FIRST.(sender := KeyScoped, reconcile := true);
    assert Sends(r0, Given(true), Given(true));
    var r1;
    states, events, r1 := RunFromEmpty(1, r0);
  }
}
