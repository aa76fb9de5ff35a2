/** The maintenance gate (go/gate.go): what is admitted, and when a closure has drained. */
module Gate {

  /** One closure. Its done channel is closed when it drains or when the gate reopens first;
      ends counts how often the channel was closed, which may be once only. */
  class GateClosure {
    const generation: nat
    var drained: bool
    var ends: nat

    constructor (generation: nat)
      ensures this.generation == generation && !drained && ends == 0
    {
      this.generation, drained, ends := generation, false, 0;
    }

    /** close(done): closing a channel twice would panic. */
    method End()
      requires ends == 0
      modifies this`ends
      ensures ends == 1
    {
      ends := ends + 1;
    }
  }

  class AdmissionGate {
    var closed: bool
    var generation: nat
    var closingClosed: bool
    var pending: nat
    var current: GateClosure?

    /** Every closure so far, and what was admitted and finished. */
    ghost var closures: seq<GateClosure>
    ghost var admitted: nat
    ghost var finished: nat

    /** The closure, once it is over, ended exactly once. */
    ghost predicate AllOver(n: nat)
      requires n <= |closures|
      reads this, closures
    {
      forall i :: 0 <= i < n ==> closures[i].ends == 1
    }

    ghost predicate Valid()
      reads this, closures
    {
      && finished + pending == admitted && closingClosed == closed
      && |closures| == generation
      && (forall i, j :: 0 <= i < j < |closures| ==> closures[i] != closures[j])
      && (forall i :: 0 <= i < |closures| ==> closures[i].generation == i + 1)
      && (if generation == 0 then current == null && !closed else current == closures[generation - 1])
      && (forall i :: 0 <= i < |closures| ==> closures[i].drained ==> closures[i].ends == 1)
      && (if closed then AllOver(generation - 1) && Draining() else AllOver(generation))
    }

    /** While closed: drained exactly when nothing admitted is pending, and not ended before. */
    ghost predicate Draining()
      reads this, current
    {
      current != null && (current.drained <==> pending == 0) && current.ends == if current.drained then 1 else 0
    }

    constructor ()
      ensures Valid() && !closed && pending == 0 && admitted == 0 && generation == 0
    {
      closed, generation, closingClosed, pending, current := false, 0, false, 0, null;
      closures, admitted, finished := [], 0, 0;
    }

    /** close(closing): the channel of this opening, which no closing closed before. */
    method CloseClosing()
      requires !closingClosed
      modifies this`closingClosed
      ensures closingClosed
    {
      closingClosed := true;
    }

    method CloseLocked() returns (c: GateClosure, made: bool)
      requires Valid()
      modifies this
      ensures Valid() && closed && c == current && made == !old(closed)
      ensures pending == old(pending) && admitted == old(admitted) && finished == old(finished)
      ensures made ==> fresh(c) && closures == old(closures) + [c] && generation == old(generation) + 1
      ensures !made ==> c == old(current) && closures == old(closures) && generation == old(generation)
      ensures c.drained <==> pending == 0
    {
      if closed { return current, false; }
      closed, generation := true, generation + 1;
      CloseClosing();
      c := new GateClosure(generation);
      current := c;
      if pending == 0 {
        c.drained := true;
        c.End();
      }
      closures := closures + [c];
      made := true;
    }

    method OpenLocked() returns (c: GateClosure?, ended: bool)
      requires Valid()
      modifies this, current
      ensures Valid() && !closed && ended == old(closed) && (ended ==> c == old(current))
      ensures closures == old(closures) && generation == old(generation)
      ensures pending == old(pending) && admitted == old(admitted) && finished == old(finished)
      ensures ended ==> c != null && c.ends == 1 && c.drained == old(current.drained)
    {
      if !closed { return null, false; }
      closed := false;
      closingClosed := false;
      c := current;
      if c.ends == 0 { c.End(); }
      ended := true;
    }

    method AdmitLocked() returns (ok: bool)
      requires Valid()
      modifies this
      ensures Valid() && ok == !old(closed) && closed == old(closed)
      ensures closures == old(closures) && generation == old(generation) && finished == old(finished)
      ensures admitted == old(admitted) + (if ok then 1 else 0) && pending == old(pending) + (if ok then 1 else 0)
    {
      if closed { return false; }
      pending := pending + 1;
      admitted := admitted + 1;
      return true;
    }

    /** One admitted thing finishes: the closure that waited for it drains with the last. */
    method FinishLocked() returns (c: GateClosure?)
      requires Valid() && pending > 0
      modifies this, current
      ensures Valid() && closed == old(closed) && closures == old(closures) && generation == old(generation)
      ensures pending == old(pending) - 1 && finished == old(finished) + 1 && admitted == old(admitted)
      ensures c == if old(closed) && pending == 0 then current else null
      ensures c != null ==> c.drained && !old(current.drained) && c.ends == 1
    {
      pending := pending - 1;
      finished := finished + 1;
      if closed && pending == 0 && current != null {
        if current.ends == 0 {
          current.drained := true;
          current.End();
          return current;
        }
      }
      return null;
    }
  }

  datatype Op = Close | Open | Admit | Finish

  /** Any sequence of operations, a finish only of something pending: none is admitted while the
      gate is closed, and in the end pending is what was admitted and is not finished, and every
      closure but one still waiting ended exactly once. */
  method Operate(g: AdmissionGate, ops: seq<Op>)
    requires g.Valid()
    modifies g, g.closures
    ensures g.Valid() && g.finished + g.pending == g.admitted
    ensures forall i :: 0 <= i < |g.closures| ==>
      g.closures[i].ends == 1 || (g.closed && g.closures[i] == g.current && g.pending > 0 && g.closures[i].ends == 0)
    ensures g.closed ==> g.current != null && (g.current.drained <==> g.pending == 0)
  {
    for i := 0 to |ops|
      invariant g.Valid() && forall c :: c in g.closures ==> c in old(g.closures) || fresh(c)
    {
      assert g.current == null || g.current in g.closures;
      match ops[i] {
        case Close => var _, _ := g.CloseLocked();
        case Open => var _, _ := g.OpenLocked();
        case Admit =>
          var wasClosed := g.closed;
          var ok := g.AdmitLocked();
          assert ok == !wasClosed;
        case Finish => if g.pending > 0 { var _ := g.FinishLocked(); }
      }
    }
  }
}
