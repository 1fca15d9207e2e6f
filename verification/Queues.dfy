/**
 The two input queues: Queue on the HID server (python/rkmoon_hid/lease.py) and HidClient on the
 streaming side (src/hid_client.cpp), and the path an event takes through both.
 */
module Queues {
  import opened Common
  import opened Events

  /** The server's queue. */
  class Queue {
    var items: seq<Event>
    var highwater: nat
    const capacity: nat
    ghost var raw: seq<Event>          // every event put, in order
    ghost var popped: seq<Event>       // every event popped, in order

    ghost predicate Valid()
      reads this
    {
      && |items| <= capacity
      && highwater <= capacity
      && Same(popped + items, raw)
    }

    constructor (limit: nat)
      ensures Valid() && items == [] && raw == [] && popped == [] && capacity == limit && highwater == 0
    {
      items, highwater, capacity, raw, popped := [], 0, limit, [], [];
    }

    /** put(): false is the exception "input queue saturated". */
    method Put(e: Event) returns (accepted: bool)
      requires Valid()
      modifies this`items, this`highwater, this`raw
      ensures Valid()
      ensures accepted <==> |old(items)| < capacity || Joins(old(items), e)
      ensures accepted ==> |items| == |old(items)| + (if Joins(old(items), e) then 0 else 1)
      ensures accepted ==> Coalesce(old(items), e, capacity) == Some(items) && raw == old(raw) + [e]
      ensures !accepted ==> items == old(items) && raw == old(raw) && |items| == capacity
      ensures highwater ==
              if accepted && |items| > |old(items)| && |items| > old(highwater) then |items| else old(highwater)
    {
      PutKeeps(popped, items, raw, e, capacity);
      CoalesceExactly(items, e, capacity);
      if e.Absolute? && items != [] && items[|items| - 1].Absolute? {
        items := items[..|items| - 1] + [e];
        raw := raw + [e];
        return true;
      }
      if e.Move? && items != [] && items[|items| - 1].Move? {
        var last := items[|items| - 1];
        var x, y := last.dx + e.dx, last.dy + e.dy;
        if InDelta(x) && InDelta(y) {
          items := items[..|items| - 1] + [Move(x, y)];
          raw := raw + [e];
          return true;
        }
      }
      if |items| >= capacity {
        return false;
      }
      items := items + [e];
      highwater := if highwater < |items| then |items| else highwater;
      raw := raw + [e];
      return true;
    }

    /** pop() once an item is there. */
    method Pop() returns (e: Event)
      requires Valid() && items != []
      modifies this`items, this`popped
      ensures Valid() && [e] + items == old(items) && popped == old(popped) + [e]
    {
      e := items[0];
      assert popped + items == (popped + [e]) + items[1..];
      items := items[1..];
      popped := popped + [e];
    }
  }

  /** One put keeps what has been popped together with what is queued the same as what was put. */
  lemma PutKeeps(popped: seq<Event>, items: seq<Event>, raw: seq<Event>, e: Event, capacity: nat)
    requires Same(popped + items, raw)
    ensures Coalesce(items, e, capacity).Some? ==>
              && Same(popped + Coalesce(items, e, capacity).value, raw + [e])
              && (|items| <= capacity ==> |Coalesce(items, e, capacity).value| <= capacity)
  {
    if Coalesce(items, e, capacity).Some? {
      var out := Coalesce(items, e, capacity).value;
      CoalesceSame(items, e, capacity);
      SameInContext(popped, out, items + [e], []);
      assert popped + out + [] == popped + out && popped + (items + [e]) + [] == popped + items + [e];
      SameInContext([], popped + items, raw, [e]);
      assert [] + (popped + items) + [e] == popped + items + [e] && [] + raw + [e] == raw + [e];
      SameTransitive(popped + out, popped + items + [e], raw + [e]);
    }
  }

  /** Whether submit() takes an event for a lease in this mouse mode. */
  predicate Submittable(e: Event, absoluteMouse: bool) {
    InRange(e) && !(e.Absolute? && !absoluteMouse) && !(e.Move? && absoluteMouse)
  }

  const CLIENT_CAPACITY := 64

  /** Merging keeps every queued event one the server's range check accepts. */
  lemma CoalesceSubmittable(items: seq<Event>, e: Event, capacity: nat, absoluteMouse: bool)
    requires Submittable(e, absoluteMouse) && forall x | x in items :: Submittable(x, absoluteMouse)
    requires Coalesce(items, e, capacity).Some?
    ensures forall x | x in Coalesce(items, e, capacity).value :: Submittable(x, absoluteMouse)
  {
    if items != [] {
      assert items[|items| - 1] in items;
    }
  }

  /** The streaming side's queue and its sending thread. */
  class HidClient {
    var events: seq<Event>
    var healthy: bool
    var stop: bool
    var running: bool                  // the thread's loop has not ended
    var highwater: nat
    const absoluteMouse: bool
    ghost var raw: seq<Event>          // accepted by submit()
    ghost var sent: seq<Event>         // written to the socket
    ghost var dropped: seq<Event>      // taken from the queue when the loop ended

    ghost predicate Valid()
      reads this
    {
      && |events| <= CLIENT_CAPACITY && highwater <= CLIENT_CAPACITY
      && Same(sent + dropped + events, raw)
      && (forall e | e in sent :: Submittable(e, absoluteMouse))
      && (forall e | e in events :: Submittable(e, absoluteMouse))
      && (running ==> dropped == [])
      && |dropped| <= 1
    }

    constructor (absolute: bool)
      ensures Valid() && events == [] && healthy && !stop && running && raw == [] && sent == [] && highwater == 0
      ensures absoluteMouse == absolute
    {
      events, healthy, stop, running, highwater := [], true, false, true, 0;
      absoluteMouse, raw, sent, dropped := absolute, [], [], [];
    }

    /** submit(): a refusal on a live client revokes the lease and leaves the queue as it was. */
    method Submit(e: Event) returns (accepted: bool)
      requires Valid()
      modifies this`events, this`healthy, this`highwater, this`raw
      ensures Valid()
      ensures accepted <==>
                && old(healthy) && !stop && Submittable(e, absoluteMouse)
                && (|old(events)| < 64 || Joins(old(events), e))
      ensures accepted ==> |events| == |old(events)| + (if Joins(old(events), e) then 0 else 1)
      ensures accepted ==> Coalesce(old(events), e, CLIENT_CAPACITY) == Some(events) && raw == old(raw) + [e]
      ensures !accepted ==> events == old(events) && raw == old(raw)
      ensures healthy == (old(healthy) && (accepted || stop))
    {
      if !healthy || stop {
        return false;
      }
      if (e.Absolute? && !absoluteMouse) || (e.Move? && absoluteMouse) {
        healthy := false;
        return false;
      }
      if !InRange(e) {
        healthy := false;
        return false;
      }
      accepted := Enqueue(e);
      if !accepted {
        healthy := false;
      }
    }

    /** The part of submit() under the mutex. */
    method Enqueue(e: Event) returns (accepted: bool)
      requires Valid() && Submittable(e, absoluteMouse)
      modifies this`events, this`highwater, this`raw
      ensures Valid()
      ensures accepted <==> |old(events)| < CLIENT_CAPACITY || Joins(old(events), e)
      ensures accepted ==> |events| == |old(events)| + (if Joins(old(events), e) then 0 else 1)
      ensures accepted ==> Coalesce(old(events), e, CLIENT_CAPACITY) == Some(events) && raw == old(raw) + [e]
      ensures !accepted ==> events == old(events) && raw == old(raw)
    {
      PutKeeps(sent + dropped, events, raw, e, CLIENT_CAPACITY);
      CoalesceExactly(events, e, CLIENT_CAPACITY);
      if Coalesce(events, e, CLIENT_CAPACITY).Some? {
        CoalesceSubmittable(events, e, CLIENT_CAPACITY, absoluteMouse);
      }
      hide Submittable, Same;
      if e.Absolute? && events != [] && events[|events| - 1].Absolute? {
        events := events[..|events| - 1] + [e];
        raw := raw + [e];
        return true;
      }
      if e.Move? && events != [] && events[|events| - 1].Move? {
        var last := events[|events| - 1];
        var x, y := last.dx + e.dx, last.dy + e.dy;
        if InDelta(x) && InDelta(y) {
          events := events[..|events| - 1] + [Move(x, y)];
          raw := raw + [e];
          return true;
        }
      }
      if |events| >= CLIENT_CAPACITY {
        return false;
      }
      events := events + [e];
      highwater := if highwater < |events| then |events| else highwater;
      raw := raw + [e];
      return true;
    }

    /**
     One round of run(): pop an event if there is one, and write it unless the lease has ended; revoked says
     that another thread ended it while this one waited.
     */
    method Round(peerOpen: bool, revoked: bool, written: bool) returns (out: Option<Event>)
      requires Valid() && running
      modifies this`events, this`healthy, this`stop, this`running, this`sent, this`dropped
      ensures Valid()
      ensures out.Some? <==> old(healthy) && !old(stop) && peerOpen && old(events) != [] && !revoked && written
      ensures out.Some? ==> [out.value] + events == old(events) && sent == old(sent) + [out.value] && running
      ensures out.None? ==> sent == old(sent) && (old(events) != [] ==> !running)
    {
      if stop || !healthy {
        running := false;
        return None;
      }
      if !peerOpen {
        healthy, running := false, false;
        return None;
      }
      stop := revoked;
      if events == [] {
        running := !revoked;
        return None;
      }
      var e := events[0];
      assert sent + dropped + events == (sent + [e]) + dropped + events[1..];
      assert sent + dropped + events == sent + [e] + events[1..];
      events := events[1..];
      if revoked || !written {
        dropped := [e];
        healthy, running := revoked, false;
        return None;
      }
      sent := sent + [e];
      return Some(e);
    }
  }

  // ----- the path through both queues -----

  const SERVER_CAPACITY := 256

  /**
   near: the streaming side's queue; wire: the socket; far: the server's queue. nearEnded: submit() refused an
   event, so nothing more is submitted or sent; farEnded: the server's put() did, so nothing more is received,
   while what is queued may still be applied.
   */
  datatype Path = Path(
    raw: seq<Event>, near: seq<Event>, wire: seq<Event>, far: seq<Event>, applied: seq<Event>,
    nearEnded: bool, farEnded: bool)

  datatype Hop = Submit(e: Event) | Send | Receive | Apply

  const EMPTY_PATH := Path([], [], [], [], [], false, false)

  /** One hop in a lease of this mouse mode; a refused event ends its side's part in the lease. */
  function Step(p: Path, m: Hop, absolute: bool): Path {
    match m
    case Submit(e) =>
      if p.nearEnded then p
      else if !Submittable(e, absolute) then p.(nearEnded := true)
      else
        (match Coalesce(p.near, e, CLIENT_CAPACITY)
         case None => p.(nearEnded := true)
         case Some(near) => p.(near := near, raw := p.raw + [e]))
    case Send =>
      if p.nearEnded || p.near == [] then p else p.(near := p.near[1..], wire := p.wire + [p.near[0]])
    case Receive =>
      if p.farEnded || p.wire == [] then p
      else
        (match Coalesce(p.far, p.wire[0], SERVER_CAPACITY)
         case None => p.(farEnded := true)
         case Some(far) => p.(far := far, wire := p.wire[1..]))
    case Apply => if p.far == [] then p else p.(far := p.far[1..], applied := p.applied + [p.far[0]])
  }

  function Run(ms: seq<Hop>, absolute: bool): Path {
    if ms == [] then EMPTY_PATH else Step(Run(ms[..|ms| - 1], absolute), ms[|ms| - 1], absolute)
  }

  ghost predicate PathInv(p: Path) {
    && |p.near| <= CLIENT_CAPACITY && |p.far| <= SERVER_CAPACITY
    && Same(p.applied + p.far + p.wire + p.near, p.raw)
  }

  /** Every event on the way is one the server's checks accept in this mouse mode. */
  ghost predicate PathFits(p: Path, absolute: bool) {
    && (forall e | e in p.near :: Submittable(e, absolute))
    && (forall e | e in p.wire :: Submittable(e, absolute))
    && (forall e | e in p.far :: Submittable(e, absolute))
    && (forall e | e in p.applied :: Submittable(e, absolute))
  }

  lemma StepFits(p: Path, m: Hop, absolute: bool)
    requires PathFits(p, absolute)
    ensures PathFits(Step(p, m, absolute), absolute)
  {
    hide Submittable;
    if !p.nearEnded && m.Submit? && Submittable(m.e, absolute) && Coalesce(p.near, m.e, CLIENT_CAPACITY).Some? {
      CoalesceSubmittable(p.near, m.e, CLIENT_CAPACITY, absolute);
    } else if !p.farEnded && m.Receive? && p.wire != [] && Coalesce(p.far, p.wire[0], SERVER_CAPACITY).Some? {
      CoalesceSubmittable(p.far, p.wire[0], SERVER_CAPACITY, absolute);
    }
  }

  lemma StepKeeps(p: Path, m: Hop, absolute: bool)
    requires PathInv(p)
    ensures PathInv(Step(p, m, absolute))
  {
    hide Same;
    if m.Submit? {
      hide Submittable;
      PutKeeps(p.applied + p.far + p.wire, p.near, p.raw, m.e, CLIENT_CAPACITY);
    } else if m.Send? && p.near != [] {
      assert p.wire + p.near == (p.wire + [p.near[0]]) + p.near[1..];
      assert p.applied + p.far + p.wire + p.near == p.applied + p.far + (p.wire + [p.near[0]]) + p.near[1..];
    } else if m.Receive? && p.wire != [] && Coalesce(p.far, p.wire[0], SERVER_CAPACITY).Some? {
      var e, rest := p.wire[0], p.wire[1..] + p.near;
      var far := Coalesce(p.far, e, SERVER_CAPACITY).value;
      CoalesceSame(p.far, e, SERVER_CAPACITY);
      SameInContext(p.applied, far, p.far + [e], rest);
      assert p.applied + (p.far + [e]) + rest == p.applied + p.far + p.wire + p.near;
      assert p.applied + far + rest == p.applied + far + p.wire[1..] + p.near;
      SameTransitive(p.applied + far + rest, p.applied + (p.far + [e]) + rest, p.raw);
    } else if m.Apply? && p.far != [] {
      assert p.applied + p.far == (p.applied + [p.far[0]]) + p.far[1..];
    }
  }

  /**
   However submits, sends, receptions and applications interleave, what the lease has applied together with
   what is still on the way is the same to the target as what was submitted; when nothing is left on the
   way, the lease has applied exactly that.
   */
  lemma {:induction false} PathKeepsInput(ms: seq<Hop>, absolute: bool)
    ensures PathInv(Run(ms, absolute)) && PathFits(Run(ms, absolute), absolute)
    ensures var p := Run(ms, absolute); p.near == p.wire == p.far == [] ==> Same(p.applied, p.raw)
  {
    if ms == [] {
      assert EMPTY_PATH.applied + EMPTY_PATH.far + EMPTY_PATH.wire + EMPTY_PATH.near == EMPTY_PATH.raw;
    } else {
      PathKeepsInput(ms[..|ms| - 1], absolute);
      StepKeeps(Run(ms[..|ms| - 1], absolute), ms[|ms| - 1], absolute);
      StepFits(Run(ms[..|ms| - 1], absolute), ms[|ms| - 1], absolute);
    }
    var p := Run(ms, absolute);
    if p.near == p.wire == p.far == [] {
      assert p.applied + p.far + p.wire + p.near == p.applied;
    }
  }

  /**
   At every moment the edges applied are the first edges submitted, each at the pointer position it was
   submitted at.
   */
  lemma EdgesArriveInOrder(ms: seq<Hop>, absolute: bool, start: Point)
    ensures Trace(start, Run(ms, absolute).applied) <= Trace(start, Run(ms, absolute).raw)
  {
    PathKeepsInput(ms, absolute);
    var p := Run(ms, absolute);
    var rest := p.far + p.wire + p.near;
    assert p.applied + p.far + p.wire + p.near == p.applied + rest;
    TraceOfConcat(start, p.applied, rest);
    assert Trace(start, p.applied + rest) == Trace(start, p.raw);
  }
}
