/**
 Input events and what the target observes of them. Both input queues (Queue.put in
 python/rkmoon_hid/lease.py, HidClient::submit in src/hid_client.cpp) merge adjacent motion; Same says
 when two event lists cannot be told apart by the target.
 */
module Events {
  import opened Common

  datatype Event =
    | Key(vk: int, down: bool)
    | Button(button: int, pressed: bool)
    | Wheel(notchX: int, notchY: int)
    | Move(dx: int, dy: int)
    | Absolute(x: int, y: int)

  datatype Point = Point(x: int, y: int)

  /** Largest motion delta the protocol carries. */
  const DELTA_LIMIT := 32767

  predicate InDelta(v: int) {
    -DELTA_LIMIT <= v <= DELTA_LIMIT
  }

  predicate InPosition(v: int) {
    -32768 <= v <= 32767
  }

  /** The range check of submit() (src/hid_client.cpp:64-66). */
  predicate InRange(e: Event) {
    match e
    case Key(vk, _) => 0 <= vk <= 255
    case Button(b, _) => 1 <= b <= 5
    case Wheel(x, y) => InDelta(x) && InDelta(y)
    case Move(x, y) => InDelta(x) && InDelta(y)
    case Absolute(x, y) => InPosition(x) && InPosition(y)
  }

  /** Key, button and wheel events: what the target sees one by one. */
  predicate Edge(e: Event) {
    e.Key? || e.Button? || e.Wheel?
  }

  function After(p: Point, e: Event): Point {
    match e
    case Move(dx, dy) => Point(p.x + dx, p.y + dy)
    case Absolute(x, y) => Point(x, y)
    case _ => p
  }

  /** Where the pointer ends, from p. */
  function Final(p: Point, es: seq<Event>): Point
    decreases |es|
  {
    if es == [] then p else Final(After(p, es[0]), es[1..])
  }

  /** The edges in order, each with the pointer position at which it happens. */
  function Trace(p: Point, es: seq<Event>): seq<(Event, Point)>
    decreases |es|
  {
    if es == [] then [] else (if Edge(es[0]) then [(es[0], p)] else []) + Trace(After(p, es[0]), es[1..])
  }

  /** From every starting position: the same edges, at the same positions, and the same final position. */
  ghost predicate Same(a: seq<Event>, b: seq<Event>) {
    forall p :: Trace(p, a) == Trace(p, b) && Final(p, a) == Final(p, b)
  }

  lemma {:induction false} TraceOfConcat(p: Point, a: seq<Event>, b: seq<Event>)
    ensures Trace(p, a + b) == Trace(p, a) + Trace(Final(p, a), b)
    ensures Final(p, a + b) == Final(Final(p, a), b)
    decreases |a|
  {
    if a == [] {
      assert a + b == b;
    } else {
      assert (a + b)[1..] == a[1..] + b && (a + b)[0] == a[0];
      TraceOfConcat(After(p, a[0]), a[1..], b);
    }
  }

  /** What is the same stays the same in any context. */
  lemma SameInContext(before: seq<Event>, a: seq<Event>, b: seq<Event>, after: seq<Event>)
    requires Same(a, b)
    ensures Same(before + a + after, before + b + after)
  {
    forall p
      ensures Trace(p, before + a + after) == Trace(p, before + b + after)
      ensures Final(p, before + a + after) == Final(p, before + b + after)
    {
      TraceOfConcat(p, before + a, after);
      TraceOfConcat(p, before, a);
      TraceOfConcat(p, before + b, after);
      TraceOfConcat(p, before, b);
      assert Trace(Final(p, before), a) == Trace(Final(p, before), b);
    }
  }

  lemma SameTransitive(a: seq<Event>, b: seq<Event>, c: seq<Event>)
    requires Same(a, b) && Same(b, c)
    ensures Same(a, c)
  {
    forall p
      ensures Trace(p, a) == Trace(p, c) && Final(p, a) == Final(p, c)
    {
      assert Trace(p, a) == Trace(p, b);
    }
  }

  lemma SameConcat(a: seq<Event>, b: seq<Event>, c: seq<Event>, d: seq<Event>)
    requires Same(a, b) && Same(c, d)
    ensures Same(a + c, b + d)
  {
    forall p
      ensures Trace(p, a + c) == Trace(p, b + d) && Final(p, a + c) == Final(p, b + d)
    {
      TraceOfConcat(p, a, c);
      TraceOfConcat(p, b, d);
      assert Trace(p, a) == Trace(p, b);
      assert Trace(Final(p, a), c) == Trace(Final(p, a), d);
    }
  }

  /** What the last queued event and the new one merge into, if they do. */
  function Merge(last: Event, e: Event): Option<Event> {
    if e.Absolute? && last.Absolute? then Some(e)
    else if e.Move? && last.Move? && InDelta(last.dx + e.dx) && InDelta(last.dy + e.dy) then
      Some(Move(last.dx + e.dx, last.dy + e.dy))
    else None
  }

  /** The queue after a put, or None when it is saturated. */
  function Coalesce(items: seq<Event>, e: Event, capacity: nat): Option<seq<Event>> {
    var merged := if items == [] then None else Merge(items[|items| - 1], e);
    if merged.Some? then Some(items[..|items| - 1] + [merged.value])
    else if capacity <= |items| then None
    else Some(items + [e])
  }

  /** e may take the place of, or be added to, the last event: both absolute, or both moves with sums in range. */
  predicate Joins(items: seq<Event>, e: Event) {
    items != [] &&
    var last := items[|items| - 1];
    || (last.Absolute? && e.Absolute?)
    || (last.Move? && e.Move? && -32767 <= last.dx + e.dx <= 32767 && -32767 <= last.dy + e.dy <= 32767)
  }

  /**
   A put is refused exactly when the queue is full and the event cannot join the last one. Motion that can join
   takes no room; any other event takes one place, at the back. Everything before the last event is left alone.
   */
  lemma CoalesceExactly(items: seq<Event>, e: Event, capacity: nat)
    ensures Coalesce(items, e, capacity).None? <==> capacity <= |items| && !Joins(items, e)
    ensures Coalesce(items, e, capacity).Some? ==>
              var out := Coalesce(items, e, capacity).value;
              if Joins(items, e) then |out| == |items| && out[..|items| - 1] == items[..|items| - 1]
              else |out| == |items| + 1 && out[..|items|] == items && out[|items|] == e
  {
  }

  lemma MergeSame(last: Event, e: Event)
    requires Merge(last, e).Some?
    ensures Same([last, e], [Merge(last, e).value])
  {
    forall p
      ensures Trace(p, [last, e]) == Trace(p, [Merge(last, e).value])
      ensures Final(p, [last, e]) == Final(p, [Merge(last, e).value])
    {
      assert [last, e][1..] == [e] && [e][1..] == [];
      assert [Merge(last, e).value][1..] == [];
    }
  }

  /** An accepted event is neither lost, reordered nor moved across an edge; the queue keeps its bound and ranges. */
  lemma CoalesceSame(items: seq<Event>, e: Event, capacity: nat)
    requires Coalesce(items, e, capacity).Some?
    ensures var out := Coalesce(items, e, capacity).value;
            && Same(out, items + [e])
            && (|items| <= capacity ==> |out| <= capacity)
            && |items| <= |out| <= |items| + 1
            && ((forall x | x in items + [e] :: InRange(x)) ==> forall x | x in out :: InRange(x))
  {
    var out := Coalesce(items, e, capacity).value;
    if items != [] && Merge(items[|items| - 1], e).Some? {
      var front, last := items[..|items| - 1], items[|items| - 1];
      var merged := Merge(last, e).value;
      MergeSame(last, e);
      SameInContext(front, [last, e], [merged], []);
      assert front + [last, e] + [] == items + [e];
      assert front + [merged] + [] == out;
      assert last in items + [e] && e in items + [e];
      assert forall x | x in out :: x in items || x == merged;
    }
  }
}
