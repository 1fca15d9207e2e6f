/**
 Splitting motion into USB reports and turning wheel input into notches
 (python/rkmoon_hid/lease.py:57-59 and 94-111).
 */
module Motion {
  import opened Common
  import opened Events
  import Queues

  const REPORT_LIMIT := 127

  function Clamp(v: int): (r: int)
    ensures -REPORT_LIMIT <= r <= REPORT_LIMIT
    ensures v > 0 ==> 0 < r <= v
    ensures v < 0 ==> v <= r < 0
    ensures v == 0 ==> r == 0
  {
    if v > REPORT_LIMIT then REPORT_LIMIT else if v < -REPORT_LIMIT then -REPORT_LIMIT else v
  }

  function Abs(v: int): nat {
    if v < 0 then -v else v
  }

  /** Reports needed for a delta along one axis. */
  function Reports(v: int): nat {
    (Abs(v) + REPORT_LIMIT - 1) / REPORT_LIMIT
  }

  function Larger(a: nat, b: nat): nat {
    if a < b then b else a
  }

  /** The reports for one delta, in order. */
  function Parts(x: int, y: int): seq<Point>
    decreases Abs(x) + Abs(y)
  {
    if x == 0 && y == 0 then [] else [Point(Clamp(x), Clamp(y))] + Parts(x - Clamp(x), y - Clamp(y))
  }

  function SumX(ps: seq<Point>): int {
    if ps == [] then 0 else ps[0].x + SumX(ps[1..])
  }

  function SumY(ps: seq<Point>): int {
    if ps == [] then 0 else ps[0].y + SumY(ps[1..])
  }

  /** Between zero and v. */
  predicate Toward(step: int, v: int) {
    (0 <= step <= v) || (v <= step <= 0)
  }

  predicate GoodReport(p: Point, x: int, y: int) {
    && -127 <= p.x <= 127 && -127 <= p.y <= 127
    && p != Point(0, 0) && Toward(p.x, x) && Toward(p.y, y)
  }

  lemma ClampTakesOneReport(v: int)
    ensures Reports(v) == if v == 0 then 0 else Reports(v - Clamp(v)) + 1
  {
  }

  /** There are as many reports as the longer axis needs. */
  lemma {:induction false} PartsCount(x: int, y: int)
    ensures |Parts(x, y)| == Larger(Reports(x), Reports(y))
    decreases Abs(x) + Abs(y)
  {
    ClampTakesOneReport(x);
    ClampTakesOneReport(y);
    hide Reports;
    if x != 0 || y != 0 {
      PartsCount(x - Clamp(x), y - Clamp(y));
    }
  }

  /** The reports add up to the delta; each fits a signed byte, moves the pointer and never goes back. */
  lemma {:induction false} PartsConserve(x: int, y: int)
    ensures SumX(Parts(x, y)) == x && SumY(Parts(x, y)) == y
    ensures forall p | p in Parts(x, y) :: GoodReport(p, x, y)
    decreases Abs(x) + Abs(y)
  {
    if x != 0 || y != 0 {
      var nextX, nextY := x - Clamp(x), y - Clamp(y);
      PartsConserve(nextX, nextY);
      assert Parts(x, y)[1..] == Parts(nextX, nextY) && Parts(x, y)[0] == Point(Clamp(x), Clamp(y));
      assert forall p | p in Parts(nextX, nextY) :: GoodReport(p, x, y);
    }
  }

  lemma TowardTwice(step: int, rest: int, v: int)
    requires Toward(step, v) && Toward(rest, v - step)
    ensures Toward(step + rest, v)
  {
  }

  /** However many of the reports have been made, they have not gone past the delta. */
  lemma {:induction false} PartsApproach(x: int, y: int, k: nat)
    requires k <= |Parts(x, y)|
    ensures Toward(SumX(Parts(x, y)[..k]), x) && Toward(SumY(Parts(x, y)[..k]), y)
    decreases k
  {
    if k > 0 {
      var ps, a, b := Parts(x, y), Clamp(x), Clamp(y);
      assert ps[..k][0] == Point(a, b) && ps[..k][1..] == ps[1..][..k - 1];
      PartsApproach(x - a, y - b, k - 1);
      TowardTwice(a, SumX(ps[1..][..k - 1]), x);
      TowardTwice(b, SumY(ps[1..][..k - 1]), y);
    }
  }

  /** chunks(): the loop. */
  method Chunks(x: int, y: int) returns (parts: seq<Point>)
    ensures parts == Parts(x, y)
  {
    parts := [];
    var restX, restY := x, y;
    while restX != 0 || restY != 0
      invariant parts + Parts(restX, restY) == Parts(x, y)
      decreases Abs(restX) + Abs(restY)
    {
      var a, b := Clamp(restX), Clamp(restY);
      ghost var before := parts;
      parts := parts + [Point(a, b)];
      restX, restY := restX - a, restY - b;
      assert parts + Parts(restX, restY) == before + ([Point(a, b)] + Parts(restX, restY));
    }
  }

  // ----- motion, from submit to report -----

  function AsMoves(ps: seq<Point>): seq<Event> {
    if ps == [] then [] else [Move(ps[0].x, ps[0].y)] + AsMoves(ps[1..])
  }

  /** What reports one event. */
  function ReportsOf(e: Event): seq<Event> {
    if e.Move? then AsMoves(Parts(e.dx, e.dy)) else [e]
  }

  /** The events with every relative motion replaced by its reports. */
  function Reported(es: seq<Event>): seq<Event> {
    if es == [] then []
    else ReportsOf(es[0]) + Reported(es[1..])
  }

  lemma {:induction false} MovesAddUp(p: Point, ps: seq<Point>)
    ensures Trace(p, AsMoves(ps)) == []
    ensures Final(p, AsMoves(ps)) == Point(p.x + SumX(ps), p.y + SumY(ps))
    decreases |ps|
  {
    if ps != [] {
      assert AsMoves(ps)[1..] == AsMoves(ps[1..]) && AsMoves(ps)[0] == Move(ps[0].x, ps[0].y);
      MovesAddUp(Point(p.x + ps[0].x, p.y + ps[0].y), ps[1..]);
    }
  }

  lemma OneReportedSame(e: Event)
    ensures Same(ReportsOf(e), [e])
  {
    if e.Move? {
      PartsConserve(e.dx, e.dy);
      forall p
        ensures Trace(p, ReportsOf(e)) == Trace(p, [e]) && Final(p, ReportsOf(e)) == Final(p, [e])
      {
        MovesAddUp(p, Parts(e.dx, e.dy));
        assert [e][1..] == [];
      }
    }
  }

  /** The target sees the reports as it would have seen the events themselves. */
  lemma {:induction false} ReportedSame(es: seq<Event>)
    ensures Same(Reported(es), es)
  {
    if es != [] {
      hide Same, ReportsOf;
      var e, rest := es[0], es[1..];
      OneReportedSame(e);
      ReportedSame(rest);
      SameConcat(ReportsOf(e), [e], Reported(rest), rest);
      assert [e] + rest == es;
    }
  }

  /**
   From submit to report: through both queues, however they interleave, every key, button and wheel edge
   is reported with the pointer where the reports have put it exactly where it was submitted; once the
   queues are empty all submitted motion has been reported.
   */
  lemma ReportsFollowInput(hops: seq<Queues.Hop>, absolute: bool, start: Point)
    ensures var p := Queues.Run(hops, absolute);
            && Trace(start, Reported(p.applied)) <= Trace(start, p.raw)
            && (p.near == p.wire == p.far == [] ==> Same(Reported(p.applied), p.raw))
  {
    var p := Queues.Run(hops, absolute);
    Queues.PathKeepsInput(hops, absolute);
    Queues.EdgesArriveInOrder(hops, absolute, start);
    ReportedSame(p.applied);
    assert Trace(start, Reported(p.applied)) == Trace(start, p.applied);
    if p.near == p.wire == p.far == [] {
      SameTransitive(Reported(p.applied), p.applied, p.raw);
    }
  }

  // ----- wheel -----

  /** Python's int(v / 120): toward zero. */
  function Notches(v: int): int {
    if v < 0 then -(-v / 120) else v / 120
  }

  /** Wheel input of a list of edges. */
  function WheelX(edges: seq<(Event, Point)>): int {
    if edges == [] then 0 else (if edges[0].0.Wheel? then edges[0].0.notchX else 0) + WheelX(edges[1..])
  }

  function WheelY(edges: seq<(Event, Point)>): int {
    if edges == [] then 0 else (if edges[0].0.Wheel? then edges[0].0.notchY else 0) + WheelY(edges[1..])
  }

  lemma {:induction false} WheelOfConcat(a: seq<(Event, Point)>, b: seq<(Event, Point)>)
    ensures WheelX(a + b) == WheelX(a) + WheelX(b) && WheelY(a + b) == WheelY(a) + WheelY(b)
  {
    if a == [] {
      assert a + b == b;
    } else {
      assert (a + b)[1..] == a[1..] + b;
      WheelOfConcat(a[1..], b);
    }
  }
}
