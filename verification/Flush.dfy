/**
 flush() over kvmd's websocket (python/rkmoon_hid/backend.py:243-287): frames are handled strictly in order,
 each ping is answered once, the read loop queues the answers, and flush() drops stale ones, writes a ping
 and waits. A step is what happens between two awaits of any party.
 */
module Flush {
  import opened Common
  import opened HidLease

  /**
   The stream between a KvmdStream and kvmd. wire: written and not yet handled, in order; replies: answers not
   yet read; pongs: the queue the read loop fills, where false says that the loop has ended; waiting: flush()
   has written its ping and waits.
   */
  datatype Link = Link(alive: bool, reading: bool, waiting: bool, wire: seq<Op>, replies: nat, pongs: seq<bool>)

  const OPEN := Link(true, true, false, [], 0, [])
  const NONE := Link(false, false, false, [], 0, [])

  /** _send(): refused on a dead stream; a failure after writing kills it, and the frame may have gone out. */
  function Write(l: Link, op: Op, entered: bool, drained: bool): Link {
    if !l.alive then l
    else l.(wire := if entered || drained then l.wire + [op] else l.wire, alive := drained)
  }

  /** The first half of flush(); it raises at once if the ping cannot be written. */
  function Begin(l: Link, entered: bool, drained: bool): Link {
    Write(l.(pongs := []), Ping, entered, drained).(waiting := l.alive && drained)
  }

  /** kvmd handles the next frame. */
  function Handle(l: Link): Link {
    if l.wire == [] then l
    else l.(wire := l.wire[1..], replies := l.replies + (if l.wire[0] == Ping then 1 else 0))
  }

  /** The read loop takes one answer. */
  function ReadPong(l: Link): Link {
    if !l.reading || l.replies == 0 then l else l.(replies := l.replies - 1, pongs := l.pongs + [true])
  }

  function LoopEnds(l: Link): Link {
    if !l.reading then l else l.(reading := false, alive := false, pongs := l.pongs + [false])
  }

  /** The second half of flush(): None while it waits, otherwise whether it is confirmed. */
  function Finish(l: Link, timedOut: bool): (Link, Option<bool>) {
    if !l.waiting then (l, None)
    else if timedOut then (l.(waiting := false, alive := false), Some(false))
    else if l.pongs == [] then (l, None)
    else (l.(waiting := false, alive := l.alive && l.pongs[0], pongs := l.pongs[1..]), Some(l.pongs[0]))
  }

  predicate Confirmed(l: Link, timedOut: bool) {
    var outcome := Finish(l, timedOut).1;
    outcome.Some? && outcome.value
  }

  // ----- at most one ping is outstanding -----

  function Pings(ops: seq<Op>): nat {
    if ops == [] then 0 else Pings(ops[..|ops| - 1]) + (if ops[|ops| - 1] == Ping then 1 else 0)
  }

  function Trues(bs: seq<bool>): nat {
    if bs == [] then 0 else Trues(bs[..|bs| - 1]) + (if bs[|bs| - 1] then 1 else 0)
  }

  /** Pings written whose answers flush() has not taken. */
  function Outstanding(l: Link): nat {
    Pings(l.wire) + l.replies + Trues(l.pongs)
  }

  /** A live stream owes nothing unless it is being flushed; then it owes at most the answer to its last frame. */
  ghost predicate LinkInv(l: Link) {
    && (l.alive && !l.waiting ==> Outstanding(l) == 0)
    && (l.waiting ==> Outstanding(l) <= 1 && (l.wire != [] ==> l.wire[|l.wire| - 1] == Ping))
  }

  lemma PingsOfSnoc(ops: seq<Op>, op: Op)
    ensures Pings(ops + [op]) == Pings(ops) + (if op == Ping then 1 else 0)
  {
    assert (ops + [op])[..|ops|] == ops;
  }

  lemma {:induction false} PingsOfCons(ops: seq<Op>)
    requires ops != []
    ensures Pings(ops) == Pings(ops[1..]) + (if ops[0] == Ping then 1 else 0)
  {
    var front := ops[..|ops| - 1];
    if front != [] {
      PingsOfCons(front);
      assert ops[1..][..|ops[1..]| - 1] == front[1..];
    }
  }

  lemma TruesOfSnoc(bs: seq<bool>, b: bool)
    ensures Trues(bs + [b]) == Trues(bs) + (if b then 1 else 0)
  {
    assert (bs + [b])[..|bs|] == bs;
  }

  lemma {:induction false} TruesOfCons(bs: seq<bool>)
    requires bs != []
    ensures Trues(bs) == Trues(bs[1..]) + (if bs[0] then 1 else 0)
  {
    var front := bs[..|bs| - 1];
    if front != [] {
      TruesOfCons(front);
      assert bs[1..][..|bs[1..]| - 1] == front[1..];
    }
  }

  lemma WriteKeeps(l: Link, op: Op, entered: bool, drained: bool)
    requires LinkInv(l) && !l.waiting && op != Ping
    ensures LinkInv(Write(l, op, entered, drained))
  {
    PingsOfSnoc(l.wire, op);
  }

  lemma BeginKeeps(l: Link, entered: bool, drained: bool)
    requires LinkInv(l) && !l.waiting
    ensures LinkInv(Begin(l, entered, drained))
  {
    PingsOfSnoc(l.wire, Ping);
  }

  lemma HandleKeeps(l: Link)
    requires LinkInv(l)
    ensures LinkInv(Handle(l)) && Handle(l).waiting == l.waiting
  {
    if l.wire != [] {
      PingsOfCons(l.wire);
    }
  }

  lemma ReadPongKeeps(l: Link)
    requires LinkInv(l)
    ensures LinkInv(ReadPong(l)) && ReadPong(l).waiting == l.waiting && ReadPong(l).wire == l.wire
  {
    TruesOfSnoc(l.pongs, true);
  }

  lemma LoopEndsKeeps(l: Link)
    requires LinkInv(l)
    ensures LinkInv(LoopEnds(l)) && LoopEnds(l).waiting == l.waiting && LoopEnds(l).wire == l.wire
  {
    TruesOfSnoc(l.pongs, false);
  }

  /** A confirmed flush finds everything that was written handled, and leaves nothing outstanding. */
  lemma FinishKeeps(l: Link, timedOut: bool)
    requires LinkInv(l)
    ensures LinkInv(Finish(l, timedOut).0) && Finish(l, timedOut).0.wire == l.wire
    ensures Confirmed(l, timedOut) ==> l.wire == []
  {
    if l.pongs != [] {
      TruesOfCons(l.pongs);
    }
    if l.wire != [] {
      assert l.wire == l.wire[..|l.wire| - 1] + [l.wire[|l.wire| - 1]];
      PingsOfSnoc(l.wire[..|l.wire| - 1], l.wire[|l.wire| - 1]);
    }
  }

  // ----- a flush that nothing disturbs is confirmed -----

  function HandleAll(l: Link): Link
    decreases |l.wire|
  {
    if l.wire == [] then l else HandleAll(Handle(l))
  }

  lemma {:induction false} HandleAllAnswers(l: Link)
    ensures HandleAll(l) == l.(wire := [], replies := l.replies + Pings(l.wire))
    decreases |l.wire|
  {
    if l.wire != [] {
      PingsOfCons(l.wire);
      HandleAllAnswers(Handle(l));
    }
  }

  /** A flush of a live stream, whose ping is written, handled and answered in time, is confirmed. */
  lemma FlushSucceeds(l: Link)
    requires LinkInv(l) && l.alive && l.reading && !l.waiting
    ensures Confirmed(ReadPong(HandleAll(Begin(l, true, true))), false)
    ensures Finish(ReadPong(HandleAll(Begin(l, true, true))), false).0 == OPEN
  {
    var begun := Begin(l, true, true);
    PingsOfSnoc(l.wire, Ping);
    HandleAllAnswers(begun);
  }

  // ----- every run -----

  datatype Action =
    | Send(op: Op, entered: bool, drained: bool)
    | Start(entered: bool, drained: bool)
    | KvmdHandles
    | LoopReads
    | LoopStops
    | Return(timedOut: bool)

  /** The stream with all that was ever written to it and all that kvmd has handled. */
  datatype Traffic = Traffic(link: Link, written: seq<Op>, handled: seq<Op>)

  /** One task uses the stream: it sends or flushes, not both at once; it never sends a ping itself. */
  function Step(t: Traffic, a: Action): Traffic {
    var l := t.link;
    match a
    case Send(op, entered, drained) =>
      if l.waiting || op == Ping then t else Wrote(t, Write(l, op, entered, drained))
    case Start(entered, drained) => if l.waiting then t else Wrote(t, Begin(l, entered, drained))
    case KvmdHandles => if l.wire == [] then t else t.(link := Handle(l), handled := t.handled + [l.wire[0]])
    case LoopReads => t.(link := ReadPong(l))
    case LoopStops => t.(link := LoopEnds(l))
    case Return(timedOut) => t.(link := Finish(l, timedOut).0)
  }

  function Wrote(t: Traffic, l: Link): Traffic {
    t.(link := l, written := if |t.link.wire| < |l.wire| then t.written + [l.wire[|l.wire| - 1]] else t.written)
  }

  function Run(actions: seq<Action>): Traffic {
    if actions == [] then Traffic(OPEN, [], []) else Step(Run(actions[..|actions| - 1]), actions[|actions| - 1])
  }

  ghost predicate TrafficInv(t: Traffic) {
    LinkInv(t.link) && t.handled + t.link.wire == t.written
  }

  /** A failed write, an unconfirmed flush and the end of the read loop kill the stream; a dead one stays dead, mute. */
  lemma FailuresKill(t: Traffic, a: Action)
    ensures var u := Step(t, a);
            && (!t.link.alive ==> !u.link.alive && u.written == t.written)
            && (a.Send? && a.op != Ping && !t.link.waiting && !a.drained ==> !u.link.alive)
            && (a.Start? && !t.link.waiting && !a.drained ==> !u.link.alive && !u.link.waiting)
            && (a.LoopStops? && t.link.reading ==> !u.link.alive)
            && (a.Return? && t.link.waiting && !u.link.waiting && !Confirmed(t.link, a.timedOut) ==> !u.link.alive)
            && (a.Send? && t.link.alive && !t.link.waiting && a.op != Ping && a.drained ==>
                  u.link.alive && u.written == t.written + [a.op])
  {
  }

  lemma StepKeeps(t: Traffic, a: Action)
    requires TrafficInv(t)
    ensures TrafficInv(Step(t, a))
  {
    hide LinkInv;
    var l := t.link;
    match a
    case Send(op, entered, drained) =>
      if !l.waiting && op != Ping {
        WriteKeeps(l, op, entered, drained);
        assert t.handled + (l.wire + [op]) == t.written + [op];
      }
    case Start(entered, drained) =>
      if !l.waiting {
        BeginKeeps(l, entered, drained);
        assert t.handled + (l.wire + [Ping]) == t.written + [Ping];
      }
    case KvmdHandles =>
      HandleKeeps(l);
      if l.wire != [] {
        assert l.wire == [l.wire[0]] + l.wire[1..];
        assert t.handled + [l.wire[0]] + l.wire[1..] == t.handled + l.wire;
      }
    case LoopReads => ReadPongKeeps(l);
    case LoopStops => LoopEndsKeeps(l);
    case Return(timedOut) => FinishKeeps(l, timedOut);
  }

  lemma {:induction false} Reachable(actions: seq<Action>)
    ensures TrafficInv(Run(actions))
  {
    if actions == [] {
      assert Pings([]) == 0 && Trues([]) == 0;
    } else {
      Reachable(actions[..|actions| - 1]);
      StepKeeps(Run(actions[..|actions| - 1]), actions[|actions| - 1]);
    }
  }

  /**
   In every run of sends, flushes, kvmd and the read loop, over any number of flushes that succeed, fail or
   time out, one that is confirmed finds every frame written before it, its own ping included, handled.
   */
  lemma ConfirmedMeansHandled(actions: seq<Action>, timedOut: bool)
    requires Confirmed(Run(actions).link, timedOut)
    ensures Run(actions).handled == Run(actions).written
  {
    Reachable(actions);
    FinishKeeps(Run(actions).link, timedOut);
    assert Run(actions).handled + [] == Run(actions).handled;
  }

  /** The requests among these frames. */
  function Requests(ops: seq<Op>): seq<Op> {
    if ops == [] then []
    else Requests(ops[..|ops| - 1]) + (if ops[|ops| - 1] == Ping then [] else [ops[|ops| - 1]])
  }

  /** So release() after a confirmed flush is safe: what the lease wrote has all reached the target. */
  lemma ConfirmedFlushProtects(actions: seq<Action>, timedOut: bool, lease: HidLease.State, ls: seq<Late>)
    requires Confirmed(Run(actions).link, timedOut)
    requires Requests(Run(actions).written) == lease.log && Sound({}, lease)
    ensures |Requests(Run(actions).handled)| == |lease.log|
    ensures !Stuck(LateRun(StartTeardown(lease, |Requests(Run(actions).handled)|), ls))
  {
    ConfirmedMeansHandled(actions, timedOut);
    ConfirmedFlushIsSafe(lease, ls);
  }
}
