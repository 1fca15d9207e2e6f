/**
 The bridge side of a video session (sunshine/rkmoon_bridge.cpp, capture): the sequence gate, the
 decision to deliver or drop a unit, the request for an IDR and the acknowledgement.
 */
module Bridge {
  import opened Common
  import opened Worker

  /** SequenceGate of src/annexb.cpp, seen through a unit's sequence number and IDR flag. */
  datatype Gate = Gate(last: nat, needIdr: bool)

  const NEW_GATE := Gate(0, true)

  datatype Refusal = NotIdr | Discontinuity

  function Accept(g: Gate, au: AccessUnit): Result<Gate, Refusal> {
    if g.needIdr && !au.idr then Err(NotIdr)
    else if au.seqNo != g.last + 1 then Err(Discontinuity)
    else Ok(Gate(au.seqNo, false))
  }

  /** What became of a unit: put on the sender queue, or dropped and why. */
  datatype Fate = Raised | Stale | NoRoom | Waiting

  datatype CloseReason = Refused(why: Refusal) | SenderStopped | Ended

  datatype BridgePhase =
    | Idle                                      // waiting for the next unit
    | Raising(au: AccessUnit)                   // trying to put the unit on the sender queue
    | Settling(au: AccessUnit, fate: Fate)      // decided; about to ask for an IDR if it was dropped
    | Acking(au: AccessUnit)                    // about to acknowledge
    | Closed(reason: CloseReason)

  datatype BridgeState = BridgeState(phase: BridgePhase, gate: Gate, awaitIdr: bool, dropped: nat)

  const START := BridgeState(Idle, NEW_GATE, false, 0)

  /** The sender queue never holds more than this many units. */
  const SENDER_LIMIT: nat := 2

  /** recent: the frame is at most 200 ms old when it arrives. */
  function Receive(b: BridgeState, au: AccessUnit, recent: bool): BridgeState {
    match Accept(b.gate, au)
    case Err(why) => b.(phase := Closed(Refused(why)))
    case Ok(g) =>
      var awaitIdr := b.awaitIdr && !au.idr;
      b.(gate := g, awaitIdr := awaitIdr,
         phase := if awaitIdr then Settling(au, Waiting)
                  else if recent then Raising(au) else Settling(au, Stale))
  }

  /** Whether settling this unit asks the worker for an IDR. */
  predicate Requests(b: BridgeState, fate: Fate) {
    !fate.Raised? && !b.awaitIdr
  }

  function Settle(b: BridgeState, au: AccessUnit, fate: Fate): BridgeState {
    if fate.Raised? then b.(phase := Acking(au))
    else b.(phase := Acking(au), awaitIdr := true, dropped := b.dropped + 1)
  }

  /** Every unit that is not an IDR directly follows the unit it depends on. */
  ghost predicate Chained(log: seq<AccessUnit>) {
    forall i :: 0 <= i < |log| && !log[i].idr ==> 0 < i && log[i - 1].seqNo + 1 == log[i].seqNo
  }

  /** au may be put behind log without breaking the chain. */
  predicate Extends(log: seq<AccessUnit>, au: AccessUnit) {
    au.idr || (log != [] && log[|log| - 1].seqNo + 1 == au.seqNo)
  }

  /** The reference chain, between any two statements of the loop. */
  ghost predicate ChainInv(b: BridgeState, log: seq<AccessUnit>) {
    && Chained(log)
    && match b.phase
       case Idle => UpToDate(b, log)
       case Raising(au) => !b.awaitIdr && !b.gate.needIdr && au.seqNo == b.gate.last && Extends(log, au)
       case Settling(au, fate) =>
         !b.gate.needIdr && (fate == Raised ==> !b.awaitIdr && UpToDate(b, log)) && (fate == Waiting ==> b.awaitIdr)
       case Acking(_) => !b.gate.needIdr && UpToDate(b, log)
       case Closed(_) => true
  }

  predicate UpToDate(b: BridgeState, log: seq<AccessUnit>) {
    b.awaitIdr || b.gate.needIdr || (log != [] && log[|log| - 1].seqNo == b.gate.last)
  }

  lemma ChainStart()
    ensures ChainInv(START, [])
  {}

  /** Whatever unit the worker sends, receiving and settling it keeps the chain. */
  lemma ChainReceive(b: BridgeState, log: seq<AccessUnit>, au: AccessUnit, recent: bool)
    requires ChainInv(b, log) && b.phase.Idle?
    ensures ChainInv(Receive(b, au, recent), log)
  {}

  lemma ChainRaise(b: BridgeState, log: seq<AccessUnit>, au: AccessUnit)
    requires ChainInv(b, log) && b.phase == Raising(au)
    ensures ChainInv(b.(phase := Settling(au, Raised)), log + [au])
  {
    var log' := log + [au];
    forall i | 0 <= i < |log'| && !log'[i].idr
      ensures 0 < i && log'[i - 1].seqNo + 1 == log'[i].seqNo
    {
      if i < |log| {
        assert log'[i] == log[i];
      }
    }
  }

  lemma ChainSettle(b: BridgeState, log: seq<AccessUnit>, au: AccessUnit, fate: Fate)
    requires ChainInv(b, log) && b.phase == Settling(au, fate)
    ensures ChainInv(Settle(b, au, fate), log)
  {}

  lemma ChainTimeout(b: BridgeState, log: seq<AccessUnit>, au: AccessUnit)
    requires ChainInv(b, log) && b.phase == Raising(au)
    ensures ChainInv(b.(phase := Settling(au, NoRoom)), log)
  {}

  lemma ChainAck(b: BridgeState, log: seq<AccessUnit>, au: AccessUnit)
    requires ChainInv(b, log) && b.phase == Acking(au)
    ensures ChainInv(b.(phase := Idle), log)
  {}

  /**
   What one look at the sender queue finds: how many units the sender has taken since the last, whether it
   still runs, whether the session is being shut down, and whether the unit is now older than 50 ms.
   */
  datatype Look = Look(taken: nat, running: bool, shutdown: bool, late: bool)

  function Taken(looks: seq<Look>): nat {
    if looks == [] then 0 else Taken(looks[..|looks| - 1]) + looks[|looks| - 1].taken
  }

  /** Look k finds fewer than two units queued, n having been queued at first. */
  predicate Room(n: nat, looks: seq<Look>, k: nat)
    requires k < |looks|
  {
    n < 2 + Taken(looks[..k + 1])
  }

  /** The wait is still going on at look k: every look before it found the queue full, in time, with nothing ended. */
  ghost predicate StillWaiting(n: nat, looks: seq<Look>, k: nat)
    requires k < |looks|
  {
    forall j: nat :: j < k ==> Waits(n, looks, j)
  }

  /** Some look in time finds room with the sender running. */
  ghost predicate FindsRoom(n: nat, looks: seq<Look>) {
    exists k: nat :: k < |looks| && StillWaiting(n, looks, k) && looks[k].running && Room(n, looks, k)
  }

  /** Some look in time finds no room, and the sender stopped or the session ending. */
  ghost predicate FindsStop(n: nat, looks: seq<Look>) {
    exists k: nat :: k < |looks| && StillWaiting(n, looks, k) &&
      (!looks[k].running || (looks[k].shutdown && !Room(n, looks, k)))
  }

  /** Look k leaves the unit waiting. */
  predicate Waits(n: nat, looks: seq<Look>, k: nat)
    requires k < |looks|
  {
    looks[k].running && !looks[k].shutdown && !looks[k].late && !Room(n, looks, k)
  }

  /** There is one first look that does not leave the unit waiting. */
  lemma FirstIsOne(n: nat, looks: seq<Look>, j: nat, k: nat)
    requires j < |looks| && StillWaiting(n, looks, j) && !Waits(n, looks, j)
    requires k < |looks| && StillWaiting(n, looks, k) && !Waits(n, looks, k)
    ensures j == k
  {
    hide Waits;
  }

  /** It decides. */
  lemma Decided(n: nat, looks: seq<Look>, k: nat)
    requires k < |looks| && StillWaiting(n, looks, k) && !Waits(n, looks, k)
    ensures FindsRoom(n, looks) <==> looks[k].running && Room(n, looks, k)
    ensures FindsStop(n, looks) <==> !looks[k].running || (looks[k].shutdown && !Room(n, looks, k))
  {
    hide Room, StillWaiting;
    if FindsRoom(n, looks) {
      var j: nat :| j < |looks| && StillWaiting(n, looks, j) && looks[j].running && Room(n, looks, j);
      FirstIsOne(n, looks, j, k);
    }
    if FindsStop(n, looks) {
      var j: nat :| j < |looks| && StillWaiting(n, looks, j) &&
        (!looks[j].running || (looks[j].shutdown && !Room(n, looks, j)));
      FirstIsOne(n, looks, j, k);
    }
  }

  lemma Undecided(n: nat, looks: seq<Look>)
    requires forall j: nat :: j < |looks| ==> Waits(n, looks, j)
    ensures !FindsRoom(n, looks) && !FindsStop(n, looks)
  {
    hide Room, StillWaiting;
    forall k: nat | k < |looks|
      ensures looks[k].running && !looks[k].shutdown && !Room(n, looks, k)
    {
      assert Waits(n, looks, k);
    }
  }

  /** Units left of n when the sender has taken k. */
  function Left(n: nat, k: nat): nat {
    if k <= n then n - k else 0
  }

  lemma LeftOfNone(n: nat)
    ensures Left(n, Taken([])) == n
  {
  }

  lemma WaitsSoFar(n: nat, looks: seq<Look>, k: nat)
    requires k < |looks| && forall j: nat :: j < k ==> Waits(n, looks, j)
    ensures StillWaiting(n, looks, k)
  {
  }

  lemma OneLook(n: nat, looks: seq<Look>, k: nat)
    requires k < |looks|
    ensures Left(n, Taken(looks[..k + 1])) == Left(Left(n, Taken(looks[..k])), looks[k].taken)
    ensures Room(n, looks, k) <==> Left(n, Taken(looks[..k + 1])) < SENDER_LIMIT
  {
    assert looks[..k + 1][..k] == looks[..k];
  }

  /** The loop as the program writes it, for any worker and any sender. */
  class SessionLoop {
    var gate: Gate
    var awaitIdr: bool
    var dropped: nat
    var queue: seq<AccessUnit>
    var toWorker: seq<Control>
    ghost var log: seq<AccessUnit>

    ghost function View(phase: BridgePhase): BridgeState
      reads this
    {
      BridgeState(phase, gate, awaitIdr, dropped)
    }

    ghost predicate Valid()
      reads this
    {
      ChainInv(View(Idle), log) && Queued()
    }

    /** The queue is the end of what was ever put on it, and within its limit. */
    ghost predicate Queued()
      reads this`queue, this`log
    {
      |queue| <= SENDER_LIMIT && |queue| <= |log| && queue == log[|log| - |queue|..]
    }

    constructor ()
      ensures Valid() && View(Idle) == START && queue == [] && toWorker == [] && log == []
    {
      gate, awaitIdr, dropped, queue, toWorker, log := NEW_GATE, false, 0, [], [], [];
    }

    /** The sender takes up to n units from the front of the queue. */
    method Take(n: nat)
      requires Queued()
      modifies this`queue
      ensures Queued() && |queue| == Left(old(|queue|), n)
    {
      var k := if n <= |queue| then n else |queue|;
      queue := queue[k..];
    }

    /** rkmoon_try_raise(2, packet): append unless the queue is full or stopped. */
    method TryRaise(au: AccessUnit, running: bool) returns (ok: bool)
      requires Queued()
      modifies this`queue, this`log
      ensures ok == (running && old(|queue|) < SENDER_LIMIT)
      ensures queue == if ok then old(queue) + [au] else old(queue)
      ensures log == if ok then old(log) + [au] else old(log)
      ensures Queued()
    {
      if !running || SENDER_LIMIT <= |queue| {
        return false;
      }
      queue := queue + [au];
      log := log + [au];
      return true;
    }

    /**
     The waiting loop of a unit that should be delivered. The looks end at the first success, stop
     or timeout; running out of looks is the 50 ms limit as well.
     */
    method Deliver(au: AccessUnit, looks: seq<Look>) returns (raised: bool, running: bool)
      requires Queued()
      modifies this`queue, this`log
      ensures log == if raised then old(log) + [au] else old(log)
      ensures Queued()
      ensures (raised <==> FindsRoom(old(|queue|), looks)) && (raised ==> running)
      ensures running <==> !FindsStop(old(|queue|), looks)
    {
      hide Queued, Taken, FindsRoom, FindsStop, Room, StillWaiting;
      raised, running := false, true;
      ghost var n := |queue|;
      LeftOfNone(n);
      assert looks[..0] == [];
      for i := 0 to |looks|
        invariant !raised && running && log == old(log)
        invariant Queued()
        invariant |queue| == Left(n, Taken(looks[..i]))
        invariant forall j: nat :: j < i ==> Waits(n, looks, j)
      {
        var look := looks[i];
        OneLook(n, looks, i);
        Take(look.taken);
        raised := TryRaise(au, look.running);
        assert StillWaiting(n, looks, i) by {
          WaitsSoFar(n, looks, i);
        }
        if !Waits(n, looks, i) {
          Decided(n, looks, i);
        }
        if raised {
          return;
        }
        if look.shutdown || !look.running {
          return false, false;
        }
        if look.late {
          return;
        }
      }
      Undecided(n, looks);
    }

    /** Book the drop, ask for an IDR unless one is already awaited, and acknowledge. */
    method Finish(au: AccessUnit, delivered: bool)
      requires delivered ==> !awaitIdr
      modifies this`awaitIdr, this`dropped, this`toWorker
      ensures awaitIdr == !delivered
      ensures dropped == old(dropped) + (if delivered then 0 else 1)
      ensures toWorker == old(toWorker)
                + (if !delivered && !old(awaitIdr) then [Idr] else []) + [Ack(au.seqNo)]
    {
      if !delivered {
        dropped := dropped + 1;
        if !awaitIdr {
          awaitIdr := true;
          toWorker := toWorker + [Idr];
        }
      }
      toWorker := toWorker + [Ack(au.seqNo)];
    }

    /** One unit, from receive to acknowledgement. */
    method HandleUnit(au: AccessUnit, recent: bool, looks: seq<Look>)
      returns (end: Option<CloseReason>, delivered: bool)
      requires Valid()
      modifies this
      ensures end.None? ==> Valid()
      ensures Chained(log) && log == if delivered then old(log) + [au] else old(log)
      ensures match Accept(old(gate), au)
              case Err(why) => end == Some(Refused(why)) && !delivered && toWorker == old(toWorker)
              case Ok(g) => gate == g && (end.None? || end == Some(SenderStopped))
      ensures var due := Accept(old(gate), au).Ok? && recent && (au.idr || !old(awaitIdr));
              && (delivered <==> due && FindsRoom(old(|queue|), looks))
              && (end == Some(SenderStopped) <==> due && FindsStop(old(|queue|), looks))
      ensures end.None? ==>
                && awaitIdr == !delivered
                && dropped == old(dropped) + (if delivered then 0 else 1)
                && toWorker == old(toWorker)
                     + (if !delivered && (au.idr || !old(awaitIdr)) then [Idr] else [])
                     + [Ack(au.seqNo)]
    {
      hide Chained, Extends, UpToDate, FindsRoom, FindsStop, Queued;
      delivered := false;
      ghost var first := View(Idle);
      ghost var before := log;
      match Accept(gate, au) {
        case Err(why) => return Some(Refused(why)), false;
        case Ok(g) => gate := g;
      }
      ChainReceive(first, before, au, recent);
      if awaitIdr && au.idr {
        awaitIdr := false;
      }
      if !awaitIdr && recent {
        var running;
        delivered, running := Deliver(au, looks);
        if !running {
          return Some(SenderStopped), false;
        }
        if delivered {
          ChainRaise(Receive(first, au, recent), before, au);
        } else {
          ChainTimeout(Receive(first, au, recent), before, au);
        }
      }
      assert !delivered ==> log == before;
      ghost var fate := if delivered then Raised else if awaitIdr then Waiting else if recent then NoRoom else Stale;
      ghost var settling := View(Settling(au, fate));
      ChainSettle(settling, log, au, fate);
      Finish(au, delivered);
      ChainAck(View(Acking(au)), log, au);
      return None, delivered;
    }
  }
}
