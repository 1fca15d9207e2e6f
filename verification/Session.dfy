/**
 Worker and bridge together: two FIFO channels, the bounded sender queue, and every interleaving of
 their steps. The histories (produced, fates, log) record what happened; no step reads them.
 */
module Session {
  import opened Common
  import opened Worker
  import opened Bridge

  datatype Settled = Settled(au: AccessUnit, fate: Fate)

  datatype Session = Session(
    worker: WorkerState, bridge: BridgeState,
    toBridge: seq<AccessUnit>, toWorker: seq<Control>, queue: seq<AccessUnit>,
    produced: seq<AccessUnit>,  // every unit the worker sent
    fates: seq<Settled>,        // what the bridge decided, unit by unit
    log: seq<AccessUnit>,       // every unit put on the sender queue
    lost: bool)                 // a reopening failed after units had been sent

  /** Both sides after READY was received. */
  function Init(bps: nat, placeholder: bool): Session {
    Session(Worker.Start(bps, placeholder), Bridge.START, [], [], [], [], [], [], false)
  }

  /** One step of one side, with what its environment does. */
  datatype Action =
    // worker
    | DrainOne                                // top of the loop: one queued control
    | DrainEnd                                // top of the loop: nothing more to take now
    | CaptureFault(reopen: Reopen)            // latest() threw
    | EncodeAndSend(due: bool, idr: bool)     // latest() returned and the unit went out
    | Reattempt(reopen: Reopen)               // encoder gone: recover again
    | AwaitOne                                // one control while waiting for the credit
    | SourceUnchanged
    | SourceChanged(reopen: Reopen)           // unchanged() threw
    | WorkerFails                             // encoder, IPC or deadline failure, or a signal
    // bridge
    | ForwardIdr                              // the client asked for an IDR
    | ReceiveUnit(recent: bool)
    | RaiseUnit
    | RaiseTimesOut
    | SettleUnit
    | AckUnit
    | BridgeEnds(sender: bool)                // stop, stall, send failure; or the sender stopped
    // network sender
    | SenderTakes

  /** recover() as the session sees it; an expired window is only possible while recovering. */
  function Reopened(s: Session, o: Reopen): Session {
    if o.Expired? && !s.worker.recovering then s
    else s.(worker := Recover(s.worker, o), lost := s.lost || LosesSequence(s.worker, o))
  }

  /** The branch of recover() that forgets the sequence number. */
  predicate LosesSequence(w: WorkerState, o: Reopen) {
    o.NotReopened? && w.encoder.Some? && 0 < w.encoder.value.seqNo
  }

  /** The worker's half of a step; a step that is not enabled changes nothing. */
  function WorkerStep(s: Session, a: Action): Session {
    var w := s.worker;
    match a
    case DrainOne =>
      if w.phase.Draining? && s.toWorker != [] then
        s.(worker := Drain(w, s.toWorker[0]), toWorker := s.toWorker[1..])
      else s
    case DrainEnd =>
      // The capture loop drains until nothing is readable; the placeholder loop until its next period.
      if w.phase.Draining? && (s.toWorker == [] || w.placeholder) then s.(worker := DrainDone(w)) else s
    case CaptureFault(o) =>
      if w.phase.Capturing? && !w.placeholder then Reopened(s, o) else s
    case EncodeAndSend(due, idr) =>
      if w.phase.Capturing? && w.encoder.Some? then
        var (w', unit) := Encode(WithTestIdr(w, due), idr);
        match unit
        case None => s.(worker := w')
        case Some(au) => s.(worker := w', toBridge := s.toBridge + [au], produced := s.produced + [au])
      else s
    case Reattempt(o) =>
      if w.phase.Reopening? then Reopened(s, o) else s
    case AwaitOne =>
      if w.phase.Awaiting? && s.toWorker != [] then
        s.(worker := Wait(w, w.phase.seqNo, s.toWorker[0]), toWorker := s.toWorker[1..])
      else s
    case SourceUnchanged =>
      if w.phase.Checking? then s.(worker := w.(phase := WorkerPhase.Draining)) else s
    case SourceChanged(o) =>
      if w.phase.Checking? && !w.placeholder then Reopened(s, o) else s
    case WorkerFails =>
      if w.Alive() then s.(worker := w.(phase := Exited(Failed))) else s
    case _ => s
  }

  function BridgeStep(s: Session, a: Action): Session {
    var b := s.bridge;
    match a
    case ForwardIdr =>
      if b.phase.Idle? then s.(toWorker := s.toWorker + [Idr]) else s
    case ReceiveUnit(recent) =>
      if b.phase.Idle? && s.toBridge != [] then
        s.(bridge := Receive(b, s.toBridge[0], recent), toBridge := s.toBridge[1..])
      else s
    case RaiseUnit =>
      if b.phase.Raising? && |s.queue| < SENDER_LIMIT then
        s.(bridge := b.(phase := Settling(b.phase.au, Raised)),
           queue := s.queue + [b.phase.au], log := s.log + [b.phase.au])
      else s
    case RaiseTimesOut =>
      if b.phase.Raising? && SENDER_LIMIT <= |s.queue| then
        s.(bridge := b.(phase := Settling(b.phase.au, NoRoom)))
      else s
    case SettleUnit =>
      if b.phase.Settling? then
        var (au, fate) := (b.phase.au, b.phase.fate);
        s.(bridge := Settle(b, au, fate),
           toWorker := if Requests(b, fate) then s.toWorker + [Idr] else s.toWorker,
           fates := s.fates + [Settled(au, fate)])
      else s
    case AckUnit =>
      if b.phase.Acking? then
        s.(bridge := b.(phase := Idle), toWorker := s.toWorker + [Ack(b.phase.au.seqNo)])
      else s
    case BridgeEnds(sender) =>
      if b.phase.Closed? then s
      else s.(bridge := b.(phase := Closed(if sender && b.phase.Raising? then SenderStopped else Ended)))
    case SenderTakes =>
      if s.queue != [] then s.(queue := s.queue[1..]) else s
    case _ => s
  }

  predicate OfWorker(a: Action) {
    a.DrainOne? || a.DrainEnd? || a.CaptureFault? || a.EncodeAndSend? || a.Reattempt? || a.AwaitOne? ||
    a.SourceUnchanged? || a.SourceChanged? || a.WorkerFails?
  }

  function Step(s: Session, a: Action): Session {
    if OfWorker(a) then WorkerStep(s, a) else BridgeStep(s, a)
  }

  function Run(s: Session, acts: seq<Action>): Session {
    if acts == [] then s else Step(Run(s, acts[..|acts| - 1]), acts[|acts| - 1])
  }

  // ----- at most one unit in flight -----

  ghost predicate OnlyIdr(cs: seq<Control>) {
    forall i :: 0 <= i < |cs| ==> cs[i] == Idr
  }

  /** One acknowledgement, of unit n, and otherwise only requests for an IDR. */
  ghost predicate OneAck(cs: seq<Control>, n: nat) {
    exists k :: 0 <= k < |cs| && cs[k] == Ack(n) && forall i :: 0 <= i < |cs| && i != k ==> cs[i] == Idr
  }

  /** The unit the bridge is working on, if any. */
  function InHand(b: BridgeState): Option<AccessUnit> {
    match b.phase
    case Raising(au) => Some(au)
    case Settling(au, _) => Some(au)
    case Acking(au) => Some(au)
    case _ => None
  }

  /** The credit is in exactly one place: with the worker, on a channel, or with the bridge. */
  ghost predicate InFlight(s: Session) {
    && (s.toBridge != [] ==> |s.toBridge| == 1 && InHand(s.bridge).None?)
    && match s.worker.phase
       case Awaiting(n) =>
         || (|s.toBridge| == 1 && s.toBridge[0].seqNo == n && OnlyIdr(s.toWorker))
         || (s.toBridge == [] && OnlyIdr(s.toWorker) && InHand(s.bridge).Some? && InHand(s.bridge).value.seqNo == n)
         || (s.toBridge == [] && OneAck(s.toWorker, n) && InHand(s.bridge).None?)
         || (s.toBridge == [] && OnlyIdr(s.toWorker) && s.bridge.phase.Closed?)
       case Exited(r) => r != AckMismatch && r != UnexpectedControl
       case _ => s.toBridge == [] && OnlyIdr(s.toWorker) && InHand(s.bridge).None?
  }

  lemma OneAckSplit(cs: seq<Control>, n: nat)
    requires OneAck(cs, n)
    ensures cs != []
    ensures cs[0] == Ack(n) ==> OnlyIdr(cs[1..])
    ensures cs[0] != Ack(n) ==> cs[0] == Idr && OneAck(cs[1..], n)
  {
    var k :| 0 <= k < |cs| && cs[k] == Ack(n) && forall i :: 0 <= i < |cs| && i != k ==> cs[i] == Idr;
    if k > 0 {
      assert cs[1..][k - 1] == Ack(n);
    }
  }

  lemma OneAckGrows(cs: seq<Control>, n: nat)
    ensures OnlyIdr(cs) ==> OneAck(cs + [Ack(n)], n) && OnlyIdr(cs + [Idr])
    ensures OneAck(cs, n) ==> OneAck(cs + [Idr], n)
  {
    if OnlyIdr(cs) {
      assert (cs + [Ack(n)])[|cs|] == Ack(n);
    }
    if OneAck(cs, n) {
      var k :| 0 <= k < |cs| && cs[k] == Ack(n) && forall i :: 0 <= i < |cs| && i != k ==> cs[i] == Idr;
      assert (cs + [Idr])[k] == Ack(n);
    }
  }

  lemma InFlightWorker(s: Session, a: Action)
    requires InFlight(s) && OfWorker(a)
    ensures InFlight(WorkerStep(s, a))
  {
    if a.AwaitOne? && s.worker.phase.Awaiting? && s.toWorker != [] && OneAck(s.toWorker, s.worker.phase.seqNo) {
      OneAckSplit(s.toWorker, s.worker.phase.seqNo);
    }
  }

  lemma InFlightBridge(s: Session, a: Action)
    requires InFlight(s) && !OfWorker(a)
    ensures InFlight(BridgeStep(s, a))
  {
    if s.worker.phase.Awaiting? {
      OneAckGrows(s.toWorker, s.worker.phase.seqNo);
    } else {
      OneAckGrows(s.toWorker, 0);
    }
  }

  // ----- which unit got which fate -----

  function Delivered(fates: seq<Settled>): seq<AccessUnit> {
    if fates == [] then []
    else
      var rest := Delivered(fates[..|fates| - 1]);
      var f := fates[|fates| - 1];
      if f.fate.Raised? then rest + [f.au] else rest
  }

  lemma DeliveredSnoc(fates: seq<Settled>, f: Settled)
    ensures Delivered(fates + [f]) == if f.fate.Raised? then Delivered(fates) + [f.au] else Delivered(fates)
  {
    assert (fates + [f])[..|fates|] == fates;
  }

  /** The worker may send again: every unit so far is settled. */
  ghost predicate Credited(s: Session) {
    s.worker.Alive() && (s.worker.phase.Awaiting? ==> OneAck(s.toWorker, s.worker.phase.seqNo))
  }

  lemma NoAckAmongIdr(cs: seq<Control>, n: nat)
    ensures OnlyIdr(cs) ==> !OneAck(cs, n) && !OneAck(cs + [Idr], n)
  {
  }

  /** Units are settled in the order they were produced, one at a time. */
  ghost predicate Flow(s: Session) {
    var n := |s.fates|;
    && n <= |s.produced| <= n + 1
    && (forall i :: 0 <= i < n ==> s.fates[i].au == s.produced[i])
    && (s.toBridge != [] ==> |s.produced| == n + 1 && s.toBridge[0] == s.produced[n])
    && (Credited(s) ==> |s.produced| == n)
    && match s.bridge.phase
       case Idle => (s.toBridge == [] ==> |s.produced| == n) && s.log == Delivered(s.fates)
       case Raising(au) => |s.produced| == n + 1 && au == s.produced[n] && s.log == Delivered(s.fates)
       case Settling(au, fate) =>
         |s.produced| == n + 1 && au == s.produced[n] &&
         s.log == Delivered(s.fates) + (if fate.Raised? then [au] else [])
       case Acking(au) => |s.produced| == n && 0 < n && s.log == Delivered(s.fates)
       case Closed(_) => true
  }

  lemma FlowWorker(s: Session, a: Action)
    requires InFlight(s) && Flow(s) && OfWorker(a)
    ensures Flow(WorkerStep(s, a))
  {
    if a.AwaitOne? && s.worker.phase.Awaiting? && s.toWorker != [] && OneAck(s.toWorker, s.worker.phase.seqNo) {
      OneAckSplit(s.toWorker, s.worker.phase.seqNo);
    }
  }

  lemma FlowBridge(s: Session, a: Action)
    requires InFlight(s) && Flow(s) && !OfWorker(a)
    ensures Flow(BridgeStep(s, a))
  {
    hide Delivered, OneAck, OnlyIdr;
    if s.worker.phase.Awaiting? {
      NoAckAmongIdr(s.toWorker, s.worker.phase.seqNo);
    }
    if a.SettleUnit? && s.bridge.phase.Settling? {
      DeliveredSnoc(s.fates, Settled(s.bridge.phase.au, s.bridge.phase.fate));
    }
  }

  // ----- recovery by IDR -----

  ghost predicate LastDropped(fates: seq<Settled>) {
    fates != [] && !fates[|fates| - 1].fate.Raised?
  }

  /** A request for an IDR is with the worker, or ahead of the acknowledgement it waits for. */
  predicate IdrOwed(s: Session) {
    s.worker.force || (s.worker.phase.Awaiting? && s.toWorker != [] && s.toWorker[0] == Idr)
  }

  ghost predicate Recovery(s: Session) {
    && (s.produced != [] ==> s.produced[0].idr)
    && (s.produced == [] && s.worker.Alive() ==> s.worker.force)
    && (forall i :: 0 <= i < |s.fates| ==> s.fates[i].fate != Waiting)
    && (forall i :: 0 <= i < |s.fates| && !s.fates[i].fate.Raised? && i + 1 < |s.produced| ==> s.produced[i + 1].idr)
    && (LastDropped(s.fates) && |s.produced| == |s.fates| && s.worker.Alive() ==> IdrOwed(s))
    && (!s.bridge.phase.Closed? ==> GateFollows(s))
  }

  /** The bridge's flags say what the history says. */
  ghost predicate GateFollows(s: Session) {
    && s.bridge.gate.needIdr == (s.fates == [] && s.bridge.phase.Idle?)
    && s.bridge.awaitIdr == (LastDropped(s.fates) && (s.bridge.phase.Idle? || s.bridge.phase.Acking?))
    && (s.bridge.phase.Settling? ==> s.bridge.phase.fate != Waiting)
  }

  lemma RecoveryAwait(s: Session)
    requires InFlight(s) && Flow(s) && Recovery(s)
    ensures Recovery(WorkerStep(s, AwaitOne))
  {
    if s.worker.phase.Awaiting? && s.toWorker != [] && OneAck(s.toWorker, s.worker.phase.seqNo) {
      OneAckSplit(s.toWorker, s.worker.phase.seqNo);
    }
  }

  lemma RecoverySend(s: Session, due: bool, idr: bool)
    requires InFlight(s) && Flow(s) && Recovery(s)
    ensures Recovery(WorkerStep(s, EncodeAndSend(due, idr)))
  {}

  lemma RecoveryWorker(s: Session, a: Action)
    requires InFlight(s) && Flow(s) && Recovery(s) && OfWorker(a)
    ensures Recovery(WorkerStep(s, a))
  {
    if a.AwaitOne? {
      RecoveryAwait(s);
    } else if a.EncodeAndSend? {
      RecoverySend(s, a.due, a.idr);
    } else {
      assert WorkerStep(s, a).produced == s.produced;
    }
  }

  lemma RecoveryBridge(s: Session, a: Action)
    requires InFlight(s) && Flow(s) && Recovery(s) && !OfWorker(a)
    ensures Recovery(BridgeStep(s, a))
  {
    hide Delivered, OneAck;
    var s' := BridgeStep(s, a);
    if a.ReceiveUnit? && s.bridge.phase.Idle? && s.toBridge != [] {
      var au := s.toBridge[0];
      assert au == s.produced[|s.fates|];
      if s.bridge.awaitIdr || s.bridge.gate.needIdr {
        assert s.fates != [] ==> !s.fates[|s.fates| - 1].fate.Raised?;
        assert au.idr;
      }
    }
  }

  // ----- sequence numbers -----

  /** The next unit follows the last accepted one, until a reopening forgets the number. */
  ghost predicate Numbering(s: Session) {
    && (s.worker.phase.Awaiting? ==> s.worker.encoder.Some? && s.worker.encoder.value.seqNo == s.worker.phase.seqNo)
    && (!s.bridge.phase.Closed? ==>
          && (InHand(s.bridge).Some? ==> InHand(s.bridge).value.seqNo == s.bridge.gate.last)
          && (s.toBridge != [] ==> s.toBridge[0].seqNo == (if s.lost then 1 else s.bridge.gate.last + 1))
          && (s.lost ==> s.bridge.gate.last != 0 && InHand(s.bridge).None?)
          && (s.toBridge == [] && s.worker.Alive() ==>
                SequenceOf(s.worker) == if s.lost then 0 else s.bridge.gate.last))
  }

  lemma NumberingAwait(s: Session)
    requires InFlight(s) && Numbering(s)
    ensures Numbering(WorkerStep(s, AwaitOne))
  {
  }

  lemma NumberingSend(s: Session, due: bool, idr: bool)
    requires InFlight(s) && Numbering(s)
    ensures Numbering(WorkerStep(s, EncodeAndSend(due, idr)))
  {
    hide OneAck, OnlyIdr;
  }

  lemma NumberingWorker(s: Session, a: Action)
    requires InFlight(s) && Numbering(s) && OfWorker(a)
    ensures Numbering(WorkerStep(s, a))
  {
    if a.AwaitOne? {
      NumberingAwait(s);
    } else if a.EncodeAndSend? {
      NumberingSend(s, a.due, a.idr);
    } else {
      hide OneAck, OnlyIdr;
    }
  }

  lemma NumberingBridge(s: Session, a: Action)
    requires InFlight(s) && Numbering(s) && !OfWorker(a)
    ensures Numbering(BridgeStep(s, a))
  {
  }

  // ----- the sender queue -----

  ghost predicate QueueInv(s: Session) {
    |s.queue| <= SENDER_LIMIT && |s.queue| <= |s.log| && s.queue == s.log[|s.log| - |s.queue|..]
  }

  ghost predicate Sender(s: Session) {
    ChainInv(s.bridge, s.log) && QueueInv(s)
  }

  lemma ChainBridge(s: Session, a: Action)
    requires ChainInv(s.bridge, s.log)
    ensures ChainInv(BridgeStep(s, a).bridge, BridgeStep(s, a).log)
  {
    if a.ReceiveUnit? && s.bridge.phase.Idle? && s.toBridge != [] {
      ChainReceive(s.bridge, s.log, s.toBridge[0], a.recent);
    } else if a.RaiseUnit? && s.bridge.phase.Raising? {
      ChainRaise(s.bridge, s.log, s.bridge.phase.au);
    } else if a.SettleUnit? && s.bridge.phase.Settling? {
      ChainSettle(s.bridge, s.log, s.bridge.phase.au, s.bridge.phase.fate);
    } else {
      assert BridgeStep(s, a).log == s.log;
    }
  }

  lemma SenderBridge(s: Session, a: Action)
    requires Sender(s)
    ensures Sender(BridgeStep(s, a))
  {
    hide ChainInv;
    ChainBridge(s, a);
  }

  // ----- numbers and counts -----

  ghost predicate Numbered(s: Session) {
    !s.lost ==>
      && (forall i :: 0 <= i < |s.produced| ==> s.produced[i].seqNo == i + 1)
      && (s.worker.Alive() ==> SequenceOf(s.worker) == |s.produced|)
  }

  predicate Counted(s: Session) {
    s.bridge.dropped + |Delivered(s.fates)| == |s.fates|
  }

  /** A step of the worker either sends the next unit or leaves the units sent and the number as they were. */
  lemma WorkerStepNumber(s: Session, a: Action)
    requires OfWorker(a)
    ensures var s' := WorkerStep(s, a);
            || (s'.produced == s.produced &&
                  (s'.lost || !s'.worker.Alive() || SequenceOf(s'.worker) == SequenceOf(s.worker)))
            || (s'.worker.Alive() && SequenceOf(s'.worker) == SequenceOf(s.worker) + 1 &&
                  |s'.produced| == |s.produced| + 1 && s.produced <= s'.produced &&
                  s'.produced[|s.produced|].seqNo == SequenceOf(s'.worker))
    ensures s.lost ==> WorkerStep(s, a).lost
    ensures WorkerStep(s, a).worker.Alive() ==> s.worker.Alive()
  {
    assert !a.EncodeAndSend? ==> WorkerStep(s, a).produced == s.produced;
  }

  lemma NumberedKept(s: Session, a: Action)
    requires Numbered(s)
    ensures Numbered(Step(s, a))
  {
    if OfWorker(a) {
      WorkerStepNumber(s, a);
    }
  }

  lemma CountedKept(s: Session, a: Action)
    requires Counted(s)
    ensures Counted(Step(s, a))
  {
    if a.SettleUnit? && s.bridge.phase.Settling? {
      DeliveredSnoc(s.fates, Settled(s.bridge.phase.au, s.bridge.phase.fate));
    }
  }

  // ----- every run -----

  ghost predicate Inv(s: Session) {
    InFlight(s) && Flow(s) && Recovery(s) && Numbering(s) && Sender(s) && Numbered(s) && Counted(s)
  }

  lemma SenderWorker(s: Session, a: Action)
    requires Sender(s)
    ensures Sender(WorkerStep(s, a))
  {}

  lemma WorkerStepKeepsInv(s: Session, a: Action)
    requires Inv(s) && OfWorker(a)
    ensures InFlight(Step(s, a)) && Flow(Step(s, a)) && Recovery(Step(s, a)) && Numbering(Step(s, a))
    ensures Sender(Step(s, a))
  {
    var s' := Step(s, a);
    assert InFlight(s') by { InFlightWorker(s, a); }
    assert Flow(s') by { FlowWorker(s, a); }
    assert Recovery(s') by { RecoveryWorker(s, a); }
    assert Numbering(s') by { NumberingWorker(s, a); }
    SenderWorker(s, a);
  }

  lemma BridgeStepKeepsInv(s: Session, a: Action)
    requires Inv(s) && !OfWorker(a)
    ensures InFlight(Step(s, a)) && Flow(Step(s, a)) && Recovery(Step(s, a)) && Numbering(Step(s, a))
    ensures Sender(Step(s, a))
  {
    var s' := Step(s, a);
    assert InFlight(s') by { InFlightBridge(s, a); }
    assert Flow(s') by { FlowBridge(s, a); }
    assert Recovery(s') by { RecoveryBridge(s, a); }
    assert Numbering(s') by { NumberingBridge(s, a); }
    SenderBridge(s, a);
  }

  lemma StepKeepsInv(s: Session, a: Action)
    requires Inv(s)
    ensures Inv(Step(s, a))
  {
    NumberedKept(s, a);
    CountedKept(s, a);
    if OfWorker(a) {
      WorkerStepKeepsInv(s, a);
    } else {
      BridgeStepKeepsInv(s, a);
    }
  }

  lemma {:induction false} RunKeepsInv(s: Session, acts: seq<Action>)
    requires Inv(s)
    ensures Inv(Run(s, acts))
  {
    if acts != [] {
      RunKeepsInv(s, acts[..|acts| - 1]);
      StepKeepsInv(Run(s, acts[..|acts| - 1]), acts[|acts| - 1]);
    }
  }

  lemma InitInv(bps: nat, placeholder: bool)
    ensures Inv(Init(bps, placeholder))
  {
    ChainStart();
  }

  lemma ReachableInv(bps: nat, placeholder: bool, acts: seq<Action>)
    ensures Inv(Run(Init(bps, placeholder), acts))
  {
    InitInv(bps, placeholder);
    RunKeepsInv(Init(bps, placeholder), acts);
  }

  // ----- main results -----

  /** Acknowledgements among these controls. */
  function Acks(cs: seq<Control>): nat {
    if cs == [] then 0 else Acks(cs[..|cs| - 1]) + (if cs[|cs| - 1].Ack? then 1 else 0)
  }

  lemma {:induction false} AcksOfRequests(cs: seq<Control>)
    requires OnlyIdr(cs)
    ensures Acks(cs) == 0
  {
    if cs != [] {
      AcksOfRequests(cs[..|cs| - 1]);
    }
  }

  lemma {:induction false} AcksOfOneAck(cs: seq<Control>, n: nat)
    requires OneAck(cs, n)
    ensures Acks(cs) == 1
  {
    var k :| 0 <= k < |cs| && cs[k] == Ack(n) && forall i :: 0 <= i < |cs| && i != k ==> cs[i] == Idr;
    var front := cs[..|cs| - 1];
    if k == |cs| - 1 {
      AcksOfRequests(front);
    } else {
      assert front[k] == Ack(n);
      AcksOfOneAck(front, n);
    }
  }

  /** Units sent and not yet acknowledged to the worker, wherever they or their acknowledgements are. */
  function Unacknowledged(s: Session): nat {
    |s.toBridge| + (if InHand(s.bridge).Some? then 1 else 0) + Acks(s.toWorker)
  }

  /**
   In every run at most one unit is unacknowledged, and none while the worker is not waiting for it; the
   worker never sees a wrong acknowledgement or an unexpected control; and while both sides live one of them
   can always move.
   */
  lemma OneUnitInFlight(bps: nat, placeholder: bool, acts: seq<Action>)
    ensures var s := Run(Init(bps, placeholder), acts);
            && (s.worker.Alive() ==> Unacknowledged(s) <= (if s.worker.phase.Awaiting? then 1 else 0))
            && (s.worker.phase.Awaiting? && !s.bridge.phase.Closed? ==> Unacknowledged(s) == 1)
            && |s.produced| <= |s.fates| + 1
            && s.worker.phase != Exited(AckMismatch)
            && s.worker.phase != Exited(UnexpectedControl)
            && (s.worker.phase.Awaiting? && !s.bridge.phase.Closed? ==>
                  || s.toWorker != []
                  || (s.toBridge != [] && s.bridge.phase.Idle?)
                  || InHand(s.bridge).Some?)
  {
    ReachableInv(bps, placeholder, acts);
    var s := Run(Init(bps, placeholder), acts);
    CreditCounted(s);
    if s.worker.phase.Awaiting? && OneAck(s.toWorker, s.worker.phase.seqNo) {
      OneAckSplit(s.toWorker, s.worker.phase.seqNo);
    }
  }

  /** The one credit, counted. */
  lemma CreditCounted(s: Session)
    requires InFlight(s)
    ensures s.worker.Alive() ==> Unacknowledged(s) <= (if s.worker.phase.Awaiting? then 1 else 0)
    ensures s.worker.phase.Awaiting? && !s.bridge.phase.Closed? ==> Unacknowledged(s) == 1
  {
    if OnlyIdr(s.toWorker) {
      AcksOfRequests(s.toWorker);
    } else if s.worker.phase.Awaiting? {
      AcksOfOneAck(s.toWorker, s.worker.phase.seqNo);
    }
  }

  /**
   In every run the units put on the sender queue, in order, are those the bridge did not drop; each
   one that is not an IDR directly follows the unit it depends on; the queue holds at most two.
   */
  lemma ReferenceChainKept(bps: nat, placeholder: bool, acts: seq<Action>)
    ensures var s := Run(Init(bps, placeholder), acts);
            && Chained(s.log)
            && |s.queue| <= 2 && |s.queue| <= |s.log| && s.queue == s.log[|s.log| - |s.queue|..]
            && (s.bridge.phase.Idle? ==> s.log == Delivered(s.fates))
            && forall i :: 0 <= i < |s.fates| ==> i < |s.produced| && s.fates[i].au == s.produced[i]
  {
    ReachableInv(bps, placeholder, acts);
  }

  /**
   Whatever is dropped, and why, the very next unit is an IDR; so a unit that finds the bridge
   waiting for one always is one, and nothing is ever dropped merely for waiting.
   */
  lemma RecoveryTakesOneUnit(bps: nat, placeholder: bool, acts: seq<Action>)
    ensures var s := Run(Init(bps, placeholder), acts);
            && (s.produced != [] ==> s.produced[0].idr)
            && (forall i :: 0 <= i < |s.fates| ==> s.fates[i].fate != Waiting)
            && (forall i :: 0 <= i < |s.fates| && !s.fates[i].fate.Raised? && i + 1 < |s.produced| ==>
                  s.produced[i + 1].idr)
            && (s.bridge.phase.Idle? && s.bridge.awaitIdr && s.toBridge != [] ==> s.toBridge[0].idr)
  {
    ReachableInv(bps, placeholder, acts);
  }

  /**
   Until a reopening forgets the number, the units are numbered 1, 2, 3, ... without a gap; and every
   settled unit is either delivered or counted as dropped.
   */
  lemma NumberedAndCounted(bps: nat, placeholder: bool, acts: seq<Action>)
    ensures var s := Run(Init(bps, placeholder), acts);
            && (!s.lost ==> forall i :: 0 <= i < |s.produced| ==> s.produced[i].seqNo == i + 1)
            && s.bridge.dropped + |Delivered(s.fates)| == |s.fates|
  {
    ReachableInv(bps, placeholder, acts);
  }

  /** The gate refuses the unit that arrives exactly when a reopening has forgotten the sequence number. */
  lemma GateRefusesIffSequenceLost(bps: nat, placeholder: bool, acts: seq<Action>)
    ensures var s := Run(Init(bps, placeholder), acts);
            s.bridge.phase.Idle? && s.toBridge != [] ==>
              && (Accept(s.bridge.gate, s.toBridge[0]) == Err(Discontinuity) <==> s.lost)
              && (Accept(s.bridge.gate, s.toBridge[0]).Ok? <==> !s.lost)
  {
    ReachableInv(bps, placeholder, acts);
  }

  /** This step runs the branch of recover() that leaves no encoder behind after units were sent. */
  predicate ForgetsNumber(s: Session, a: Action) {
    match a
    case CaptureFault(o) => s.worker.phase.Capturing? && !s.worker.placeholder && LosesSequence(s.worker, o)
    case SourceChanged(o) => s.worker.phase.Checking? && !s.worker.placeholder && LosesSequence(s.worker, o)
    case Reattempt(o) => s.worker.phase.Reopening? && LosesSequence(s.worker, o)
    case _ => false
  }

  lemma LostStep(s: Session, a: Action)
    ensures Step(s, a).lost == (s.lost || ForgetsNumber(s, a))
  {}

  lemma {:induction false} LostWhere(s: Session, acts: seq<Action>) returns (k: nat)
    requires !s.lost && Run(s, acts).lost
    ensures k < |acts| && ForgetsNumber(Run(s, acts[..k]), acts[k])
  {
    hide Step, ForgetsNumber;
    k := |acts| - 1;
    var most := acts[..k];
    LostStep(Run(s, most), acts[k]);
    if Run(s, most).lost {
      var j := LostWhere(s, most);
      assert most[..j] == acts[..j];
      k := j;
    }
  }

  lemma {:induction false} LostStays(s: Session, acts: seq<Action>, k: nat)
    requires k < |acts| && ForgetsNumber(Run(s, acts[..k]), acts[k])
    ensures Run(s, acts).lost
  {
    hide Step, ForgetsNumber;
    var n := |acts| - 1;
    LostStep(Run(s, acts[..n]), acts[n]);
    if k < n {
      assert acts[..n][..k] == acts[..k];
      LostStays(s, acts[..n], k);
    }
  }

  /** lost means: somewhere in the run a reopening failed after units had been sent. */
  lemma LostIff(s: Session, acts: seq<Action>)
    requires !s.lost
    ensures Run(s, acts).lost <==> exists k :: 0 <= k < |acts| && ForgetsNumber(Run(s, acts[..k]), acts[k])
  {
    if Run(s, acts).lost {
      var k := LostWhere(s, acts);
    }
    forall k | 0 <= k < |acts| && ForgetsNumber(Run(s, acts[..k]), acts[k])
      ensures Run(s, acts).lost
    {
      LostStays(s, acts, k);
    }
  }

  lemma RunEmpty(s: Session)
    ensures Run(s, []) == s
  {}

  lemma RunSnoc(s: Session, acts: seq<Action>, a: Action)
    ensures Run(s, acts + [a]) == Step(Run(s, acts), a)
  {
    assert (acts + [a])[..|acts|] == acts;
  }

  function AfterFirstUnit(bps: nat): Session {
    var au := AccessUnit(1, true);
    Session(WorkerState(Checking, Some(Encoder(1, bps)), false, false, 0, false, bps, false),
            BridgeState(Idle, Gate(1, false), false, 0), [], [], [au], [au], [Settled(au, Raised)], [au], false)
  }

  function FirstUnitSent(bps: nat): Session {
    var au := AccessUnit(1, true);
    Session(WorkerState(Awaiting(1), Some(Encoder(1, bps)), false, false, 0, false, bps, false),
            Bridge.START, [au], [], [], [au], [], [], false)
  }

  lemma ReachFirstUnitSent(bps: nat) returns (acts: seq<Action>)
    ensures Run(Init(bps, false), acts) == FirstUnitSent(bps)
  {
    hide Run;
    RunEmpty(Init(bps, false));
    var s := Init(bps, false);
    RunSnoc(s, [], DrainEnd);
    acts := [] + [DrainEnd];
    RunSnoc(s, acts, EncodeAndSend(false, true));
    acts := acts + [EncodeAndSend(false, true)];
  }

  function FirstUnitQueued(bps: nat): Session {
    var au := AccessUnit(1, true);
    FirstUnitSent(bps).(bridge := BridgeState(Settling(au, Raised), Gate(1, false), false, 0),
                        toBridge := [], queue := [au], log := [au])
  }

  lemma ReachFirstUnitQueued(bps: nat) returns (acts: seq<Action>)
    ensures Run(Init(bps, false), acts) == FirstUnitQueued(bps)
  {
    hide Run;
    var s := Init(bps, false);
    acts := ReachFirstUnitSent(bps);
    RunSnoc(s, acts, ReceiveUnit(true));
    acts := acts + [ReceiveUnit(true)];
    RunSnoc(s, acts, RaiseUnit);
    acts := acts + [RaiseUnit];
  }

  lemma ReachAfterFirstUnit(bps: nat) returns (acts: seq<Action>)
    ensures Run(Init(bps, false), acts) == AfterFirstUnit(bps)
  {
    hide Run;
    var s := Init(bps, false);
    acts := ReachFirstUnitQueued(bps);
    RunSnoc(s, acts, SettleUnit);
    acts := acts + [SettleUnit];
    RunSnoc(s, acts, AckUnit);
    acts := acts + [AckUnit];
    RunSnoc(s, acts, AwaitOne);
    acts := acts + [AwaitOne];
  }

  function AfterReopening(bps: nat): Session {
    var s := AfterFirstUnit(bps);
    s.(worker := s.worker.(phase := Capturing, encoder := Some(Encoder(0, bps)), recovering := true, force := true),
       lost := true)
  }

  lemma ReachAfterReopening(bps: nat) returns (acts: seq<Action>)
    ensures Run(Init(bps, false), acts) == AfterReopening(bps)
  {
    hide Run;
    var s := Init(bps, false);
    var t := AfterFirstUnit(bps);
    acts := ReachAfterFirstUnit(bps);
    RunSnoc(s, acts, SourceChanged(NotReopened));
    acts := acts + [SourceChanged(NotReopened)];
    t := t.(worker := t.worker.(phase := WorkerPhase.Draining, encoder := None, recovering := true), lost := true);
    assert Run(s, acts) == t;
    RunSnoc(s, acts, DrainEnd);
    acts := acts + [DrainEnd];
    t := t.(worker := t.worker.(phase := Reopening));
    assert Run(s, acts) == t;
    RunSnoc(s, acts, Reattempt(Opened));
    acts := acts + [Reattempt(Opened)];
    t := t.(worker := t.worker.(phase := WorkerPhase.Draining, encoder := Some(Encoder(0, bps)), force := true));
    assert Run(s, acts) == t;
    RunSnoc(s, acts, DrainEnd);
    acts := acts + [DrainEnd];
  }

  /** A run in which the second attempt, not the first, reopens the pipeline ends the session. */
  lemma FailedReopenEndsSession(bps: nat)
    ensures exists acts :: Run(Init(bps, false), acts).bridge.phase == Closed(Refused(Discontinuity))
  {
    hide Run;
    var s := Init(bps, false);
    var acts := ReachAfterReopening(bps);
    var sent := acts + [EncodeAndSend(false, true)];
    RunSnoc(s, acts, EncodeAndSend(false, true));
    RunSnoc(s, sent, ReceiveUnit(true));
    assert Run(s, sent).toBridge == [AccessUnit(1, true)];
    assert Run(s, sent + [ReceiveUnit(true)]).bridge.phase == Closed(Refused(Discontinuity));
  }

  // ----- requests for an IDR -----

  lemma HeldRequestStep(s: Session, a: Action)
    ensures var t := Step(s, a);
            && s.produced <= t.produced
            && (s.worker.force && |t.produced| == |s.produced| && t.worker.Alive() ==> t.worker.force)
            && (s.worker.force && |t.produced| > |s.produced| ==> t.produced[|s.produced|].idr)
            && (|t.produced| > |s.produced| ==> s.worker.Alive())
            && (t.worker.Alive() ==> s.worker.Alive())
  {}

  /** While the worker holds a request, the next unit it sends, whenever that is, is an IDR. */
  lemma {:induction false} HeldRequestIsHonoured(s: Session, acts: seq<Action>)
    requires s.worker.force
    ensures var t := Run(s, acts);
            && s.produced <= t.produced
            && (|t.produced| == |s.produced| && t.worker.Alive() ==> t.worker.force)
            && (|t.produced| > |s.produced| ==> t.produced[|s.produced|].idr)
  {
    if acts != [] {
      var n := |acts| - 1;
      HeldRequestIsHonoured(s, acts[..n]);
      HeldRequestStep(Run(s, acts[..n]), acts[n]);
    }
  }

  /** What is left of a request that entered the channel when p units had been sent. */
  ghost predicate RequestPending(s: Session, p: nat) {
    || (|s.produced| == p && (s.worker.force || Idr in s.toWorker || !s.worker.Alive()))
    || (|s.produced| == p + 1 &&
          (s.produced[p].idr || s.worker.force || !s.worker.Alive() ||
           (s.worker.phase.Awaiting? && s.toWorker != [] && s.toWorker[0] == Idr)))
    || (|s.produced| >= p + 2 && (s.produced[p].idr || s.produced[p + 1].idr))
  }

  lemma RequestPendingWorker(s: Session, a: Action, p: nat)
    requires InFlight(s) && Flow(s) && RequestPending(s, p) && OfWorker(a)
    ensures RequestPending(WorkerStep(s, a), p)
  {
    if a.AwaitOne? && s.worker.phase.Awaiting? && s.toWorker != [] && OneAck(s.toWorker, s.worker.phase.seqNo) {
      OneAckSplit(s.toWorker, s.worker.phase.seqNo);
    }
    if s.toWorker != [] {
      assert s.toWorker == [s.toWorker[0]] + s.toWorker[1..];
    }
  }

  lemma RequestPendingBridge(s: Session, a: Action, p: nat)
    requires RequestPending(s, p) && !OfWorker(a)
    ensures RequestPending(BridgeStep(s, a), p)
  {
    assert s.toWorker <= BridgeStep(s, a).toWorker;
  }

  /**
   A request the bridge has sent, in any reachable state, makes one of the next two units an IDR: at
   most the one already being prepared goes out without it.
   */
  lemma {:induction false} SentRequestIsHonoured(s: Session, acts: seq<Action>)
    requires Inv(s) && Idr in s.toWorker
    ensures RequestPending(Run(s, acts), |s.produced|)
    ensures var t := Run(s, acts); var p := |s.produced|;
            |t.produced| >= p + 2 ==> t.produced[p].idr || t.produced[p + 1].idr
  {
    if acts != [] {
      var n := |acts| - 1;
      SentRequestIsHonoured(s, acts[..n]);
      RunKeepsInv(s, acts[..n]);
      var t := Run(s, acts[..n]);
      if OfWorker(acts[n]) {
        RequestPendingWorker(t, acts[n], |s.produced|);
      } else {
        RequestPendingBridge(t, acts[n], |s.produced|);
      }
    }
  }

  // ----- nothing is dropped without cause -----

  /** Nothing has been dropped, nor is about to be. */
  ghost predicate NoDrop(s: Session) {
    && (forall i :: 0 <= i < |s.fates| ==> s.fates[i].fate.Raised?)
    && s.bridge.dropped == 0 && !s.bridge.awaitIdr
    && (s.bridge.phase.Settling? ==> s.bridge.phase.fate.Raised?)
  }

  lemma NoDropKept(s: Session, a: Action)
    requires NoDrop(s) && (a.ReceiveUnit? ==> a.recent) && !a.RaiseTimesOut?
    ensures NoDrop(Step(s, a))
  {
    if OfWorker(a) {
      assert WorkerStep(s, a).bridge == s.bridge && WorkerStep(s, a).fates == s.fates;
    }
  }

  /**
   A run in which every unit arrives in time and no wait for the sender runs out drops nothing: all that is
   settled has been queued, in the order it was produced.
   */
  lemma {:induction false} NoNeedlessDrop(bps: nat, placeholder: bool, acts: seq<Action>)
    requires forall a | a in acts :: (a.ReceiveUnit? ==> a.recent) && !a.RaiseTimesOut?
    ensures var s := Run(Init(bps, placeholder), acts);
            && NoDrop(s) && |Delivered(s.fates)| == |s.fates| && |s.fates| <= |s.produced|
            && forall i :: 0 <= i < |s.fates| ==> Delivered(s.fates)[i] == s.produced[i]
  {
    ReachableInv(bps, placeholder, acts);
    var s := Run(Init(bps, placeholder), acts);
    if acts != [] {
      NoNeedlessDrop(bps, placeholder, acts[..|acts| - 1]);
      NoDropKept(Run(Init(bps, placeholder), acts[..|acts| - 1]), acts[|acts| - 1]);
    }
    hide Run, Step;
    AllDelivered(s.fates);
  }

  lemma {:induction false} AllDelivered(fates: seq<Settled>)
    requires forall i :: 0 <= i < |fates| ==> fates[i].fate.Raised?
    ensures |Delivered(fates)| == |fates| && forall i :: 0 <= i < |fates| ==> Delivered(fates)[i] == fates[i].au
  {
    if fates != [] {
      AllDelivered(fates[..|fates| - 1]);
    }
  }
}
