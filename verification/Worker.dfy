/**
 The control loop of the capture worker (src/worker_main.cpp): which controls it takes and when,
 how it waits for the one acknowledgement, how it forces an IDR, and how it reopens its pipeline.
 MPP, V4L2 and clocks appear only as the outcomes they can have.
 */
module Worker {
  import opened Common

  /** A message from the bridge; Other stands for every kind the worker does not expect. */
  datatype Control = Ack(seqNo: nat) | Idr | Bitrate(bps: nat) | Stop | Other

  /** What the session protocol needs to know of an encoded access unit. */
  datatype AccessUnit = AccessUnit(seqNo: nat, idr: bool)

  /** An open encoder: the last sequence number it gave out and its current bit rate. */
  datatype Encoder = Encoder(seqNo: nat, bps: nat)

  datatype ExitReason =
    | Stopped | AckMismatch | UnexpectedControl | BitrateRefused
    | EncodeFailed | ModeChanged | WindowExceeded | Failed

  /** Where the loop stands between two blocking calls. */
  datatype WorkerPhase =
    | Draining                // taking queued controls before the next raw frame
    | Capturing               // about to take a raw frame with a live encoder
    | Reopening               // the encoder is gone; about to retry
    | Awaiting(seqNo: nat)    // one access unit sent, waiting for its acknowledgement
    | Checking                // acknowledged; the periodic source check
    | Exited(reason: ExitReason)

  datatype WorkerState = WorkerState(
    phase: WorkerPhase, encoder: Option<Encoder>, force: bool, recovering: bool, pending: nat,
    testIdrSent: bool, negotiated: nat, placeholder: bool)
  {
    predicate Alive() { !phase.Exited? }
  }

  /** How one attempt to reopen the pipeline can end. */
  datatype Reopen = Expired | Interrupted | NewMode | NotReopened | Opened

  const MIN_BITRATE: nat := 1_000_000

  function Start(bps: nat, placeholder: bool): WorkerState {
    WorkerState(Draining, Some(Encoder(0, bps)), true, false, 0, false, bps, placeholder)
  }

  function SequenceOf(w: WorkerState): nat {
    if w.encoder.Some? then w.encoder.value.seqNo else 0
  }

  /** Live rate changes may only go down, and stay within the accepted configurations. */
  predicate RateAccepted(e: Encoder, bps: nat) {
    MIN_BITRATE <= bps <= e.bps
  }

  function SetBitrate(w: WorkerState, bps: nat): WorkerState {
    match w.encoder
    case None => w.(pending := bps, force := true)
    case Some(e) =>
      if RateAccepted(e, bps) then w.(encoder := Some(e.(bps := bps)), pending := 0, force := true)
      else w.(pending := bps, phase := Exited(BitrateRefused))
  }

  /** One control taken at the top of the loop. */
  function Drain(w: WorkerState, c: Control): WorkerState {
    match c
    case Stop => w.(phase := Exited(Stopped))
    case Idr => w.(force := true)
    case Bitrate(bps) => SetBitrate(w, bps)
    case Ack(_) => w.(phase := Exited(UnexpectedControl))
    case Other => w.(phase := Exited(UnexpectedControl))
  }

  /** One control taken while waiting for the acknowledgement of seqNo. */
  function Wait(w: WorkerState, seqNo: nat, c: Control): WorkerState {
    match c
    case Ack(n) => w.(phase := if n == seqNo then Checking else Exited(AckMismatch))
    case Idr => w.(force := true)
    case Bitrate(bps) => SetBitrate(w, bps)
    case Stop => w.(phase := Exited(Stopped))
    case Other => w.(phase := Exited(UnexpectedControl))
  }

  function OnControl(w: WorkerState, c: Control): WorkerState {
    match w.phase
    case Draining => Drain(w, c)
    case Awaiting(n) => Wait(w, n, c)
    case _ => w
  }

  function OnControls(w: WorkerState, cs: seq<Control>): WorkerState {
    if cs == [] then w else OnControl(OnControls(w, cs[..|cs| - 1]), cs[|cs| - 1])
  }

  function DrainDone(w: WorkerState): WorkerState {
    w.(phase := if w.encoder.None? then Reopening else Capturing)
  }

  /**
   Tear down encoder then capture and reopen once. The sequence number to continue from is read
   from the encoder being torn down, and is 0 when an earlier attempt already removed it.
   */
  function Recover(w: WorkerState, o: Reopen): WorkerState {
    match o
    case Expired => if w.recovering then w.(phase := Exited(WindowExceeded)) else w
    case Interrupted => w.(encoder := None, recovering := true, phase := Exited(Stopped))
    case NewMode => w.(encoder := None, recovering := true, phase := Exited(ModeChanged))
    case NotReopened => w.(encoder := None, recovering := true, phase := Draining)
    case Opened =>
      var open := w.(encoder := Some(Encoder(SequenceOf(w), w.negotiated)), recovering := true,
                     force := true, phase := Draining);
      if open.pending != 0 then SetBitrate(open, open.pending) else open
  }

  /** The one-off test request raised once the session has run long enough. */
  function WithTestIdr(w: WorkerState, due: bool): WorkerState {
    if due && !w.testIdrSent && !w.placeholder then w.(force := true, testIdrSent := true) else w
  }

  /**
   Encode the captured frame. A forced unit that did not come out as an IDR is refused by
   validate_au inside Encoder::encode; otherwise the unit takes the next sequence number.
   */
  function Encode(w: WorkerState, idr: bool): (WorkerState, Option<AccessUnit>)
    requires w.encoder.Some?
  {
    var e := w.encoder.value;
    if w.force && !idr then (w.(phase := Exited(EncodeFailed)), None)
    else
      var n := e.seqNo + 1;
      (w.(encoder := Some(e.(seqNo := n)), force := false, recovering := false, phase := Awaiting(n)),
       Some(AccessUnit(n, idr)))
  }

  /** The test request makes the first unit after it an IDR, and is raised once. */
  lemma TestIdrOnce(w: WorkerState, due: bool, idr: bool)
    requires w.encoder.Some? && !w.placeholder
    ensures var (v, unit) := Encode(WithTestIdr(w, due), idr);
            && (due && !w.testIdrSent && unit.Some? ==> idr)
            && (v.testIdrSent <==> w.testIdrSent || due)
            && (w.testIdrSent ==> (v, unit) == Encode(w, idr))
  {
  }

  lemma NoControls(w: WorkerState, cs: seq<Control>)
    ensures OnControls(w, cs[..0]) == w
  {
  }

  lemma OnControlsSnoc(w: WorkerState, cs: seq<Control>, c: Control)
    ensures OnControls(w, cs + [c]) == OnControl(OnControls(w, cs), c)
  {
    assert (cs + [c])[..|cs|] == cs;
  }

  /** A request for an IDR survives every control, every failed or successful reopening. */
  lemma ForceSurvives(w: WorkerState, c: Control, o: Reopen)
    requires w.force
    ensures OnControl(w, c).force && Recover(w, o).force && DrainDone(w).force
  {}

  // ----- the bit rate -----

  /** The worker still takes controls. */
  predicate Receiving(w: WorkerState) {
    w.phase.Draining? || w.phase.Awaiting?
  }

  /** The last rate asked for, or the one before. */
  function LastAsked(cs: seq<Control>, before: nat): nat {
    if cs == [] then before
    else if cs[|cs| - 1].Bitrate? then cs[|cs| - 1].bps
    else LastAsked(cs[..|cs| - 1], before)
  }

  /** Some control asks for an IDR, of itself or because it changes the rate. */
  predicate AsksIdr(cs: seq<Control>) {
    cs != [] && (AsksIdr(cs[..|cs| - 1]) || cs[|cs| - 1].Idr? || cs[|cs| - 1].Bitrate?)
  }

  /** w has become v by these controls. */
  predicate RateMoved(w: WorkerState, cs: seq<Control>, v: WorkerState) {
    && SequenceOf(v) == SequenceOf(w) && v.encoder.Some? == w.encoder.Some?
    && (if w.encoder.Some? then v.encoder.value.bps == LastAsked(cs, w.encoder.value.bps) && v.pending == 0
        else v.pending == LastAsked(cs, w.pending))
    && (v.force <==> w.force || AsksIdr(cs))
  }

  lemma OneControlMoves(w: WorkerState, cs: seq<Control>, v: WorkerState, c: Control)
    requires RateMoved(w, cs, v) && Receiving(OnControl(v, c))
    ensures RateMoved(w, cs + [c], OnControl(v, c)) && Receiving(v)
  {
    assert (cs + [c])[..|cs|] == cs;
  }

  /**
   While the pipeline is open the encoder runs at the last rate asked for; while it is down that rate is kept for
   later. An IDR is owed exactly if it was before or has been asked for, of itself or by a change of rate.
   */
  lemma {:induction false} LastRateHolds(w: WorkerState, cs: seq<Control>)
    requires w.encoder.Some? ==> w.pending == 0
    requires Receiving(OnControls(w, cs))
    ensures RateMoved(w, cs, OnControls(w, cs))
  {
    hide OnControl, RateMoved;
    if cs == [] {
      assert RateMoved(w, [], w) by {
        NothingMoves(w);
      }
    } else {
      var front, c := cs[..|cs| - 1], cs[|cs| - 1];
      assert Receiving(OnControls(w, front)) by {
        StillReceiving(OnControls(w, front), c);
      }
      LastRateHolds(w, front);
      OneControlMoves(w, front, OnControls(w, front), c);
      assert front + [c] == cs;
    }
  }

  lemma StillReceiving(w: WorkerState, c: Control)
    requires Receiving(OnControl(w, c))
    ensures Receiving(w)
  {
  }

  lemma NothingMoves(w: WorkerState)
    requires w.encoder.Some? ==> w.pending == 0
    ensures RateMoved(w, [], w)
  {
  }

  /** What each control may end, and how: a stop always, an acknowledgement only if it is not the awaited one. */
  lemma ControlsEnd(w: WorkerState, c: Control)
    requires Receiving(w)
    ensures var v := OnControl(w, c);
            match c
            case Stop => v.phase == Exited(Stopped)
            case Other => v.phase == Exited(UnexpectedControl)
            case Idr => v == w.(force := true)
            case Bitrate(_) => v.phase == w.phase || v.phase == Exited(BitrateRefused)
            case Ack(n) =>
              v == w.(phase := if w.phase.Draining? then Exited(UnexpectedControl)
                               else if w.phase == Awaiting(n) then Checking
                               else Exited(AckMismatch))
  {
  }

  /** A rate that would raise the current one, or is too low, ends the worker; while the pipeline is down none does. */
  lemma RefusedRate(w: WorkerState, bps: nat)
    requires Receiving(w)
    ensures OnControl(w, Bitrate(bps)).phase.Exited? <==>
            w.encoder.Some? && !(1_000_000 <= bps <= w.encoder.value.bps)
  {
  }

  /**
   A reopened pipeline continues the number, owes an IDR, and runs at the rate asked for while it was down, if any;
   otherwise at the negotiated one. So a rate changed on an open pipeline outlives its recovery exactly if it is
   still the negotiated one.
   */
  lemma RateAfterReopening(w: WorkerState)
    requires w.Alive()
    ensures var r := Recover(w, Opened);
            && (r.Alive() <==> w.pending == 0 || 1_000_000 <= w.pending <= w.negotiated)
            && (r.Alive() ==>
                  && r.force && r.pending == 0
                  && r.encoder == Some(Encoder(SequenceOf(w), if w.pending != 0 then w.pending else w.negotiated)))
            && (w.encoder.Some? && w.pending == 0 ==>
                  (r.encoder.value.bps == w.encoder.value.bps <==> w.encoder.value.bps == w.negotiated))
  {
  }

  /** Whether a blocking receive loop ended by an acknowledgement, a stop, or a throw. */
  datatype Verdict = Proceed | Leave | Thrown(reason: ExitReason)

  /** The phase a receive loop leaves behind, given how it ended and where it started. */
  function EndPhase(end: Option<Verdict>, start: WorkerPhase): WorkerPhase {
    match end
    case None => start
    case Some(Proceed) => Checking
    case Some(Leave) => Exited(Stopped)
    case Some(Thrown(r)) => Exited(r)
  }

  /** The worker as the program keeps it: variables captured by the closures of main. */
  class WorkerLoop {
    var encoder: Option<Encoder>
    var force: bool
    var recovering: bool
    var pending: nat
    var testIdrSent: bool
    const negotiated: nat
    const placeholder: bool

    ghost function View(phase: WorkerPhase): WorkerState
      reads this
    {
      WorkerState(phase, encoder, force, recovering, pending, testIdrSent, negotiated, placeholder)
    }

    constructor (bps: nat, placeholder: bool)
      ensures View(Draining) == Start(bps, placeholder)
    {
      encoder := Some(Encoder(0, bps));
      force, recovering, pending, testIdrSent := true, false, 0, false;
      negotiated, this.placeholder := bps, placeholder;
    }

    method ChangeBitrate(bps: nat) returns (ok: bool)
      modifies this
      ensures forall p: WorkerPhase ::
        SetBitrate(old(View(p)), bps) == View(if ok then p else Exited(BitrateRefused))
    {
      pending := bps;
      if encoder.Some? {
        if !(MIN_BITRATE <= bps <= encoder.value.bps) {
          return false;
        }
        encoder := Some(encoder.value.(bps := bps));
        pending := 0;
      }
      force := true;
      return true;
    }

    /** The switch inside await_ack. */
    method TakeWaiting(seqNo: nat, c: Control) returns (end: Option<Verdict>)
      modifies this
      ensures View(EndPhase(end, Awaiting(seqNo))) == Wait(old(View(Awaiting(seqNo))), seqNo, c)
      ensures end != Some(Thrown(Failed)) && (end == Some(Proceed) <==> c == Ack(seqNo))
    {
      match c {
        case Ack(n) => return Some(if n == seqNo then Proceed else Thrown(AckMismatch));
        case Idr =>
          force := true;
          return None;
        case Bitrate(bps) =>
          var ok := ChangeBitrate(bps);
          return if ok then None else Some(Thrown(BitrateRefused));
        case Stop => return Some(Leave);
        case Other => return Some(Thrown(UnexpectedControl));
      }
    }

    /** The controls that arrive while the unit seqNo is in flight, up to the one that ends the wait. */
    method AwaitAck(seqNo: nat, inbox: seq<Control>) returns (verdict: Verdict, used: nat)
      modifies this
      ensures used <= |inbox|
      ensures View(if verdict == Thrown(Failed) then Awaiting(seqNo) else EndPhase(Some(verdict), Awaiting(seqNo)))
           == OnControls(old(View(Awaiting(seqNo))), inbox[..used])
      ensures verdict == Thrown(Failed) ==> used == |inbox|
      ensures verdict.Proceed? ==> 0 < used && inbox[used - 1] == Ack(seqNo)
    {
      hide SetBitrate, OnControls;
      used := 0;
      ghost var first := View(Awaiting(seqNo));
      assert OnControls(first, inbox[..0]) == first by {
        NoControls(first, inbox);
      }
      while used < |inbox|
        invariant used <= |inbox|
        invariant View(Awaiting(seqNo)) == OnControls(first, inbox[..used])
      {
        ghost var before := inbox[..used];
        var end := TakeWaiting(seqNo, inbox[used]);
        OnControlsSnoc(first, before, inbox[used]);
        used := used + 1;
        assert inbox[..used] == before + [inbox[used - 1]];
        if end.Some? {
          return end.value, used;
        }
      }
      verdict := Thrown(Failed); // nothing more arrives: the credit deadline expires
    }

    /** The three branches of the drain at the top of the loop. */
    method TakeAtTop(c: Control) returns (end: Option<Verdict>)
      modifies this
      ensures View(EndPhase(end, Draining)) == Drain(old(View(Draining)), c)
      ensures end != Some(Proceed) && end != Some(Thrown(Failed))
    {
      if c.Stop? {
        return Some(Leave);
      } else if c.Idr? {
        force := true;
        return None;
      } else if c.Bitrate? {
        var ok := ChangeBitrate(c.bps);
        return if ok then None else Some(Thrown(BitrateRefused));
      }
      return Some(Thrown(UnexpectedControl));
    }

    /** The controls already queued before the next raw frame. */
    method DrainControls(inbox: seq<Control>) returns (verdict: Verdict, used: nat)
      modifies this
      ensures used <= |inbox| && (verdict.Proceed? ==> used == |inbox|)
      ensures View(if verdict.Proceed? then Draining else EndPhase(Some(verdict), Draining))
           == OnControls(old(View(Draining)), inbox[..used])
    {
      hide SetBitrate, OnControls;
      used := 0;
      ghost var first := View(Draining);
      assert OnControls(first, inbox[..0]) == first by {
        NoControls(first, inbox);
      }
      while used < |inbox|
        invariant used <= |inbox|
        invariant View(Draining) == OnControls(first, inbox[..used])
      {
        ghost var before := inbox[..used];
        var end := TakeAtTop(inbox[used]);
        OnControlsSnoc(first, before, inbox[used]);
        used := used + 1;
        assert inbox[..used] == before + [inbox[used - 1]];
        if end.Some? {
          return end.value, used;
        }
      }
      verdict := Proceed;
    }

    /** One captured frame, from the test-IDR check to the unit handed to send(). */
    method EncodeFrame(due: bool, idr: bool) returns (unit: Option<AccessUnit>)
      requires encoder.Some?
      modifies this
      ensures unit.Some? ==> unit.value == AccessUnit(old(encoder.value.seqNo) + 1, idr)
      ensures (View(if unit.Some? then Awaiting(unit.value.seqNo) else Exited(EncodeFailed)), unit)
           == Encode(WithTestIdr(old(View(Capturing)), due), idr)
    {
      if due && !testIdrSent && !placeholder {
        force, testIdrSent := true, true;
      }
      if force && !idr {
        return None;
      }
      encoder := Some(encoder.value.(seqNo := encoder.value.seqNo + 1));
      force, recovering := false, false;
      return Some(AccessUnit(encoder.value.seqNo, idr));
    }

    /** recover() followed by the statements its callers run when the encoder came back. */
    method RecoverPipeline(o: Reopen) returns (verdict: Verdict)
      requires o.Expired? ==> recovering
      modifies this
      ensures forall p: WorkerPhase :: (var r := Recover(old(View(p)), o);
        match verdict
        case Proceed => r == View(Draining)
        case Leave => r == View(Exited(Stopped))
        case Thrown(reason) => r == View(Exited(reason)))
    {
      if o.Expired? {
        return Thrown(WindowExceeded);
      }
      recovering := true;
      var last := if encoder.Some? then encoder.value.seqNo else 0;
      encoder := None;
      if o.Interrupted? {
        return Leave;
      } else if o.NewMode? {
        return Thrown(ModeChanged);
      } else if o.NotReopened? {
        return Proceed;
      }
      encoder := Some(Encoder(last, negotiated));
      force := true;
      if pending != 0 {
        ghost var open := View(Draining);
        var ok := ChangeBitrate(pending);
        if !ok {
          return Thrown(BitrateRefused);
        }
      }
      return Proceed;
    }
  }
}
