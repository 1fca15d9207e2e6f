/**
 Ownership of the V4L2 buffers (src/capture.cpp) and the order in which the worker uses, returns
 and destroys them (src/worker_main.cpp). The driver, the encoder and the worker pass each buffer
 around; ghost fields record who holds it, and preconditions state what may never happen.
 */
module Capture {
  import opened Common

  datatype CaptureError =
    | AlreadyStarted | BadCount | DriverCall | DoubleQbuf | BadIndex | Duplicate | BadPlane | NoFrame | Wake

  // ----- the drain loop, on values -----

  /** One DQBUF: nothing left, a failed call, or a buffer; qbufOk is the fate of the QBUF it may lead to. */
  datatype Reply = NoneLeft | Broken | Got(index: nat, inBounds: bool, damaged: bool, qbufOk: bool)

  datatype End = Going | Finished | Threw(error: CaptureError)

  /**
   flags: dequeued, per buffer; driver: the buffers queued to the driver; held: the frame to return; taken and
   skipped count DQBUFs and dropped frames.
   */
  datatype Drain = Drain(flags: seq<bool>, driver: set<nat>, held: Option<nat>, taken: nat, skipped: nat, end: End)

  /** release(i) inside the loop. */
  function GiveBack(d: Drain, i: nat, qbufOk: bool): Drain {
    if |d.flags| <= i then d.(end := Threw(BadIndex))
    else if !d.flags[i] then d.(end := Threw(DoubleQbuf))
    else if !qbufOk then d.(end := Threw(DriverCall))
    else d.(flags := d.flags[i := false], driver := d.driver + {i}, skipped := d.skipped + 1)
  }

  lemma GiveBackKeepsHeld(d: Drain, i: nat, qbufOk: bool)
    requires d.end.Going?
    ensures GiveBack(d, i, qbufOk).held == d.held && !GiveBack(d, i, qbufOk).end.Finished?
  {
  }

  function DrainOne(d: Drain, r: Reply): Drain {
    if !d.end.Going? then d
    else
      match r
      case NoneLeft => d.(end := Finished)
      case Broken => d.(end := Threw(DriverCall))
      case Got(i, inBounds, damaged, qbufOk) =>
        if |d.flags| <= i then d.(end := Threw(BadIndex))
        else if d.flags[i] then d.(end := Threw(Duplicate))
        else
          var got := d.(flags := d.flags[i := true], driver := d.driver - {i}, taken := d.taken + 1);
          if !inBounds then got.(end := Threw(BadPlane))
          else if damaged then GiveBack(got, i, qbufOk)
          else if got.held.Some? then
            var back := GiveBack(got, got.held.value, qbufOk);
            if back.end.Going? then back.(held := Some(i)) else back
          else got.(held := Some(i))
  }

  function DrainAll(d: Drain, rs: seq<Reply>): Drain {
    if rs == [] then d else DrainOne(DrainAll(d, rs[..|rs| - 1]), rs[|rs| - 1])
  }

  ghost predicate NoneOut(flags: seq<bool>) { forall i :: 0 <= i < |flags| ==> !flags[i] }

  /** Exactly the held frame is out, and every DQBUF is either that frame or counted as skipped. */
  ghost predicate Accounted(d: Drain) {
    && (d.held.Some? ==> d.held.value < |d.flags|)
    && (forall i :: 0 <= i < |d.flags| ==> (d.flags[i] <==> d.held == Some(i)))
    && d.taken == d.skipped + (if d.held.Some? then 1 else 0)
  }

  /** Nothing is out but the held frame and buffer j. */
  ghost predicate OnlyOut(d: Drain, j: nat) {
    && (d.held.Some? ==> d.held.value < |d.flags| && d.flags[d.held.value])
    && (forall i :: 0 <= i < |d.flags| && d.flags[i] ==> d.held == Some(i) || i == j)
  }

  /** Every buffer is either out or the driver's, and never both. */
  ghost predicate Divided(d: Drain) {
    forall i: nat :: i in d.driver <==> i < |d.flags| && !d.flags[i]
  }

  /** After a throw at most one buffer beyond the held one is out. A buffer is never queued twice or lost. */
  ghost predicate DrainInv(d: Drain) {
    && Divided(d)
    && if d.end.Threw? then d.end.error != DoubleQbuf && exists j :: OnlyOut(d, j) else Accounted(d)
  }

  lemma DividedKept(d: Drain, r: Reply)
    requires DrainInv(d)
    ensures Divided(DrainOne(d, r))
  {
    hide OnlyOut;
  }

  /** A buffer is reported as a duplicate exactly when the driver hands out one it does not own. */
  lemma DrainOneKeeps(d: Drain, r: Reply)
    requires DrainInv(d)
    ensures DrainInv(DrainOne(d, r)) && |DrainOne(d, r).flags| == |d.flags|
    ensures d.end.Going? && r.Got? && r.index < |d.flags| ==>
              (r.index !in d.driver <==> DrainOne(d, r).end == Threw(Duplicate))
  {
    DividedKept(d, r);
    if d.end.Going? {
      assert r.Got? && r.index < |d.flags| ==> (r.index in d.driver <==> !d.flags[r.index]);
      hide Divided;
      assert OnlyOut(DrainOne(d, r), if r.Got? then r.index else 0);
    }
  }

  function StartDrain(flags: seq<bool>, driver: set<nat>): Drain {
    Drain(flags, driver, None, 0, 0, Going)
  }

  /**
   Started with nothing out, draining never queues a buffer twice and never loses one, whatever the driver
   answers: what is not out is the driver's. If it ends well exactly the frame it holds is out.
   */
  lemma {:induction false} DrainKeeps(flags: seq<bool>, driver: set<nat>, rs: seq<Reply>)
    requires NoneOut(flags) && Divided(StartDrain(flags, driver))
    ensures var d := DrainAll(StartDrain(flags, driver), rs);
            && DrainInv(d) && |d.flags| == |flags| && d.end != Threw(DoubleQbuf)
            && (forall i: nat :: i in d.driver <==> i < |flags| && !d.flags[i])
            && (!d.end.Threw? ==> d.taken == d.skipped + (if d.held.Some? then 1 else 0))
            && (!d.end.Threw? ==> forall i :: 0 <= i < |flags| ==> (d.flags[i] <==> d.held == Some(i)))
  {
    if rs != [] {
      DrainKeeps(flags, driver, rs[..|rs| - 1]);
      DrainOneKeeps(DrainAll(StartDrain(flags, driver), rs[..|rs| - 1]), rs[|rs| - 1]);
    }
  }

  /** Once the loop has ended, further replies change nothing. */
  lemma {:induction false} DrainStops(d: Drain, rs: seq<Reply>, k: nat)
    requires k <= |rs| && (k == |rs| || !DrainAll(d, rs[..k]).end.Going?)
    ensures DrainAll(d, rs) == DrainAll(d, rs[..k])
    decreases |rs|
  {
    if k == |rs| {
      assert rs[..k] == rs;
    } else {
      var most := rs[..|rs| - 1];
      assert most[..k] == rs[..k];
      DrainStops(d, most, k);
    }
  }

  // ----- which frame is returned -----

  /** A DQBUF that gives a frame worth returning. */
  predicate Usable(r: Reply) {
    r.Got? && r.inBounds && !r.damaged
  }

  /** The buffer of the last usable reply. */
  function Newest(rs: seq<Reply>): Option<nat> {
    if rs == [] then None
    else if Usable(rs[|rs| - 1]) then Some(rs[|rs| - 1].index)
    else Newest(rs[..|rs| - 1])
  }

  /** The replies of the driver up to the first that says there is nothing left. */
  function Heard(rs: seq<Reply>): seq<Reply> {
    if rs == [] || rs[0].NoneLeft? then [] else [rs[0]] + Heard(rs[1..])
  }

  /**
   Reply k is a buffer with sound bounds other than the newest so far, and the QBUF it leads to, of itself if
   damaged or else of the newest so far, if any, succeeds.
   */
  predicate Honest(rs: seq<Reply>, n: nat, k: nat)
    requires k < |rs|
  {
    && rs[k].Got? && rs[k].index < n && rs[k].inBounds && Newest(rs[..k]) != Some(rs[k].index)
    && (rs[k].damaged || Newest(rs[..k]).Some? ==> rs[k].qbufOk)
  }

  ghost predicate AllHonest(rs: seq<Reply>, n: nat) {
    forall k: nat :: k < |rs| ==> Honest(rs, n, k)
  }

  lemma AllHonestSnoc(rs: seq<Reply>, n: nat)
    requires rs != []
    ensures AllHonest(rs, n) <==> AllHonest(rs[..|rs| - 1], n) && Honest(rs, n, |rs| - 1)
  {
    var front := rs[..|rs| - 1];
    forall k: nat | k < |front|
      ensures Honest(rs, n, k) <==> Honest(front, n, k)
    {
      assert rs[..k] == front[..k];
    }
    hide Honest;
  }

  /** One DQBUF of a drain that is going on. */
  lemma OneHeard(d: Drain, r: Reply)
    requires DrainInv(d) && d.end.Going? && !r.NoneLeft?
    ensures var after := DrainOne(d, r);
            && (after.end.Going? <==>
                  && r.Got? && r.index < |d.flags| && r.inBounds && d.held != Some(r.index)
                  && (r.damaged || d.held.Some? ==> r.qbufOk))
            && (after.end.Going? ==>
                  after.held == (if r.damaged then d.held else Some(r.index)) && after.taken == d.taken + 1)
            && !after.end.Finished?
  {
    hide Divided;
  }

  /**
   While the driver has something to give, the drain goes on exactly as long as every reply is honest, and holds
   the newest usable frame.
   */
  lemma {:induction false} DrainHoldsNewest(flags: seq<bool>, driver: set<nat>, rs: seq<Reply>)
    requires NoneOut(flags) && Divided(StartDrain(flags, driver))
    requires forall r | r in rs :: !r.NoneLeft?
    ensures var d := DrainAll(StartDrain(flags, driver), rs);
            && !d.end.Finished? && (d.end.Going? <==> AllHonest(rs, |flags|))
            && (d.end.Going? ==> d.held == Newest(rs) && d.taken == |rs|)
  {
    if rs != [] {
      var front, last := rs[..|rs| - 1], rs[|rs| - 1];
      DrainHoldsNewest(flags, driver, front);
      DrainKeeps(flags, driver, front);
      AllHonestSnoc(rs, |flags|);
      var d := DrainAll(StartDrain(flags, driver), front);
      assert last in rs;
      if d.end.Going? {
        OneHeard(d, last);
      }
      hide DrainOne, DrainInv, AllHonest, Divided;
    }
  }

  lemma {:induction false} HeardIsPrefix(rs: seq<Reply>)
    ensures |Heard(rs)| <= |rs| && Heard(rs) == rs[..|Heard(rs)|]
    ensures forall r | r in Heard(rs) :: !r.NoneLeft?
    ensures |Heard(rs)| < |rs| ==> rs[|Heard(rs)|].NoneLeft?
  {
    if rs != [] && !rs[0].NoneLeft? {
      HeardIsPrefix(rs[1..]);
    }
  }

  /** The drain as a whole: what it makes of the replies it hears. */
  lemma DrainIsNewest(flags: seq<bool>, driver: set<nat>, rs: seq<Reply>)
    requires NoneOut(flags) && Divided(StartDrain(flags, driver))
    ensures var d := DrainAll(StartDrain(flags, driver), rs);
            && (d.end.Threw? <==> !AllHonest(Heard(rs), |flags|))
            && (!d.end.Threw? ==> d.held == Newest(Heard(rs)) && d.taken == |Heard(rs)|)
  {
    var heard, first := Heard(rs), StartDrain(flags, driver);
    HeardIsPrefix(rs);
    DrainHoldsNewest(flags, driver, heard);
    var d := DrainAll(first, heard);
    var k := |heard|;
    if d.end.Threw? || k == |rs| {
      DrainStops(first, rs, k);
    } else {
      assert rs[..k + 1][..k] == heard && rs[..k + 1][k].NoneLeft?;
      assert DrainAll(first, rs[..k + 1]) == d.(end := Finished);
      DrainStops(first, rs, k + 1);
    }
  }

  // ----- the device -----

  /** How preparing one buffer ends: QUERYBUF or mmap failed, or the mapping is short; QBUF failed; queued. */
  datatype Setup = Unmapped | NotQueued | Fine

  /** How poll() ends: a frame is ready, it timed out or failed, or the source changed. */
  datatype Poll = Ready | TimedOut | Failed | Changed

  class Device {
    var dequeued: seq<bool>
    var streaming: bool
    var rawSkipped: nat
    ghost var driver: set<nat>         // buffers queued to the driver
    ghost var reader: Option<nat>      // the buffer the encoder is reading
    ghost var importers: nat           // encoders that map these buffers
    ghost var closed: bool             // STREAMOFF and munmap have happened

    /** No buffer is both the driver's and the encoder's; while streaming none is lost between them. */
    ghost predicate Valid()
      reads this
    {
      && (forall i :: i in driver ==> i < |dequeued| && !dequeued[i])
      && (streaming ==> forall i :: 0 <= i < |dequeued| ==> dequeued[i] || i in driver)
      && (reader.Some? ==> reader.value < |dequeued| && dequeued[reader.value])
      && (reader.Some? ==> importers > 0)
      && (closed ==> importers == 0 && driver == {})
    }

    /** Nothing is out and the encoder reads nothing. */
    ghost predicate Quiet()
      reads this
    {
      Valid() && streaming && !closed && reader.None? && NoneOut(dequeued)
    }

    constructor ()
      ensures Valid() && !streaming && dequeued == [] && importers == 0 && !closed && reader == None && rawSkipped == 0
    {
      dequeued, streaming, rawSkipped := [], false, 0;
      driver, reader, importers, closed := {}, None, 0, false;
    }

    /** release(index): QBUF. Forbidden while the encoder may still read the buffer. */
    method Release(i: nat, qbufOk: bool) returns (r: Result<(), CaptureError>)
      requires Valid() && !closed && reader != Some(i)
      modifies this`dequeued, this`driver
      ensures Valid()
      ensures r.Ok? <==> i < |old(dequeued)| && old(dequeued)[i] && qbufOk
      ensures dequeued == if r.Ok? then old(dequeued)[i := false] else old(dequeued)
      ensures driver == if r.Ok? then old(driver) + {i} else old(driver)
      ensures r == Err(DoubleQbuf) <==> i < |old(dequeued)| && !old(dequeued)[i]
      ensures r == Err(BadIndex) <==> |old(dequeued)| <= i
      ensures r == Err(DriverCall) <==> i < |old(dequeued)| && old(dequeued)[i] && !qbufOk
    {
      if |dequeued| <= i {
        return Err(BadIndex);
      }
      if !dequeued[i] {
        return Err(DoubleQbuf);
      }
      if !qbufOk {
        return Err(DriverCall);
      }
      dequeued := dequeued[i := false];
      driver := driver + {i};
      return Ok(());
    }

    /** start(): request, map and queue count buffers, then STREAMON; setups[i] is the fate of buffer i. */
    method Start(count: nat, setups: seq<Setup>, streamOnOk: bool) returns (r: Result<(), CaptureError>)
      requires Valid() && importers == 0 && !closed && count <= |setups|
      modifies this`dequeued, this`streaming, this`driver
      ensures Valid()
      ensures r.Ok? <==>
                && !old(streaming) && old(dequeued) == [] && 2 <= count <= 4 && streamOnOk
                && forall i :: 0 <= i < count ==> setups[i] == Fine
      ensures r.Ok? ==> Quiet() && |dequeued| == count && forall i :: 0 <= i < count ==> i in driver
      ensures old(dequeued) == [] ==> r != Err(DoubleQbuf)
    {
      if streaming || dequeued != [] {
        return Err(AlreadyStarted);
      }
      if count < 2 || 4 < count {
        return Err(BadCount);
      }
      dequeued := seq(count, _ => false);
      for i := 0 to count
        invariant |dequeued| == count && Valid() && !streaming && reader.None?
        invariant forall k :: k in driver <==> 0 <= k < i
        invariant NoneOut(dequeued)
        invariant forall k :: 0 <= k < i ==> setups[k] == Fine
      {
        if setups[i] == Unmapped {
          return Err(DriverCall);
        }
        dequeued := dequeued[i := true];
        var queued := Release(i, setups[i] == Fine);
        if queued.Err? {
          return queued;
        }
      }
      if !streamOnOk {
        return Err(DriverCall);
      }
      streaming := true;
      return Ok(());
    }

    /** The device shows where the drain stands; base is raw_skipped before it. */
    ghost predicate Shows(d: Drain, base: nat)
      reads this
    {
      dequeued == d.flags && driver == d.driver && rawSkipped == base + d.skipped
    }

    /** release() and ++raw_skipped, inside the loop. */
    method Skip(i: nat, qbufOk: bool, ghost d: Drain, ghost base: nat) returns (end: End)
      requires Valid() && streaming && !closed && reader.None? && Shows(d, base) && d.end.Going?
      modifies this`dequeued, this`rawSkipped, this`driver
      ensures Valid() && Shows(GiveBack(d, i, qbufOk), base) && GiveBack(d, i, qbufOk).end == end
    {
      var released := Release(i, qbufOk);
      if released.Err? {
        return Threw(released.error);
      }
      rawSkipped := rawSkipped + 1;
      return Going;
    }

    /** One round of the loop in latest(). */
    method DrainTurn(held: Option<nat>, r: Reply, ghost d: Drain, ghost base: nat)
      returns (now: Option<nat>, end: End, ghost next: Drain)
      requires Valid() && streaming && !closed && reader.None?
      requires Shows(d, base) && d.held == held && d.end.Going? && DrainInv(d)
      modifies this`dequeued, this`rawSkipped, this`driver
      ensures Valid() && next == DrainOne(d, r) && Shows(next, base) && next.held == now && next.end == end
    {
      next := DrainOne(d, r);
      now, end := held, Going;
      if r.NoneLeft? {
        end := Finished;
        return;
      }
      if r.Broken? {
        end := Threw(DriverCall);
        return;
      }
      if |dequeued| <= r.index {
        end := Threw(BadIndex);
        return;
      }
      if dequeued[r.index] {
        end := Threw(Duplicate);
        return;
      }
      dequeued, driver := dequeued[r.index := true], driver - {r.index};
      if !r.inBounds {
        end := Threw(BadPlane);
        return;
      }
      ghost var got := d.(flags := dequeued, driver := driver, taken := d.taken + 1);
      hide GiveBack;
      if r.damaged {
        end := Skip(r.index, r.qbufOk, got, base);
        assert next == GiveBack(got, r.index, r.qbufOk);
        GiveBackKeepsHeld(got, r.index, r.qbufOk);
        return;
      }
      if held.Some? {
        end := Skip(held.value, r.qbufOk, got, base);
        GiveBackKeepsHeld(got, held.value, r.qbufOk);
        if end.Threw? {
          return;
        }
      }
      now := Some(r.index);
    }

    /**
     latest(): the newest frame, at most one DQBUF per buffer, because QBUF may free new frames meanwhile.
     Its QBUFs are calls of Release.
     */
    method Latest(poll: Poll, replies: seq<Reply>) returns (r: Result<nat, CaptureError>)
      requires Quiet() && |dequeued| <= |replies|
      modifies this`dequeued, this`rawSkipped, this`driver
      ensures Valid() && |dequeued| == |old(dequeued)| && r != Err(DoubleQbuf)
      ensures r.Ok? ==> r.value < |dequeued|
      ensures r.Ok? ==> forall i :: 0 <= i < |dequeued| ==> (dequeued[i] <==> i == r.value)
      ensures !poll.Ready? ==> r == Err(Wake) && dequeued == old(dequeued) && rawSkipped == old(rawSkipped)
      ensures poll.Ready? ==>
                var d := DrainAll(StartDrain(old(dequeued), old(driver)), replies[..|old(dequeued)|]);
                && Shows(d, old(rawSkipped))
                && r == (if d.end.Threw? then Err(d.end.error)
                         else if d.held.Some? then Ok(d.held.value)
                         else Err(NoFrame))
                && (r.Ok? ==> d.taken == 1 + (rawSkipped - old(rawSkipped)))
      ensures var heard := Heard(replies[..|old(dequeued)|]);
              && (r.Ok? <==> poll.Ready? && AllHonest(heard, |old(dequeued)|) && Newest(heard).Some?)
              && (r.Ok? ==> Newest(heard) == Some(r.value) && rawSkipped == old(rawSkipped) + |heard| - 1)
    {
      hide DrainOne, Heard, AllHonest, Newest, DrainAll;
      if !poll.Ready? {
        return Err(Wake);
      }
      var held, end;
      ghost var d;
      held, end, d := DrainLoop(replies);
      DrainIsNewest(old(dequeued), old(driver), replies[..|old(dequeued)|]);
      DrainKeeps(old(dequeued), old(driver), replies[..|old(dequeued)|]);
      if end.Threw? {
        return Err(end.error);
      }
      if held.None? {
        return Err(NoFrame);
      }
      return Ok(held.value);
    }

    /** The loop of latest(). */
    method DrainLoop(replies: seq<Reply>) returns (held: Option<nat>, end: End, ghost d: Drain)
      requires Quiet() && |dequeued| <= |replies|
      modifies this`dequeued, this`rawSkipped, this`driver
      ensures Valid() && d == DrainAll(StartDrain(old(dequeued), old(driver)), replies[..|old(dequeued)|])
      ensures Shows(d, old(rawSkipped)) && d.held == held && d.end == end && DrainInv(d)
    {
      hide DrainOne;
      ghost var first := StartDrain(dequeued, driver);
      d := first;
      var n := |dequeued|;
      held, end := None, Going;
      var attempt := 0;
      while attempt < n && end.Going?
        invariant 0 <= attempt <= n == |dequeued|
        invariant d == DrainAll(first, replies[..attempt]) && DrainInv(d)
        invariant Valid() && Shows(d, old(rawSkipped)) && d.held == held && d.end == end
        decreases n - attempt
      {
        assert replies[..attempt + 1][..attempt] == replies[..attempt];
        DrainOneKeeps(d, replies[attempt]);
        held, end, d := DrainTurn(held, replies[attempt], d, old(rawSkipped));
        attempt := attempt + 1;
      }
      assert replies[..n][..attempt] == replies[..attempt];
      DrainStops(first, replies[..n], attempt);
    }

    /** The destructor. Forbidden while an encoder still maps the buffers. */
    method Close()
      requires Valid() && importers == 0
      modifies this`streaming, this`driver, this`closed
      ensures Valid() && closed && !streaming
    {
      streaming := false;
      driver := {};
      closed := true;
    }
  }

  // ----- the worker's pipeline -----

  /** How one open_pipeline() goes: the device, its mode, its buffers, the encoder, continue_sequence. */
  datatype Opening = Opening(found: bool, sameMode: bool, count: nat, setups: seq<Setup>, streamOnOk: bool,
                             encoderOk: bool, continued: bool)

  datatype OpenResult = Opened | ModeMoved | OpenFailed

  /** What one round of the main loop meets; unchangedOk is the answer of the once-a-second check, if due. */
  datatype Round = Round(poll: Poll, replies: seq<Reply>, encodeOk: bool, qbufOk: bool, acked: bool,
                         unchangedOk: bool, windowOpen: bool, stopping: bool, opening: Opening)

  /** The capture and encoder pointers of the worker's run. */
  class Pipeline {
    var capture: Device?
    var encoder: bool                  // an encoder exists; it maps capture's buffers
    ghost var past: set<Device>        // every device ever opened

    /** Whatever is not the current device is closed; an encoder has live buffers and reads none of them now. */
    ghost predicate Valid()
      reads this, past
    {
      && (forall d :: d in past && d != capture ==> d.closed && d.importers == 0)
      && (capture != null ==> capture in past && capture.Quiet())
      && (capture == null <==> !encoder)
      && (capture != null ==> capture.importers == 1 && |capture.dequeued| <= 4)
    }

    ghost predicate Down()
      reads this, past
    {
      Valid() && capture == null
    }

    constructor ()
      ensures Down() && past == {}
    {
      capture, encoder, past := null, false, {};
    }

    /** encoder.reset() then capture.reset(), also the unwinding order of every exit. */
    method Teardown()
      requires forall d :: d in past && d != capture ==> d.closed && d.importers == 0
      requires capture != null ==> capture in past && capture.Valid() && capture.importers == (if encoder then 1 else 0)
      requires capture == null ==> !encoder
      modifies this`capture, this`encoder, past
      ensures Down() && past == old(past)
    {
      if capture != null {
        if encoder {
          capture.importers, capture.reader := 0, None;
        }
        encoder := false;
        capture.Close();
      }
      encoder, capture := false, null;
    }

    /** open_pipeline(): on any failure the objects made so far die, the encoder before its buffers. */
    method OpenPipeline(o: Opening) returns (r: OpenResult)
      requires Down() && o.count <= |o.setups|
      modifies this
      ensures Valid() && old(past) <= past && fresh(past - old(past))
      ensures r.Opened? <==> capture != null
      ensures r.Opened? <==>
                && o.found && o.sameMode && 2 <= o.count <= 4 && o.streamOnOk && o.encoderOk
                && forall i :: 0 <= i < o.count ==> o.setups[i] == Fine
      ensures r.ModeMoved? <==> o.found && !o.sameMode
    {
      if !o.found {
        return OpenFailed;
      }
      var next := new Device();
      past := past + {next};
      if !o.sameMode {
        next.Close();
        return ModeMoved;
      }
      var started := next.Start(o.count, o.setups, o.streamOnOk);
      if started.Err? {
        next.Close();
        return OpenFailed;
      }
      next.importers := 1;
      if !o.encoderOk {
        next.importers := 0;
        next.Close();
        return OpenFailed;
      }
      capture, encoder := next, true;
      return Opened;
    }

    /** recover(): tear down, then reopen; true when the run goes on. */
    method Recover(windowOpen: bool, stopping: bool, o: Opening) returns (goesOn: bool)
      requires o.count <= |o.setups|
      requires forall d :: d in past && d != capture ==> d.closed && d.importers == 0
      requires capture != null ==> capture in past && capture.Valid() && capture.importers == (if encoder then 1 else 0)
      requires capture == null ==> !encoder
      modifies this, past
      ensures old(past) <= past && fresh(past - old(past))
      ensures goesOn ==> Valid()
      ensures !goesOn ==> Down() // the exception has unwound the run
      ensures goesOn <==> windowOpen && (stopping || !(o.found && !o.sameMode))
    {
      if !windowOpen {
        Teardown();
        return false;
      }
      Teardown();
      if stopping {
        return true;
      }
      var result := OpenPipeline(o);
      if result.ModeMoved? {
        return false;
      }
      if result.Opened? && !o.continued {
        Teardown();
      }
      return true;
    }

    /**
     One round of the main loop; false when the run ends, and then nothing is left open. fault is what
     latest() or release() threw.
     */
    method Iterate(round: Round) returns (goesOn: bool, ghost fault: Option<CaptureError>)
      requires Valid() && round.opening.count <= |round.opening.setups|
      requires 4 <= |round.replies|
      modifies this, past
      ensures old(past) <= past && fresh(past - old(past))
      ensures Valid() && (!goesOn ==> Down())
      ensures fault != Some(DoubleQbuf)
    {
      fault := None;
      if capture == null {
        goesOn := Recover(round.windowOpen, round.stopping, round.opening);
        return;
      }
      var raw := capture.Latest(round.poll, round.replies);
      if raw.Err? {
        fault := Some(raw.error);
        goesOn := Recover(round.windowOpen, round.stopping, round.opening);
        return;
      }
      capture.reader := Some(raw.value); // encode(): the buffer is the encoder's until it returns
      if !round.encodeOk {
        Teardown();
        goesOn := false;
        return;
      }
      capture.reader := None;
      var released := capture.Release(raw.value, round.qbufOk);
      if released.Err? {
        fault := Some(released.error);
      }
      if released.Err? || !round.acked {
        Teardown();
        goesOn := false;
        return;
      }
      if !round.unchangedOk {
        goesOn := Recover(round.windowOpen, round.stopping, round.opening);
        return;
      }
      goesOn := true;
    }

    /**
     The whole run. Every call it makes meets the preconditions above, so in every run, with any faults and
     recoveries, no buffer is queued while the encoder reads it and none is unmapped under an encoder. None is
     queued twice, and at the end every device ever opened is closed.
     */
    method Run(first: Opening, rounds: seq<Round>) returns (ghost faults: set<CaptureError>)
      requires Down() && first.count <= |first.setups|
      requires forall i :: 0 <= i < |rounds| ==> rounds[i].opening.count <= |rounds[i].opening.setups|
      requires forall i :: 0 <= i < |rounds| ==> 4 <= |rounds[i].replies|
      modifies this, past
      ensures Down() && old(past) <= past && fresh(past - old(past))
      ensures forall d :: d in past ==> d.closed && d.importers == 0
      ensures DoubleQbuf !in faults
    {
      faults := {};
      var result := OpenPipeline(first);
      var goesOn := result.Opened?;
      var i := 0;
      while i < |rounds| && goesOn
        invariant 0 <= i <= |rounds|
        invariant Valid() && (!goesOn ==> Down())
        invariant old(past) <= past && fresh(past - old(past)) && DoubleQbuf !in faults
      {
        ghost var fault;
        goesOn, fault := Iterate(rounds[i]);
        faults := faults + (if fault.Some? then {fault.value} else {});
        i := i + 1;
      }
      Teardown();
    }
  }
}
