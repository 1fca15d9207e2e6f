/**
 Acceptance of whole access units: validate_au and SequenceGate (src/annexb.cpp), and the encoder
 call that produces them (src/encoder_mpp.cpp) with MPP reduced to the packets it hands back.
 */
module AccessUnits {
  import opened Common
  import opened Wire
  import opened AnnexB
  import opened NalUnits
  import Bridge
  import Levels
  import Worker

  datatype AuError =
    | Metadata | Timestamps | Unparsable(e: NalError) | PictureMismatch | IdrExpected | MissingParameterSets
    | Discontinuity

  predicate FlaggedIdr(h: Header) { h.flags % 2 == FLAG_IDR }

  predicate MetadataOk(m: Message) {
    && m.h.kind == FRAME && m.h.size == |m.bytes| && m.h.seqNo != 0
    && 64 <= m.h.width <= 3840 && 64 <= m.h.height <= 2160 && m.h.width % 2 == 0 && m.h.height % 2 == 0
  }

  predicate TimesOk(h: Header) { h.dequeueUs <= h.submitUs <= h.doneUs }

  /** validate_au: the first objection, or none. */
  function Objection(m: Message, requireIdr: bool): Option<AuError> {
    if !MetadataOk(m) then Some(Metadata)
    else if !TimesOk(m.h) then Some(Timestamps)
    else
      match Inspection(m.h.codec, m.bytes)
      case Err(e) => Some(Unparsable(e))
      case Ok(n) =>
        if !n.vcl || n.pictures != 1 || n.idr != FlaggedIdr(m.h) then Some(PictureMismatch)
        else if requireIdr && !n.idr then Some(IdrExpected)
        else if n.idr && (!n.sps || !n.pps || (m.h.codec == HEVC && !n.vps)) then Some(MissingParameterSets)
        else None
  }

  /** What is asked of the NAL units of an accepted unit. */
  ghost predicate OnePicture(h: Header, us: seq<Unit>, requireIdr: bool) {
    && AllConforming(h.codec, us)
    && Contains(h.codec, us, SliceUnit) && CountPictures(h.codec, us) == 1
    && (Contains(h.codec, us, IdrUnit) <==> FlaggedIdr(h))
    && (requireIdr ==> Contains(h.codec, us, IdrUnit))
    && (Contains(h.codec, us, IdrUnit) ==>
          && Contains(h.codec, us, SpsUnit) && Contains(h.codec, us, PpsUnit)
          && (h.codec == HEVC ==> Contains(h.codec, us, VpsUnit)))
  }

  /** An accepted unit, said of its NAL units instead of the parser's counters. */
  ghost predicate SelfContained(m: Message, requireIdr: bool) {
    exists us :: us != [] && Canonical(us) && Join(us) == m.bytes && OnePicture(m.h, us, requireIdr)
  }

  /** There is one list of NAL units to ask it of. */
  lemma OfTheSplit(m: Message, requireIdr: bool)
    requires |m.bytes| <= MAX_AU
    ensures SelfContained(m, requireIdr) <==> Bounded(m.bytes) && OnePicture(m.h, Split(m.bytes, 0), requireIdr)
  {
    hide OnePicture;
    var b := m.bytes;
    if Bounded(b) {
      SplitJoins(b, 0);
      assert b[0..] == b;
    }
    forall us | us != [] && Canonical(us) && Join(us) == b
      ensures Bounded(b) && Split(b, 0) == us
    {
      OnlySplit(b, us);
    }
  }

  /**
   validate_au lets through exactly the units with sound metadata that hold one picture, whose IDR flag
   tells the truth, and whose IDR carries its parameter sets.
   */
  lemma AcceptedExactly(m: Message, requireIdr: bool)
    ensures Objection(m, requireIdr).None? <==>
            && MetadataOk(m) && TimesOk(m.h) && (m.h.codec == H264 || m.h.codec == HEVC) && |m.bytes| <= MAX_AU
            && SelfContained(m, requireIdr)
  {
    if |m.bytes| <= MAX_AU {
      OfTheSplit(m, requireIdr);
    }
    hide SelfContained;
    if Bounded(m.bytes) {
      VisitMeans(m.h.codec, NO_NALS, Split(m.bytes, 0));
    }
  }

  /** The dimensions a unit may have are those of the configurations that can be negotiated. */
  lemma DimensionsAreConfigured(m: Message)
    ensures MetadataOk(m) <==>
            && m.h.kind == FRAME && m.h.size == |m.bytes| && m.h.seqNo != 0
            && exists c :: Levels.Validates(c) && c.width == m.h.width && c.height == m.h.height
  {
    if MetadataOk(m) {
      var least := Levels.Config(m.h.width, m.h.height, 100, 1_000_000, 1, Levels.H264);
      Levels.ProductMono(m.h.width, m.h.height, 3840, 2160);
      assert Levels.Validates(least);
    }
  }

  /** What the session protocol sees of a message. */
  function UnitOf(m: Message): Worker.AccessUnit {
    Worker.AccessUnit(m.h.seqNo, FlaggedIdr(m.h))
  }

  /** Asking for an IDR adds just that demand. */
  lemma RequireIdrOnly(m: Message)
    ensures Objection(m, true).None? <==> Objection(m, false).None? && FlaggedIdr(m.h)
  {}

  class SequenceGate {
    var last: nat
    var needIdr: bool

    constructor ()
      ensures View() == Bridge.NEW_GATE
    {
      last, needIdr := 0, true;
    }

    function View(): Bridge.Gate
      reads this
    {
      Bridge.Gate(last, needIdr)
    }

    /** accept(): on the session's view of the unit it is exactly Bridge.Accept; a refusal changes nothing. */
    method Accept(m: Message) returns (objection: Option<AuError>)
      modifies this
      ensures objection.None? ==> Bridge.Accept(old(View()), UnitOf(m)) == Ok(View())
      ensures objection.Some? ==> View() == old(View())
      ensures Objection(m, false).None? ==>
                (objection.None? <==> Bridge.Accept(old(View()), UnitOf(m)).Ok?)
      ensures Objection(m, false).Some? ==> objection.Some?
    {
      RequireIdrOnly(m);
      objection := Objection(m, needIdr);
      if objection.Some? {
        return;
      }
      if m.h.seqNo != last + 1 {
        return Some(Discontinuity);
      }
      last, needIdr := m.h.seqNo, false;
    }

    method Recover()
      modifies this
      ensures View() == Bridge.Gate(old(last), true)
    {
      needIdr := true;
    }
  }

  // ----- the encoder -----

  /** One poll of the hardware: nothing yet, a broken call, or a packet. */
  datatype Poll = Nothing | Broken | Packet(forUs: bool, partition: bool, eoi: bool, data: seq<Byte>)

  datatype EncodeError =
    | InputFailed | SubmitFailed | PacketFailed | AuTooLarge | CompletionTimeout
    | Invalid(why: AuError)

  /** The bytes of the unit the polls deliver, or why there is none. */
  function Assemble(polls: seq<Poll>, sofar: seq<Byte>): Result<seq<Byte>, EncodeError>
    decreases |polls|
  {
    if polls == [] then Err(CompletionTimeout)
    else
      match polls[0]
      case Nothing => Assemble(polls[1..], sofar)
      case Broken => Err(PacketFailed)
      case Packet(forUs, partition, eoi, data) =>
        if !forUs then Err(PacketFailed)
        else if MAX_AU - |sofar| < |data| then Err(AuTooLarge)
        else if !partition || eoi then Ok(sofar + data)
        else Assemble(polls[1..], sofar + data)
  }

  /** A poll after which the loop goes on. */
  predicate Continues(p: Poll) {
    p.Nothing? || (p.Packet? && p.forUs && p.partition && !p.eoi)
  }

  /** The packet that ends the image. */
  predicate Completes(p: Poll) {
    p.Packet? && p.forUs && (!p.partition || p.eoi)
  }

  /** The data of all packets, in order. */
  function Payload(polls: seq<Poll>): seq<Byte> {
    if polls == [] then []
    else (if polls[0].Packet? then polls[0].data else []) + Payload(polls[1..])
  }

  /** Poll k is the first that ends the image, and no poll before it is broken or of another frame. */
  ghost predicate CompletesAt(polls: seq<Poll>, k: nat) {
    k < |polls| && Completes(polls[k]) && forall j: nat :: j < k ==> Continues(polls[j])
  }

  lemma CompletesCons(polls: seq<Poll>, k: nat)
    requires 0 < |polls|
    ensures CompletesAt(polls, k) <==>
            if k == 0 then Completes(polls[0]) else Continues(polls[0]) && CompletesAt(polls[1..], k - 1)
  {
    hide Continues, Completes;
    if k > 0 && Continues(polls[0]) && CompletesAt(polls[1..], k - 1) {
      forall j: nat | j < k
        ensures Continues(polls[j])
      {
        if j > 0 {
          assert polls[1..][j - 1] == polls[j];
        }
      }
    }
    if k > 0 && CompletesAt(polls, k) {
      assert forall j: nat :: j < k - 1 ==> polls[1..][j] == polls[j + 1];
    }
  }

  lemma {:induction false} AssembleAt(polls: seq<Poll>, sofar: seq<Byte>, k: nat)
    requires CompletesAt(polls, k) && |sofar| <= MAX_AU
    ensures var bytes := sofar + Payload(polls[..k + 1]);
            Assemble(polls, sofar) == if |bytes| <= MAX_AU then Ok(bytes) else Err(AuTooLarge)
    decreases k
  {
    var p, rest := polls[0], polls[1..];
    var data := if p.Packet? then p.data else [];
    CompletesCons(polls, k);
    assert p.Nothing? ==> sofar + data == sofar;
    assert polls[..k + 1][1..] == rest[..k];
    assert sofar + Payload(polls[..k + 1]) == sofar + data + Payload(rest[..k]);
    hide CompletesAt;
    if k == 0 {
      assert rest[..0] == [] && sofar + data + [] == sofar + data;
    } else if |sofar + data| <= MAX_AU {
      AssembleAt(rest, sofar + data, k - 1);
    }
  }

  lemma {:induction false} AssembleNever(polls: seq<Poll>, sofar: seq<Byte>)
    requires forall k: nat :: !CompletesAt(polls, k)
    ensures Assemble(polls, sofar).Err?
    decreases |polls|
  {
    if polls != [] {
      CompletesCons(polls, 0);
      var p, rest := polls[0], polls[1..];
      if Continues(p) {
        forall k: nat
          ensures !CompletesAt(rest, k)
        {
          CompletesCons(polls, k + 1);
        }
        hide CompletesAt;
        AssembleNever(rest, if p.Packet? then sofar + p.data else sofar);
      }
    }
  }

  /**
   A unit is assembled exactly of the data of all packets, in order, up to the one that ends the image, if they
   come to no more than the limit and nothing else came before it.
   */
  lemma AssembledExactly(polls: seq<Poll>, bytes: seq<Byte>)
    ensures Assemble(polls, []) == Ok(bytes) <==>
            |bytes| <= MAX_AU &&
            exists k: nat :: k < |polls| && CompletesAt(polls, k) && bytes == Payload(polls[..k + 1])
  {
    hide Assemble, Payload;
    forall k: nat | k < |polls| && CompletesAt(polls, k)
      ensures var all := Payload(polls[..k + 1]);
              Assemble(polls, []) == if |all| <= MAX_AU then Ok(all) else Err(AuTooLarge)
    {
      AssembleAt(polls, [], k);
      assert [] + Payload(polls[..k + 1]) == Payload(polls[..k + 1]);
    }
    if forall k: nat :: !CompletesAt(polls, k) {
      AssembleNever(polls, []);
    }
  }

  class Encoder {
    var seqNo: nat
    const width: U32
    const height: U32
    const codec: U16
    const flags: U32 // bt709, full range and dmabuf; never the IDR bit

    constructor (width: U32, height: U32, codec: U16, flags: U32)
      requires flags % 2 == 0 && flags <= FLAG_MASK
      ensures seqNo == 0 && this.width == width && this.height == height && this.codec == codec && this.flags == flags
    {
      seqNo := 0;
      this.width, this.height, this.codec, this.flags := width, height, codec, flags;
    }

    /** continue_sequence(last). */
    method ContinueSequence(last: nat)
      modifies this`seqNo
      ensures seqNo == last
    {
      seqNo := last;
    }

    /** The message made of the assembled bytes; the IDR bit says what the parser found. */
    function Built(bytes: seq<Byte>, n: U64, dequeueUs: U64, submitUs: U64, doneUs: U64): Message
      requires this.flags % 2 == 0 && this.flags <= FLAG_MASK && |bytes| <= MAX_AU
    {
      var found := Inspection(codec, bytes);
      Message(
        Header(FRAME, |bytes|, flags + (if found.Ok? && found.value.idr then FLAG_IDR else 0),
               n, dequeueUs, submitUs, doneUs, width, height, codec, 0),
        bytes)
    }

    /**
     encode(): submits one input and assembles packets until the end of the image. A unit it returns
     has the next sequence number, is valid, and is an IDR if one was forced.
     */
    method Encode(inputOk: bool, submitOk: bool, dequeueUs: U64, submitUs: U64, doneUs: U64, force: bool,
                  polls: seq<Poll>)
      returns (r: Result<Message, EncodeError>)
      requires this.flags % 2 == 0 && this.flags <= FLAG_MASK
      requires seqNo < 0xFFFF_FFFF_FFFF_FFFF
      modifies this
      ensures seqNo == if inputOk then old(seqNo) + 1 else old(seqNo)
      ensures r.Ok? ==>
                && Objection(r.value, force).None?
                && r.value.h.seqNo == seqNo == old(seqNo) + 1
                && (force ==> FlaggedIdr(r.value.h))
                && Assemble(polls, []) == Ok(r.value.bytes)
                && Wellformed(r.value.h)
                && (r.value.h.width, r.value.h.height, r.value.h.codec) == (width, height, codec)
                && (r.value.h.dequeueUs, r.value.h.submitUs, r.value.h.doneUs) == (dequeueUs, submitUs, doneUs)
      ensures inputOk && submitOk && Assemble(polls, []).Ok? ==>
                |Assemble(polls, []).value| <= MAX_AU &&
                var m := Built(Assemble(polls, []).value, seqNo, dequeueUs, submitUs, doneUs);
                if Objection(m, force).None? then r == Ok(m) else r.Err? && r.error.Invalid?
    {
      if !inputOk {
        return Err(InputFailed);
      }
      seqNo := seqNo + 1;
      if !submitOk {
        return Err(SubmitFailed);
      }
      var bytes: seq<Byte> := [];
      var i: nat := 0;
      var eoi := false;
      while !eoi
        invariant i <= |polls| && |bytes| <= MAX_AU
        invariant Assemble(polls, []) == if eoi then Ok(bytes) else Assemble(polls[i..], bytes)
        decreases |polls| - i, !eoi
      {
        if i == |polls| {
          return Err(CompletionTimeout);
        }
        match polls[i] {
          case Nothing =>
          case Broken => return Err(PacketFailed);
          case Packet(forUs, partition, end, data) =>
            if !forUs {
              return Err(PacketFailed);
            }
            if MAX_AU - |bytes| < |data| {
              return Err(AuTooLarge);
            }
            bytes := bytes + data;
            eoi := !partition || end;
        }
        i := i + 1;
      }
      var inspected := Inspection(codec, bytes);
      if inspected.Err? {
        return Err(Invalid(Unparsable(inspected.error)));
      }
      var m := Built(bytes, seqNo, dequeueUs, submitUs, doneUs);
      RequireIdrOnly(m);
      var why := Objection(m, force);
      if why.Some? {
        return Err(Invalid(why.value));
      }
      return Ok(m);
    }
  }
}
