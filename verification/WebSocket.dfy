/**
 WebSocket framing of the kvmd event stream (python/rkmoon_hid/backend.py:173-306), sections 5.2 and 5.3
 of RFC 6455: building client frames, reading frames back, and the read loop.
 */
module WebSocket {
  import opened Common
  import Flush
  import Wire

  /** A masking key is four octets. */
  type Mask = m: seq<Byte> | |m| == 4 witness [0, 0, 0, 0]

  const MAX_FRAME: nat := 0x10_0000

  const CLOSE: Byte := 8
  const PING: Byte := 9
  const PONG: Byte := 10
  const BINARY: Byte := 2

  /** The low n octets of v, highest first. */
  function BigEndian(v: nat, n: nat): (s: seq<Byte>)
    ensures |s| == n
  {
    if n == 0 then [] else BigEndian(v / 256, n - 1) + [v % 256]
  }

  function Number(s: seq<Byte>): nat {
    if s == [] then 0 else 256 * Number(s[..|s| - 1]) + s[|s| - 1]
  }

  lemma {:induction false} NumberOfBigEndian(v: nat, n: nat)
    requires v < Wire.Pow256(n)
    ensures Number(BigEndian(v, n)) == v
  {
    if n > 0 {
      NumberOfBigEndian(v / 256, n - 1);
      var s := BigEndian(v, n);
      assert s[..|s| - 1] == BigEndian(v / 256, n - 1);
    }
  }

  /** Exclusive or of the low bits of a and b. */
  function Xor(a: nat, b: nat, bits: nat): (x: nat)
    ensures x < Two(bits)
  {
    if bits == 0 then 0 else (if a % 2 == b % 2 then 0 else 1) + 2 * Xor(a / 2, b / 2, bits - 1)
  }

  function Two(n: nat): (p: nat)
    ensures 0 < p
  {
    if n == 0 then 1 else 2 * Two(n - 1)
  }

  lemma {:induction false} XorTwice(a: nat, b: nat, bits: nat)
    requires a < Two(bits)
    ensures Xor(Xor(a, b, bits), b, bits) == a
  {
    if bits > 0 {
      XorTwice(a / 2, b / 2, bits - 1);
      var x := Xor(a, b, bits);
      assert x / 2 == Xor(a / 2, b / 2, bits - 1) && (x % 2 == b % 2 <==> a % 2 == 0);
    }
  }

  function XorByte(a: Byte, b: Byte): Byte {
    TwoToTheEighth();
    Xor(a, b, 8)
  }

  lemma TwoToTheEighth()
    ensures Two(8) == 256
  {
    assert Two(4) == 16 by { assert Two(2) == 4; }
    assert Two(6) == 64;
  }

  /** XOR with the key, repeated; it undoes itself. */
  function Masked(mask: Mask, payload: seq<Byte>): (s: seq<Byte>)
    ensures |s| == |payload|
  {
    seq(|payload|, i requires 0 <= i < |payload| => XorByte(payload[i], mask[i % 4]))
  }

  lemma MaskedTwice(mask: Mask, payload: seq<Byte>)
    ensures Masked(mask, Masked(mask, payload)) == payload
  {
    forall i | 0 <= i < |payload|
      ensures Masked(mask, Masked(mask, payload))[i] == payload[i]
    {
      TwoToTheEighth();
      XorTwice(payload[i], mask[i % 4], 8);
    }
  }

  /** Bit k of v, the lowest being bit 0. */
  predicate Bit(v: nat, k: nat) {
    if k == 0 then v % 2 == 1 else Bit(v / 2, k - 1)
  }

  lemma {:induction false} XorBit(a: nat, b: nat, bits: nat, k: nat)
    requires k < bits
    ensures Bit(Xor(a, b, bits), k) <==> Bit(a, k) != Bit(b, k)
  {
    var x := Xor(a, b, bits);
    assert x / 2 == Xor(a / 2, b / 2, bits - 1) && (x % 2 == 0 <==> a % 2 == b % 2);
    if k > 0 {
      XorBit(a / 2, b / 2, bits - 1, k - 1);
    }
  }

  /** Section 5.3: octet i of the masked payload is octet i of the payload XOR octet i modulo 4 of the key. */
  lemma MaskedBit(mask: Mask, payload: seq<Byte>, i: nat, k: nat)
    requires i < |payload| && k < 8
    ensures Bit(Masked(mask, payload)[i], k) <==> Bit(payload[i], k) != Bit(mask[i % 4], k)
  {
    TwoToTheEighth();
    XorBit(payload[i], mask[i % 4], 8, k);
  }

  /** A frame as the program sees it; key is the masking key, if it is masked. */
  datatype Frame = Frame(opcode: Byte, payload: seq<Byte>, key: Option<Mask>)

  predicate Sendable(f: Frame) {
    f.opcode < 16 && |f.payload| <= MAX_FRAME
  }

  /** The final-fragment bit and the opcode. */
  function FirstOctet(opcode: Byte): Byte
    requires opcode < 16
  {
    0x80 + opcode
  }

  /** The mask bit and the length marker. */
  function SecondOctet(masked: bool, marker: Byte): Byte
    requires marker < 128
  {
    (if masked then 0x80 else 0) + marker
  }

  /** Masking key, if any, and payload. */
  function Body(f: Frame): seq<Byte> {
    if f.key.Some? then f.key.value + Masked(f.key.value, f.payload) else f.payload
  }

  /** Length marker and extended length. */
  function Length(n: nat): (r: (Byte, seq<Byte>))
    requires n <= MAX_FRAME
    ensures r.0 < 128
  {
    if n < 126 then (n, [])
    else if n < 65536 then (126, BigEndian(n, 2))
    else (127, BigEndian(n, 8))
  }

  function Encode(f: Frame): seq<Byte>
    requires Sendable(f)
  {
    var (marker, extended) := Length(|f.payload|);
    [FirstOctet(f.opcode), SecondOctet(f.key.Some?, marker)] + (extended + Body(f))
  }

  /** Octets of the extended payload length: the shortest of the three forms. */
  function ExtendedOctets(n: nat): nat {
    if n < 126 then 0 else if n < 65536 then 2 else 8
  }

  /**
   Section 5.2: a final fragment without extension bits; the mask bit; the payload length in its shortest form,
   highest octet first; the masking key, if any; and the payload.
   */
  lemma FrameOctets(f: Frame)
    requires Sendable(f)
    ensures var s, n, x, m := Encode(f), |f.payload|, ExtendedOctets(|f.payload|), if f.key.Some? then 4 else 0;
            && |s| == 2 + x + m + n
            && s[0] / 128 == 1 && s[0] / 16 % 8 == 0 && s[0] % 16 == f.opcode
            && (s[1] / 128 == 1 <==> f.key.Some?)
            && s[1] % 128 == (if x == 0 then n else if x == 2 then 126 else 127)
            && (x != 0 ==> Number(s[2..2 + x]) == n)
            && (f.key.Some? ==> s[2 + x..2 + x + 4] == f.key.value && s[2 + x + 4..] == Masked(f.key.value, f.payload))
            && (f.key.None? ==> s[2 + x..] == f.payload)
  {
    hide Masked, BigEndian, Number;
    var n := |f.payload|;
    var (marker, extended) := Length(n);
    ExtendedNumber(n);
    FrameParts(FirstOctet(f.opcode), SecondOctet(f.key.Some?, marker), extended, Body(f));
    if f.key.Some? {
      BodyParts(f.key.value, Masked(f.key.value, f.payload));
    }
  }

  lemma FrameParts(b0: Byte, b1: Byte, extended: seq<Byte>, body: seq<Byte>)
    ensures var s, x := [b0, b1] + (extended + body), |extended|;
            && s[0] == b0 && s[1] == b1 && s[2..2 + x] == extended && s[2 + x..] == body
            && forall k: nat :: k <= |body| ==> s[2 + x..2 + x + k] == body[..k] && s[2 + x + k..] == body[k..]
  {
  }

  lemma BodyParts(mask: Mask, masked: seq<Byte>)
    ensures (mask + masked)[..4] == mask && (mask + masked)[4..] == masked
  {
  }

  lemma ExtendedNumber(n: nat)
    requires n <= MAX_FRAME
    ensures |Length(n).1| == ExtendedOctets(n) && (ExtendedOctets(n) != 0 ==> Number(Length(n).1) == n)
  {
    hide BigEndian, Number, Wire.Pow256;
    Powers();
    if 126 <= n {
      NumberOfBigEndian(n, ExtendedOctets(n));
    }
  }

  /** _frame(): the client's frames are always masked. */
  method BuildFrame(opcode: Byte, payload: seq<Byte>, mask: Mask) returns (bytes: seq<Byte>)
    requires opcode < 16 && |payload| <= MAX_FRAME
    ensures bytes == Encode(Frame(opcode, payload, Some(mask)))
  {
    hide Masked, BigEndian;
    var header := [0x80 + opcode];
    var n := |payload|;
    if n < 126 {
      header := header + [0x80 + n];
    } else if n < 65536 {
      header := header + [0x80 + 126];
      header := header + BigEndian(n, 2);
    } else {
      header := header + [0x80 + 127];
      header := header + BigEndian(n, 8);
    }
    ghost var (marker, extended) := Length(n);
    assert header == [FirstOctet(opcode), SecondOctet(true, marker)] + extended;
    hide Length, FirstOctet, SecondOctet;
    bytes := header + mask + Masked(mask, payload);
    ghost var body := mask + Masked(mask, payload);
    assert bytes == [FirstOctet(opcode), SecondOctet(true, marker)] + (extended + body);
  }

  // ----- reading -----

  datatype Read = Incomplete | TooLarge | Got(opcode: Byte, payload: seq<Byte>, rest: seq<Byte>)

  /** readexactly(n): None at the end of the stream. */
  function Exactly(stream: seq<Byte>, n: nat): Option<(seq<Byte>, seq<Byte>)> {
    if |stream| < n then None else Some((stream[..n], stream[n..]))
  }

  /** The extended length the marker announces, or the marker itself. */
  function ReadLength(marker: Byte, stream: seq<Byte>): Option<(nat, seq<Byte>)> {
    if marker == 126 then
      var r := Exactly(stream, 2); if r.None? then None else Some((Number(r.value.0), r.value.1))
    else if marker == 127 then
      var r := Exactly(stream, 8); if r.None? then None else Some((Number(r.value.0), r.value.1))
    else Some((marker, stream))
  }

  /** The masking key, if announced, and the payload. */
  function ReadPayload(opcode: Byte, masked: bool, n: nat, stream: seq<Byte>): Read {
    var key := if masked then Exactly(stream, 4) else Some(([0, 0, 0, 0], stream));
    if key.None? then Incomplete
    else
      var body := Exactly(key.value.1, n);
      if body.None? then Incomplete
      else Got(opcode, if masked then Masked(key.value.0, body.value.0) else body.value.0, body.value.1)
  }

  function Opcode(b0: Byte): Byte {
    b0 % 16
  }

  function Marker(b1: Byte): Byte {
    b1 % 128
  }

  predicate IsMasked(b1: Byte) {
    b1 >= 0x80
  }

  /** One round of the read loop's parsing. */
  function ReadFrame(stream: seq<Byte>): Read {
    var head := Exactly(stream, 2);
    if head.None? then Incomplete
    else
      var b0, b1 := head.value.0[0], head.value.0[1];
      var length := ReadLength(Marker(b1), head.value.1);
      if length.None? then Incomplete
      else if MAX_FRAME < length.value.0 then TooLarge
      else ReadPayload(Opcode(b0), IsMasked(b1), length.value.0, length.value.1)
  }

  lemma OctetsRead(opcode: Byte, masked: bool, marker: Byte)
    requires opcode < 16 && marker < 128
    ensures Opcode(FirstOctet(opcode)) == opcode
    ensures Marker(SecondOctet(masked, marker)) == marker
    ensures IsMasked(SecondOctet(masked, marker)) <==> masked
  {
  }

  lemma Powers()
    ensures Wire.Pow256(2) == 0x1_0000 && Wire.Pow256(8) == 0x1_0000_0000_0000_0000
  {
    assert Wire.Pow256(4) == 0x1_0000_0000 by { assert Wire.Pow256(2) == 0x1_0000; }
    assert Wire.Pow256(6) == 0x1_0000_0000_0000;
  }

  lemma LengthRead(n: nat, tail: seq<Byte>)
    requires n <= MAX_FRAME
    ensures Length(n).0 < 128 && ReadLength(Length(n).0, Length(n).1 + tail) == Some((n, tail))
  {
    hide BigEndian, Number, Wire.Pow256;
    if n < 126 {
      assert [] + tail == tail;
    } else if n < 65536 {
      Powers();
      NumberOfBigEndian(n, 2);
    } else {
      Powers();
      NumberOfBigEndian(n, 8);
    }
  }

  lemma PayloadRead(f: Frame, tail: seq<Byte>)
    requires Sendable(f)
    ensures ReadPayload(f.opcode, f.key.Some?, |f.payload|, Body(f) + tail) == Got(f.opcode, f.payload, tail)
  {
    if f.key.Some? {
      var mask := f.key.value;
      var stream := mask + Masked(mask, f.payload) + tail;
      assert stream[..4] == mask;
      assert stream[4..] == Masked(mask, f.payload) + tail;
      assert (Masked(mask, f.payload) + tail)[..|f.payload|] == Masked(mask, f.payload);
      assert (Masked(mask, f.payload) + tail)[|f.payload|..] == tail;
      MaskedTwice(mask, f.payload);
    } else {
      assert (f.payload + tail)[..|f.payload|] == f.payload;
      assert (f.payload + tail)[|f.payload|..] == tail;
    }
  }

  /**
   A frame is read back with its opcode and payload, masked or not, in all three length forms, up to its
   last octet.
   */
  lemma ReadOfEncode(f: Frame, tail: seq<Byte>)
    requires Sendable(f)
    ensures ReadFrame(Encode(f) + tail) == Got(f.opcode, f.payload, tail)
  {
    hide Length, Body, ReadLength, ReadPayload, FirstOctet, SecondOctet, Opcode, Marker, IsMasked, Exactly;
    var (marker, extended) := Length(|f.payload|);
    var rest := extended + (Body(f) + tail);
    LengthRead(|f.payload|, Body(f) + tail);
    OctetsRead(f.opcode, f.key.Some?, marker);
    HeadRead(FirstOctet(f.opcode), SecondOctet(f.key.Some?, marker), rest);
    assert Encode(f) + tail == [FirstOctet(f.opcode), SecondOctet(f.key.Some?, marker)] + rest;
    PayloadRead(f, tail);
  }

  lemma HeadRead(b0: Byte, b1: Byte, rest: seq<Byte>)
    ensures Exactly([b0, b1] + rest, 2) == Some(([b0, b1], rest))
  {
    assert ([b0, b1] + rest)[..2] == [b0, b1];
    assert ([b0, b1] + rest)[2..] == rest;
  }

  function EncodeAll(fs: seq<Frame>): seq<Byte>
    requires forall f | f in fs :: Sendable(f)
  {
    if fs == [] then [] else Encode(fs[0]) + EncodeAll(fs[1..])
  }

  datatype Content = Content(opcode: Byte, payload: seq<Byte>)

  function Contents(fs: seq<Frame>): seq<Content> {
    seq(|fs|, i requires 0 <= i < |fs| => Content(fs[i].opcode, fs[i].payload))
  }

  lemma ReadShorter(stream: seq<Byte>)
    ensures ReadFrame(stream).Got? ==> |ReadFrame(stream).rest| < |stream| && |ReadFrame(stream).payload| <= MAX_FRAME
  {
    hide Masked, Number;
  }

  /** Everything that can be read, and what is left over. */
  function ReadAll(stream: seq<Byte>): (seq<Content>, seq<Byte>)
    decreases |stream|
  {
    ReadShorter(stream);
    var r := ReadFrame(stream);
    if r.Got? then
      var more := ReadAll(r.rest);
      ([Content(r.opcode, r.payload)] + more.0, more.1)
    else ([], stream)
  }

  /** Any sequence of frames is read back to the same opcodes and payloads with nothing left over. */
  lemma {:induction false} ReadAllOfEncodeAll(fs: seq<Frame>)
    requires forall f | f in fs :: Sendable(f)
    ensures ReadAll(EncodeAll(fs)) == (Contents(fs), [])
    decreases |fs|
  {
    hide ReadFrame, Encode;
    if fs == [] {
      assert ReadFrame([]) == Incomplete by { NothingToRead(); }
    } else {
      ReadOfEncode(fs[0], EncodeAll(fs[1..]));
      ReadAllOfEncodeAll(fs[1..]);
      assert Contents(fs) == [Content(fs[0].opcode, fs[0].payload)] + Contents(fs[1..]);
    }
  }

  lemma NothingToRead()
    ensures ReadFrame([]) == Incomplete
  {
  }

  // ----- the read loop -----

  /** What the loop does with what it reads: octets written back, and flush confirmations. */
  datatype Reaction = Reaction(written: seq<Byte>, pongs: nat)

  /** kvmd's answer to a flush. */
  predicate ConfirmsFlush(opcode: Byte, payload: seq<Byte>) {
    opcode == BINARY && payload != [] && payload[0] == 0xFF
  }

  function Then(written: seq<Byte>, pongs: nat, later: Reaction): Reaction {
    Reaction(written + later.written, pongs + later.pongs)
  }

  /** Frames up to the first close frame, or all; k masking keys have been drawn. */
  function Answer(cs: seq<Content>, masks: nat -> Mask, k: nat): Reaction
    requires forall c | c in cs :: |c.payload| <= MAX_FRAME
    decreases |cs|
  {
    if cs == [] || cs[0].opcode == CLOSE then Reaction([], 0)
    else if cs[0].opcode == PING then
      Then(Encode(Frame(PONG, cs[0].payload, Some(masks(k)))), 0, Answer(cs[1..], masks, k + 1))
    else Then([], if ConfirmsFlush(cs[0].opcode, cs[0].payload) then 1 else 0, Answer(cs[1..], masks, k))
  }

  lemma {:induction false} ReadAllSizes(stream: seq<Byte>)
    ensures forall c | c in ReadAll(stream).0 :: |c.payload| <= MAX_FRAME
    decreases |stream|
  {
    ReadShorter(stream);
    hide ReadFrame;
    if ReadFrame(stream).Got? {
      ReadAllSizes(ReadFrame(stream).rest);
    }
  }

  /** The loop's whole reaction to a stream; the k-th masking key is the first it draws. */
  function Reacts(stream: seq<Byte>, masks: nat -> Mask, k: nat): Reaction {
    ReadAllSizes(stream);
    Answer(ReadAll(stream).0, masks, k)
  }

  /** What one frame adds to the reaction to those after it. */
  lemma AnswerUnfolds(stream: seq<Byte>, masks: nat -> Mask, k: nat)
    requires ReadFrame(stream).Got?
    ensures var r := ReadFrame(stream);
            && |r.payload| <= MAX_FRAME && |r.rest| < |stream|
            && Reacts(stream, masks, k) ==
                 if r.opcode == CLOSE then Reaction([], 0)
                 else if r.opcode == PING then
                   Then(Encode(Frame(PONG, r.payload, Some(masks(k)))), 0, Reacts(r.rest, masks, k + 1))
                 else Then([], if ConfirmsFlush(r.opcode, r.payload) then 1 else 0, Reacts(r.rest, masks, k))
  {
    var r := ReadFrame(stream);
    ReadShorter(stream);
    ReadAllSizes(stream);
    ReadAllSizes(r.rest);
    assert ReadAll(stream).0[1..] == ReadAll(r.rest).0;
    hide ReadFrame, Encode;
  }

  function Confirmations(n: nat): seq<bool> {
    seq(n, _ => true)
  }

  /** What was written and queued at first, and the whole reaction, come to what there is now and what is to come. */
  predicate Ahead(w0: seq<Byte>, p0: seq<bool>, goal: Reaction, w: seq<Byte>, p: seq<bool>, later: Reaction) {
    w0 + goal.written == w + later.written && p0 + Confirmations(goal.pongs) == p + Confirmations(later.pongs)
  }

  lemma AheadStarts(w0: seq<Byte>, p0: seq<bool>, goal: Reaction)
    ensures Ahead(w0, p0, goal, w0, p0, goal)
  {
  }

  lemma AheadMoves(w0: seq<Byte>, p0: seq<bool>, goal: Reaction, w: seq<Byte>, p: seq<bool>, w2: seq<Byte>,
                   p2: seq<bool>, later: Reaction)
    requires w <= w2 && (p2 == p || p2 == p + [true])
    requires Ahead(w0, p0, goal, w, p, Then(w2[|w|..], |p2| - |p|, later))
    ensures Ahead(w0, p0, goal, w2, p2, later)
  {
    assert w + (w2[|w|..] + later.written) == w2 + later.written;
    assert p + Confirmations(|p2| - |p| + later.pongs) == p2 + Confirmations(later.pongs);
  }

  /** One frame that does not end the loop. */
  lemma AheadByOne(w0: seq<Byte>, p0: seq<bool>, goal: Reaction, w: seq<Byte>, p: seq<bool>, w2: seq<Byte>,
                   p2: seq<bool>, stream: seq<Byte>, masks: nat -> Mask, k: nat)
    requires ReadFrame(stream).Got? && ReadFrame(stream).opcode != CLOSE
    requires |ReadFrame(stream).payload| <= MAX_FRAME
    requires var r := ReadFrame(stream);
             && w2 == w + (if r.opcode == PING then Encode(Frame(PONG, r.payload, Some(masks(k)))) else [])
             && p2 == p + (if r.opcode != PING && ConfirmsFlush(r.opcode, r.payload) then [true] else [])
    requires Ahead(w0, p0, goal, w, p, Reacts(stream, masks, k))
    ensures var r := ReadFrame(stream);
            Ahead(w0, p0, goal, w2, p2, Reacts(r.rest, masks, if r.opcode == PING then k + 1 else k))
  {
    hide ReadFrame, Encode, Ahead, ConfirmsFlush, Reacts;
    var r := ReadFrame(stream);
    AnswerUnfolds(stream, masks, k);
    var more := Reacts(r.rest, masks, if r.opcode == PING then k + 1 else k);
    assert Reacts(stream, masks, k) == Then(w2[|w|..], |p2| - |p|, more);
    AheadMoves(w0, p0, goal, w, p, w2, p2, more);
  }

  lemma AheadEnds(w0: seq<Byte>, p0: seq<bool>, goal: Reaction, w: seq<Byte>, p: seq<bool>)
    requires Ahead(w0, p0, goal, w, p, Reaction([], 0))
    ensures w0 + goal.written == w && p0 + Confirmations(goal.pongs) == p
  {
  }

  /** The octets that arrive while the loop waits, all together. */
  function Joined(arrivals: seq<seq<Byte>>): seq<Byte> {
    if arrivals == [] then [] else arrivals[0] + Joined(arrivals[1..])
  }

  lemma ExactlyLater(stream: seq<Byte>, n: nat, more: seq<Byte>)
    requires Exactly(stream, n).Some?
    ensures Exactly(stream + more, n) == Some((Exactly(stream, n).value.0, Exactly(stream, n).value.1 + more))
  {
    assert (stream + more)[..n] == stream[..n];
    assert (stream + more)[n..] == stream[n..] + more;
  }

  lemma LengthLater(marker: Byte, stream: seq<Byte>, more: seq<Byte>)
    requires ReadLength(marker, stream).Some?
    ensures var r := ReadLength(marker, stream).value;
            ReadLength(marker, stream + more) == Some((r.0, r.1 + more))
  {
    if marker == 126 {
      ExactlyLater(stream, 2, more);
    } else if marker == 127 {
      ExactlyLater(stream, 8, more);
    }
  }

  lemma PayloadLater(opcode: Byte, masked: bool, n: nat, stream: seq<Byte>, more: seq<Byte>)
    requires ReadPayload(opcode, masked, n, stream).Got?
    ensures var r := ReadPayload(opcode, masked, n, stream);
            ReadPayload(opcode, masked, n, stream + more) == Got(r.opcode, r.payload, r.rest + more)
  {
    hide Masked;
    if masked {
      ExactlyLater(stream, 4, more);
      ExactlyLater(stream[4..], n, more);
    } else {
      ExactlyLater(stream, n, more);
    }
  }

  /** What has been decided about a stream does not change when more arrives. */
  lemma DecidedForGood(stream: seq<Byte>, more: seq<Byte>)
    ensures var r := ReadFrame(stream);
            && (r.Got? ==> ReadFrame(stream + more) == Got(r.opcode, r.payload, r.rest + more))
            && (r.TooLarge? ==> ReadFrame(stream + more) == TooLarge)
  {
    if Exactly(stream, 2).Some? {
      ExactlyLater(stream, 2, more);
      var b0, b1, rest := stream[0], stream[1], stream[2..];
      if ReadLength(Marker(b1), rest).Some? {
        LengthLater(Marker(b1), rest, more);
        var (n, body) := ReadLength(Marker(b1), rest).value;
        hide ReadLength, Exactly;
        if n <= MAX_FRAME && ReadPayload(Opcode(b0), IsMasked(b1), n, body).Got? {
          PayloadLater(Opcode(b0), IsMasked(b1), n, body, more);
        }
      }
    }
  }

  /** Where no frame can be read, and none will be, there is nothing to react to. */
  lemma NothingMore(stream: seq<Byte>, more: seq<Byte>)
    requires ReadFrame(stream).TooLarge? || (ReadFrame(stream).Incomplete? && more == [])
    ensures forall masks, k :: Reacts(stream + more, masks, k) == Reaction([], 0)
  {
    DecidedForGood(stream, more);
    hide ReadFrame;
    assert stream + [] == stream;
  }

  class KvmdStream {
    var alive: bool
    var reading: bool                  // the read loop runs
    var waiting: bool                  // flush() has written its ping and waits for the queue
    var pongs: seq<bool>               // true: a confirmation; false: the loop has ended
    var input: seq<Byte>               // octets from kvmd, not yet read
    var written: seq<Byte>

    /** The stream's part of a link; what is under way is the link's own. */
    ghost predicate Shows(l: Flush.Link)
      reads this
    {
      alive == l.alive && reading == l.reading && waiting == l.waiting && pongs == l.pongs
    }

    constructor ()
      ensures Shows(Flush.OPEN) && written == [] && input == []
    {
      alive, reading, waiting, pongs, written, input := true, true, false, [], [], [];
    }

    /** _send() */
    method Send(payload: seq<Byte>, mask: Mask, drained: bool) returns (sent: bool)
      requires |payload| <= MAX_FRAME
      modifies this`alive, this`written
      ensures sent <==> old(alive) && drained
      ensures written == old(written) + (if old(alive) then Encode(Frame(BINARY, payload, Some(mask))) else [])
      ensures forall l, op, entered :: old(Shows(l)) ==> Shows(Flush.Write(l, op, entered, drained))
    {
      if !alive {
        return false;
      }
      var frame := BuildFrame(BINARY, payload, mask);
      written := written + frame;
      alive := drained;
      return drained;
    }

    /** flush() up to its wait: stale confirmations are dropped and a ping is written. */
    method BeginFlush(mask: Mask, drained: bool) returns (sent: bool)
      requires !waiting
      modifies this
      ensures sent == waiting && input == old(input)
      ensures written == old(written) + (if old(alive) then Encode(Frame(BINARY, [0], Some(mask))) else [])
      ensures forall l, entered :: old(Shows(l)) ==> Shows(Flush.Begin(l, entered, drained))
    {
      pongs := [];
      sent := Send([0], mask, drained);
      waiting := sent;
    }

    /** The rest of flush(), once the queue holds something or the time is up. */
    method EndFlush(timedOut: bool) returns (confirmed: bool)
      requires waiting && (timedOut || pongs != [])
      modifies this`waiting, this`alive, this`pongs
      ensures forall l :: old(Shows(l)) ==>
        Shows(Flush.Finish(l, timedOut).0) && confirmed == Flush.Confirmed(l, timedOut)
    {
      waiting := false;
      confirmed := false;
      if !timedOut {
        confirmed := pongs[0];
        pongs := pongs[1..];
      }
      if !confirmed {
        alive := false;
      }
    }

    /** What the loop does with one frame that does not end it; true when a masking key was used. */
    method Handle(opcode: Byte, payload: seq<Byte>, mask: Mask) returns (drew: bool)
      requires opcode != CLOSE && |payload| <= MAX_FRAME && reading
      modifies this`pongs, this`written
      ensures drew <==> opcode == PING
      ensures written == old(written) + (if drew then Encode(Frame(PONG, payload, Some(mask))) else [])
      ensures pongs == old(pongs) + (if !drew && ConfirmsFlush(opcode, payload) then [true] else [])
      ensures ConfirmsFlush(opcode, payload) ==>
                forall l :: old(Shows(l)) && 0 < l.replies ==> Shows(Flush.ReadPong(l))
    {
      if opcode == PING {
        var pong := BuildFrame(PONG, payload, mask);
        written := written + pong;
        return true;
      }
      if opcode == BINARY && payload != [] && payload[0] == 0xFF {
        pongs := pongs + [true];
      }
      return false;
    }

    /** However the loop ends, the stream is dead and a waiting flush() is told. */
    method Stop()
      requires reading
      modifies this`reading, this`alive, this`pongs
      ensures !alive && !reading && pongs == old(pongs) + [false]
      ensures forall l :: old(Shows(l)) ==> Shows(Flush.LoopEnds(l))
    {
      reading := false;
      alive := false;
      pongs := pongs + [false];
    }

    /** The loop's next frame: it waits for more octets while the frame is incomplete. */
    method NextFrame(arrivals: seq<seq<Byte>>, first: nat) returns (r: Read, next: nat)
      requires first <= |arrivals|
      modifies this`input
      ensures next <= |arrivals|
      ensures var all := old(input) + Joined(arrivals[first..]);
              if r.Got? then ReadFrame(all) == Got(r.opcode, r.payload, input + Joined(arrivals[next..]))
              else forall masks, k :: Reacts(all, masks, k) == Reaction([], 0)
    {
      hide ReadFrame, Reacts;
      next := first;
      ghost var all := input + Joined(arrivals[first..]);
      r := ReadFrame(input);
      while r.Incomplete? && next < |arrivals|
        invariant next <= |arrivals| && all == input + Joined(arrivals[next..]) && r == ReadFrame(input)
      {
        assert arrivals[next..][1..] == arrivals[next + 1..];
        assert all == input + arrivals[next] + Joined(arrivals[next + 1..]);
        input := input + arrivals[next];
        next := next + 1;
        r := ReadFrame(input);
      }
      DecidedForGood(input, Joined(arrivals[next..]));
      if r.Got? {
        input := r.rest;
      } else {
        NothingMore(input, Joined(arrivals[next..]));
      }
    }

    /**
     _read_loop() until the stream ends, a close frame or an oversized frame. How the octets are cut into
     arrivals makes no difference.
     */
    method ReadLoop(arrivals: seq<seq<Byte>>, masks: nat -> Mask)
      requires reading
      modifies this
      ensures var r := Reacts(old(input) + Joined(arrivals), masks, 0);
              && written == old(written) + r.written
              && pongs == old(pongs) + Confirmations(r.pongs) + [false]
      ensures !alive && !reading && waiting == old(waiting)
    {
      var next: nat := 0;
      ghost var all := input + Joined(arrivals);
      ghost var goal := Reacts(all, masks, 0);
      ghost var firstWritten, firstPongs := written, pongs;
      var k: nat := 0;
      var going := true;
      assert arrivals[0..] == arrivals;
      hide Encode, ConfirmsFlush, ReadFrame, Reacts, Joined, Ahead;
      AheadStarts(written, pongs, goal);
      while going
        invariant next <= |arrivals| && reading && waiting == old(waiting)
        invariant going ==> all == input + Joined(arrivals[next..])
        invariant Ahead(firstWritten, firstPongs, goal, written, pongs,
                        if going then Reacts(all, masks, k) else Reaction([], 0))
        decreases going, |all|
      {
        var r;
        r, next := NextFrame(arrivals, next);
        if !r.Got? {
          going := false;
        } else {
          AnswerUnfolds(all, masks, k);
          if r.opcode == CLOSE {
            going := false;
          } else {
            ghost var wasWritten, wasPongs := written, pongs;
            var drew := Handle(r.opcode, r.payload, masks(k));
            AheadByOne(firstWritten, firstPongs, goal, wasWritten, wasPongs, written, pongs, all, masks, k);
            all := input + Joined(arrivals[next..]);
            if drew {
              k := k + 1;
            }
          }
        }
      }
      AheadEnds(firstWritten, firstPongs, goal, written, pongs);
      Stop();
    }
  }

  // ----- pacing -----

  /** The time an endpoint needs for n reports. */
  function Span(n: nat, interval: real): real {
    n as real * interval
  }

  function Later(a: real, b: real): real {
    if a < b then b else a
  }

  /** A group of reports: the clock when it is asked for, the clock after the sleep if there is one, its size. */
  datatype Group = Group(now: real, woke: real, reports: nat)

  /** When it is sent. */
  function SentAt(g: Group, freeAt: real): real {
    if freeAt > g.now then g.woke else g.now
  }

  /** When the endpoint is free again. */
  function FreeAfter(g: Group, freeAt: real, interval: real): real {
    Later(SentAt(g, freeAt), freeAt) + Span(g.reports, interval)
  }

  /** _slot() */
  method Slot(g: Group, freeAt: real, interval: real) returns (at: real, nextFree: real)
    ensures at == SentAt(g, freeAt)
    ensures nextFree == FreeAfter(g, freeAt, interval)
  {
    at := g.now;
    if freeAt > at {
      at := g.woke;
    }
    nextFree := (if at < freeAt then freeAt else at) + g.reports as real * interval;
  }

  /** Send times of consecutive groups. */
  function Sent(groups: seq<Group>, freeAt: real, interval: real): (at: seq<real>)
    ensures |at| == |groups|
  {
    if groups == [] then []
    else [SentAt(groups[0], freeAt)] + Sent(groups[1..], FreeAfter(groups[0], freeAt, interval), interval)
  }

  /** No sleep ends more than early before it is due; it may end as late as it likes. */
  predicate Wakes(groups: seq<Group>, freeAt: real, interval: real, early: real) {
    groups == [] ||
    (SentAt(groups[0], freeAt) >= freeAt - early &&
     Wakes(groups[1..], FreeAfter(groups[0], freeAt, interval), interval, early))
  }

  function Total(groups: seq<Group>): nat {
    if groups == [] then 0 else groups[0].reports + Total(groups[1..])
  }

  /** Nothing is sent before the reports ahead of it have had their intervals, but for one early waking. */
  lemma {:induction false} SentAfter(groups: seq<Group>, freeAt: real, interval: real, early: real, j: nat)
    requires j < |groups| && Wakes(groups, freeAt, interval, early)
    ensures Sent(groups, freeAt, interval)[j] >= freeAt + Span(Total(groups[..j]), interval) - early
  {
    assert Span(0, interval) == 0.0;
    if j == 0 {
      assert groups[..0] == [];
    } else {
      var rest, free := groups[1..], FreeAfter(groups[0], freeAt, interval);
      SentAfter(rest, free, interval, early, j - 1);
      assert groups[..j][0] == groups[0] && groups[..j][1..] == rest[..j - 1];
      Distribute(groups[0].reports, Total(rest[..j - 1]), interval);
      hide Span;
      assert Sent(groups, freeAt, interval)[j] == Sent(rest, free, interval)[j - 1];
    }
  }

  /**
   However groups are asked for and however late sleeps end, between any two the endpoint has an interval for
   every report sent from the first on, up to one early waking; early wakings do not add up.
   */
  lemma {:induction false} PacedBy(groups: seq<Group>, freeAt: real, interval: real, early: real, i: nat, j: nat)
    requires i < j < |groups| && Wakes(groups, freeAt, interval, early)
    ensures var at := Sent(groups, freeAt, interval);
            at[j] >= at[i] + Span(Total(groups[i..j]), interval) - early
  {
    hide Span, Sent, Wakes, Total;
    var rest, free := groups[1..], FreeAfter(groups[0], freeAt, interval);
    SentOfRest(groups, freeAt, interval, early, j);
    if i > 0 {
      SentOfRest(groups, freeAt, interval, early, i);
      PacedBy(rest, free, interval, early, i - 1, j - 1);
      SliceOfRest(groups, i, j);
    } else {
      SentAfter(rest, free, interval, early, j - 1);
      TotalOfRest(groups, j);
      Distribute(groups[0].reports, Total(rest[..j - 1]), interval);
    }
  }

  lemma SentOfRest(groups: seq<Group>, freeAt: real, interval: real, early: real, j: nat)
    requires 0 < j < |groups| && Wakes(groups, freeAt, interval, early)
    ensures var free := FreeAfter(groups[0], freeAt, interval);
            && Sent(groups, freeAt, interval)[0] == SentAt(groups[0], freeAt)
            && Sent(groups, freeAt, interval)[j] == Sent(groups[1..], free, interval)[j - 1]
            && Wakes(groups[1..], free, interval, early)
  {
  }

  lemma SliceOfRest(groups: seq<Group>, i: nat, j: nat)
    requires 0 < i <= j <= |groups|
    ensures groups[i..j] == groups[1..][i - 1..j - 1]
  {
    forall k | 0 <= k < j - i
      ensures groups[i..j][k] == groups[1..][i - 1..j - 1][k]
    {
      assert groups[i..j][k] == groups[i + k];
      assert groups[1..][i - 1 + k] == groups[i + k];
    }
  }

  lemma TotalOfRest(groups: seq<Group>, j: nat)
    requires 0 < j <= |groups|
    ensures Total(groups[0..j]) == groups[0].reports + Total(groups[1..][..j - 1])
  {
    assert groups[0..j][0] == groups[0] && groups[0..j][1..] == groups[1..][..j - 1];
  }

  lemma Distribute(a: nat, b: nat, interval: real)
    ensures Span(a + b, interval) == Span(a, interval) + Span(b, interval)
  {
    assert (a + b) as real == a as real + b as real;
  }
}
