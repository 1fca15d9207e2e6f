/**
 Messages over a byte stream (src/core.cpp:20-35 and 80-92): what any splitting of reads and writes, and any
 interleaving of the two ends, lets through.
 */
module Messages {
  import opened Common
  import opened Wire

  // ----- messages over a byte stream -----

  function Encode(m: Message): seq<Byte> {
    Layout(m.h) + m.bytes
  }

  function EncodeAll(ms: seq<Message>): seq<Byte> {
    if ms == [] then [] else Encode(ms[0]) + EncodeAll(ms[1..])
  }

  /** One message from the front of the stream, and what is left. */
  function Decode(s: seq<Byte>): Option<(Message, seq<Byte>)> {
    if |s| < HEADER_SIZE then None
    else
      match Unpack(s[..HEADER_SIZE])
      case Err(_) => None
      case Ok(h) =>
        if |s| < HEADER_SIZE + h.size then None
        else Some((Message(h, s[HEADER_SIZE..HEADER_SIZE + h.size]), s[HEADER_SIZE + h.size..]))
  }

  function DecodeAll(s: seq<Byte>): Option<seq<Message>>
    decreases |s|
  {
    if s == [] then Some([])
    else
      match Decode(s)
      case None => None
      case Some((m, rest)) =>
        if |s| <= |rest| then None
        else
          match DecodeAll(rest)
          case None => None
          case Some(ms) => Some([m] + ms)
  }

  predicate Sendable(m: Message) {
    Wellformed(m.h) && m.h.size == |m.bytes|
  }

  lemma DecodeOfEncode(m: Message, rest: seq<Byte>)
    requires Sendable(m)
    ensures Decode(Encode(m) + rest) == Some((m, rest))
  {
    UnpackOfLayout(m.h);
    assert (Encode(m) + rest)[..HEADER_SIZE] == Layout(m.h);
  }

  lemma DecodeAllOfEncode(m: Message, rest: seq<Byte>)
    requires Sendable(m) && DecodeAll(rest).Some?
    ensures DecodeAll(Encode(m) + rest) == Some([m] + DecodeAll(rest).value)
  {
    DecodeOfEncode(m, rest);
    var s := Encode(m) + rest;
    assert |s| > |rest| && s != [];
  }

  lemma DecodeAllOfNothing()
    ensures DecodeAll([]) == Some([])
  {
  }

  /** Any sequence of messages is received as it was sent, with no byte left over. */
  lemma {:induction false} StreamRoundTrip(ms: seq<Message>)
    requires forall i :: 0 <= i < |ms| ==> Sendable(ms[i])
    ensures DecodeAll(EncodeAll(ms)) == Some(ms)
  {
    hide Encode, Decode, DecodeAll, Sendable;
    if ms == [] {
      DecodeAllOfNothing();
    } else {
      var m, rest := ms[0], ms[1..];
      StreamRoundTrip(rest);
      DecodeAllOfEncode(m, EncodeAll(rest));
      assert ms == [m] + rest;
    }
  }

  // ----- two ends of one stream -----

  /**
   One direction of the socket pair with a sender and a receiver that take turns in any order, each moving any
   number of bytes. writing is what is left of the message being sent, reading what has come of the next one.
   */
  datatype Ends = Ends(
    todo: seq<Message>, sent: seq<Message>, writing: seq<Byte>, channel: seq<Byte>, reading: seq<Byte>,
    received: seq<Message>, refused: bool)

  datatype Move = Begin | Write(n: nat) | Read(n: nat)

  function Min(a: nat, b: nat): nat { if a <= b then a else b }

  /** How many more bytes receive() asks for: the rest of the header, then the rest of the payload. */
  function Need(reading: seq<Byte>): nat {
    if |reading| < HEADER_SIZE then HEADER_SIZE - |reading|
    else
      match Unpack(reading[..HEADER_SIZE])
      case Err(_) => 0
      case Ok(h) => if HEADER_SIZE + h.size <= |reading| then 0 else HEADER_SIZE + h.size - |reading|
  }

  /** With nothing more needed the message is delivered, or the header refused. */
  function Settle(e: Ends): Ends {
    if 0 < Need(e.reading) then e
    else
      match Decode(e.reading)
      case None => e.(refused := true)
      case Some((m, rest)) => e.(received := e.received + [m], reading := rest)
  }

  function Step(e: Ends, move: Move): Ends {
    match move
    case Begin =>
      if e.writing != [] || e.todo == [] then e
      else e.(todo := e.todo[1..], sent := e.sent + [e.todo[0]], writing := Encode(e.todo[0]))
    case Write(n) =>
      var used := Min(n, |e.writing|);
      e.(writing := e.writing[used..], channel := e.channel + e.writing[..used])
    case Read(n) =>
      var used := Min(Min(n, Need(e.reading)), |e.channel|);
      if e.refused || used == 0 then e
      else Settle(e.(reading := e.reading + e.channel[..used], channel := e.channel[used..]))
  }

  function Run(ms: seq<Message>, moves: seq<Move>): Ends {
    if moves == [] then Ends(ms, [], [], [], [], [], false)
    else Step(Run(ms, moves[..|moves| - 1]), moves[|moves| - 1])
  }

  ghost predicate AllSendable(ms: seq<Message>) {
    forall i :: 0 <= i < |ms| ==> Sendable(ms[i])
  }

  /** What is under way is exactly the messages begun and not yet received. */
  ghost predicate UnderWay(e: Ends, ms: seq<Message>) {
    && e.sent + e.todo == ms && AllSendable(ms)
    && |e.received| <= |e.sent| && e.received == e.sent[..|e.received|]
    && e.reading + e.channel + e.writing == EncodeAll(e.sent[|e.received|..])
    && !e.refused
  }

  /** And the message being received is not complete. */
  ghost predicate EndsInv(e: Ends, ms: seq<Message>) {
    UnderWay(e, ms) && 0 < Need(e.reading)
  }

  lemma {:induction false} EncodeAllSnoc(ms: seq<Message>, m: Message)
    ensures EncodeAll(ms + [m]) == EncodeAll(ms) + Encode(m)
  {
    if ms == [] {
      assert [m][1..] == [] && [] + [m] == [m];
    } else {
      assert (ms + [m])[1..] == ms[1..] + [m];
      EncodeAllSnoc(ms[1..], m);
    }
  }

  /** Of a message that is coming nothing more is needed exactly when all of it has come. */
  lemma NeedOfPart(m: Message, part: seq<Byte>, rest: seq<Byte>, after: seq<Byte>)
    requires Sendable(m) && part + rest == Encode(m) + after && |part| <= |Encode(m)|
    ensures Need(part) == 0 <==> part == Encode(m)
  {
    assert part == Encode(m)[..|part|] by {
      assert part == (part + rest)[..|part|];
    }
    if HEADER_SIZE <= |part| {
      assert part[..HEADER_SIZE] == Layout(m.h);
      UnpackOfLayout(m.h);
    }
  }

  lemma BeginKeeps(e: Ends, ms: seq<Message>)
    requires EndsInv(e, ms)
    ensures EndsInv(Step(e, Begin), ms)
  {
    if e.writing == [] && e.todo != [] {
      var t := Step(e, Begin);
      EncodeAllSnoc(e.sent[|e.received|..], e.todo[0]);
      assert t.sent[|e.received|..] == e.sent[|e.received|..] + [e.todo[0]];
      assert e.todo == [e.todo[0]] + e.todo[1..];
      assert e.reading + e.channel + [] == e.reading + e.channel;
      hide Need, Encode, EncodeAll;
      assert t.sent + t.todo == ms;
    }
  }

  lemma WriteKeeps(e: Ends, ms: seq<Message>, n: nat)
    requires EndsInv(e, ms)
    ensures EndsInv(Step(e, Write(n)), ms)
  {
    hide Need, Encode, EncodeAll;
    var used := Min(n, |e.writing|);
    assert e.writing == e.writing[..used] + e.writing[used..];
    assert e.reading + e.channel + e.writing == e.reading + (e.channel + e.writing[..used]) + e.writing[used..];
  }

  /** Something is under way, so it begins with the next message. */
  lemma NextUnderWay(e: Ends, ms: seq<Message>) returns (m: Message, after: seq<Byte>)
    requires UnderWay(e, ms) && |e.received| < |e.sent|
    ensures m == e.sent[|e.received|] && Sendable(m) && after == EncodeAll(e.sent[|e.received| + 1..])
    ensures e.reading + (e.channel + e.writing) == Encode(m) + after
  {
    hide Need, Encode, Sendable;
    var k := |e.received|;
    m, after := e.sent[k], EncodeAll(e.sent[k + 1..]);
    assert ms[k] == m;
    assert e.sent[k..][1..] == e.sent[k + 1..] && e.sent[k..][0] == m;
    assert e.reading + e.channel + e.writing == e.reading + (e.channel + e.writing);
  }

  /** The bytes just read complete the next message or leave it incomplete. */
  lemma ReadSettles(part: seq<Byte>, rest: seq<Byte>, m: Message, after: seq<Byte>)
    requires Sendable(m) && part + rest == Encode(m) + after && |part| <= |Encode(m)|
    ensures 0 < Need(part) || (part == Encode(m) && rest == after && Decode(part) == Some((m, [])))
  {
    NeedOfPart(m, part, rest, after);
    if Need(part) == 0 {
      DecodeOfEncode(m, []);
      assert Encode(m) + [] == Encode(m);
      assert rest == (part + rest)[|part|..] == (Encode(m) + after)[|part|..] == after;
    }
  }

  lemma SettleKeeps(e: Ends, ms: seq<Message>, m: Message, after: seq<Byte>)
    requires UnderWay(e, ms) && |e.received| < |e.sent| && m == e.sent[|e.received|] && Sendable(m)
    requires after == EncodeAll(e.sent[|e.received| + 1..])
    requires e.reading + (e.channel + e.writing) == Encode(m) + after && |e.reading| <= |Encode(m)|
    ensures EndsInv(Settle(e), ms)
  {
    hide Need, Encode, EncodeAll, Decode, Sendable;
    ReadSettles(e.reading, e.channel + e.writing, m, after);
    NeedOfNothing();
    if Need(e.reading) == 0 {
      var t := Settle(e);
      assert t.received == e.sent[..|e.received| + 1];
      assert t.reading + t.channel + t.writing == e.channel + e.writing;
    }
  }

  lemma ReadKeeps(e: Ends, ms: seq<Message>, n: nat)
    requires EndsInv(e, ms)
    ensures EndsInv(Step(e, Read(n)), ms)
  {
    var used := Min(Min(n, Need(e.reading)), |e.channel|);
    if used > 0 {
      hide Need, Encode, EncodeAll, Decode, Sendable, Settle;
      if |e.received| == |e.sent| {
        NothingToEncode(e);
      }
      var m, after := NextUnderWay(e, ms);
      PartWithin(m, e.reading, e.channel + e.writing, after, used);
      var d := e.(reading := e.reading + e.channel[..used], channel := e.channel[used..]);
      Shifted(e.reading, e.channel, e.writing, used);
      SettleKeeps(d, ms, m, after);
    }
  }

  lemma Shifted(a: seq<Byte>, b: seq<Byte>, c: seq<Byte>, used: nat)
    requires used <= |b|
    ensures (a + b[..used]) + b[used..] + c == a + b + c
    ensures (a + b[..used]) + (b[used..] + c) == a + (b + c)
  {
    assert b == b[..used] + b[used..];
  }

  lemma NothingToEncode(e: Ends)
    requires |e.received| == |e.sent| && e.reading + e.channel + e.writing == EncodeAll(e.sent[|e.received|..])
    ensures e.channel == [] && e.reading == [] && e.writing == []
  {
    assert e.sent[|e.received|..] == [];
    assert |e.reading + e.channel + e.writing| == 0;
  }

  lemma NeedOfNothing()
    ensures Need([]) == HEADER_SIZE
  {
  }

  /** Reading no more than is needed never goes beyond the message. */
  lemma PartWithin(m: Message, part: seq<Byte>, rest: seq<Byte>, after: seq<Byte>, used: nat)
    requires Sendable(m) && part + rest == Encode(m) + after && used <= Need(part) && 0 < Need(part)
    ensures |part| + used <= |Encode(m)|
  {
    if |part| < HEADER_SIZE {
    } else {
      assert part[..HEADER_SIZE] == (part + rest)[..HEADER_SIZE] == Layout(m.h);
      UnpackOfLayout(m.h);
    }
  }

  /**
   However the two ends' reads and writes are split and interleaved, what is received is always the first of
   what was sent, no header is refused, and with nothing left under way everything has been received.
   */
  lemma {:induction false} ReceivedAsSent(ms: seq<Message>, moves: seq<Move>)
    requires AllSendable(ms)
    ensures var e := Run(ms, moves);
            && EndsInv(e, ms)
            && e.received <= ms && !e.refused
            && (e.todo == [] && e.writing == [] && e.channel == [] ==> e.received == ms)
  {
    if moves == [] {
      NeedOfNothing();
    } else {
      var e, move := Run(ms, moves[..|moves| - 1]), moves[|moves| - 1];
      ReceivedAsSent(ms, moves[..|moves| - 1]);
      hide Step, EndsInv;
      match move
      case Begin => BeginKeeps(e, ms);
      case Write(n) => WriteKeeps(e, ms, n);
      case Read(n) => ReadKeeps(e, ms, n);
    }
    NothingUnderWay(Run(ms, moves), ms);
  }

  lemma NothingUnderWay(e: Ends, ms: seq<Message>)
    requires EndsInv(e, ms)
    ensures e.received <= ms
    ensures e.todo == [] && e.writing == [] && e.channel == [] ==> e.received == ms
  {
    if e.todo == [] && e.writing == [] && e.channel == [] && |e.received| < |e.sent| {
      var m, after := NextUnderWay(e, ms);
      assert e.channel + e.writing == [];
      PartWithin(m, e.reading, [], after, Need(e.reading));
      assert false;
    }
  }

  // ----- the socket -----

  /** What one turn of io() can meet; the other end may read or write in between. */
  datatype Turn = Moves(n: nat) | Again | Fails | PeerReads(n: nat) | PeerWrites(bytes: seq<Byte>)

  /** Every turn moves something, and there are enough of them for n bytes. */
  ghost predicate Steady(turns: seq<Turn>, n: nat) {
    n <= |turns| && forall i :: 0 <= i < |turns| ==> turns[i].Moves? && 0 < turns[i].n
  }

  /** What the other end writes meanwhile. */
  function Arrived(turns: seq<Turn>): seq<Byte> {
    if turns == [] then []
    else
      var last := turns[|turns| - 1];
      Arrived(turns[..|turns| - 1]) + (if last.PeerWrites? then last.bytes else [])
  }

  lemma Prefixes(a: seq<Byte>, b: seq<Byte>)
    ensures forall k :: 0 <= k <= |a| ==> (a + b)[..k] == a[..k]
    ensures forall k :: 0 <= k <= |b| ==> (a + b)[..|a| + k] == a + b[..k]
  {
  }

  /** From turn k on all that is wanted is there and every turn moves something. */
  ghost predicate ServedFrom(turns: seq<Turn>, k: nat, have: nat, want: nat) {
    && k <= |turns| && (forall i :: 0 <= i < k ==> !turns[i].Fails?)
    && want <= have + |Arrived(turns[..k])| && Steady(turns[k..], want)
  }

  /** Enough for any message. */
  ghost predicate ServesMessage(turns: seq<Turn>, k: nat, have: nat) {
    ServedFrom(turns, k, have, HEADER_SIZE + MAX_AU)
  }

  lemma {:induction false} ArrivedGrows(turns: seq<Turn>, k: nat, i: nat)
    requires k <= i <= |turns|
    ensures Arrived(turns[..k]) <= Arrived(turns[..i])
  {
    if k < i {
      ArrivedGrows(turns, k, i - 1);
      assert turns[..i][..i - 1] == turns[..i - 1];
    }
  }

  /** One direction of the socket pair; written and read are all the bytes that ever went in and came out. */
  class Socket {
    var inFlight: seq<Byte>
    ghost var written: seq<Byte>
    ghost var read: seq<Byte>

    ghost predicate Valid()
      reads this
    {
      written == read + inFlight
    }

    constructor ()
      ensures Valid() && inFlight == [] && written == [] && read == []
    {
      inFlight, written, read := [], [], [];
    }

    /**
     io(..., writing=true): the turns end when all is written, at a failure, or at the deadline. The other end
     may take bytes out meanwhile.
     */
    method WriteAll(data: seq<Byte>, turns: seq<Turn>) returns (ok: bool, at: nat)
      requires Valid()
      modifies this
      ensures Valid() && old(read) <= read
      ensures at <= |data| && written == old(written) + data[..at] && (ok <==> at == |data|)
      ensures Steady(turns, |data|) ==> ok
    {
      at := 0;
      var i: nat := 0;
      while at < |data| && i < |turns|
        invariant at <= |data| && written == old(written) + data[..at]
        invariant Valid() && old(read) <= read
        invariant i <= |turns| && (Steady(turns, |data|) ==> Min(i, |data|) <= at)
        decreases |turns| - i
      {
        match turns[i] {
          case Moves(n) =>
            var used := Min(n, |data| - at);
            assert data[..at + used] == data[..at] + data[at..at + used];
            Push(data[at..at + used]);
            at := at + used;
          case PeerReads(n) => var taken := Pull(n);
          case Fails =>
            ok := false;
            return;
          case Again =>
          case PeerWrites(_) => // the other direction
        }
        i := i + 1;
      }
      ok := at == |data|;
    }

    method Push(bytes: seq<Byte>)
      requires Valid()
      modifies this`inFlight, this`written
      ensures Valid() && written == old(written) + bytes && inFlight == old(inFlight) + bytes
    {
      inFlight := inFlight + bytes;
      written := written + bytes;
    }

    method Pull(n: nat) returns (bytes: seq<Byte>)
      requires Valid()
      modifies this`inFlight, this`read
      ensures Valid() && bytes + inFlight == old(inFlight) && |bytes| == Min(n, old(|inFlight|))
      ensures read == old(read) + bytes
    {
      var k := Min(n, |inFlight|);
      bytes := inFlight[..k];
      inFlight := inFlight[k..];
      read := read + bytes;
    }

    /**
     io(..., writing=false) for exactly want bytes, while the other end goes on writing: a read takes no more
     than has arrived. It succeeds if all that is wanted arrives and the turns that follow suffice.
     */
    method ReadAll(want: nat, turns: seq<Turn>) returns (data: seq<Byte>, ok: bool, used: nat)
      requires Valid()
      modifies this
      ensures Valid() && read == old(read) + data && |data| <= want && (ok <==> |data| == want)
      ensures old(written) <= written
      ensures used <= |turns| && data + inFlight == old(inFlight) + Arrived(turns[..used])
      ensures forall k: nat :: ServedFrom(turns, k, old(|inFlight|), want) ==> ok && used <= k + want
    {
      data, used := [], 0;
      ghost var have := |inFlight|;
      while |data| < want && used < |turns|
        invariant Valid() && read == old(read) + data && |data| <= want && old(written) <= written
        invariant used <= |turns| && data + inFlight == old(inFlight) + Arrived(turns[..used])
        invariant forall k: nat :: ServedFrom(turns, k, have, want) && k <= used ==> used - k <= |data|
        decreases |turns| - used
      {
        ghost var before := data;
        assert turns[..used + 1][..used] == turns[..used];
        forall k: nat | ServedFrom(turns, k, have, want) && k <= used
          ensures turns[used].Moves? && 0 < turns[used].n && |data| < want <= have + |Arrived(turns[..used])|
        {
          assert turns[k..][used - k] == turns[used];
          ArrivedGrows(turns, k, used);
        }
        match turns[used] {
          case Moves(n) =>
            var bytes := Pull(Min(n, want - |data|));
            assert data + bytes + inFlight == data + (bytes + inFlight);
            data := data + bytes;
          case PeerWrites(bytes) =>
            Push(bytes);
            assert data + inFlight == old(inFlight) + Arrived(turns[..used]) + bytes;
          case Fails =>
            ok := false;
            return;
          case Again =>
          case PeerReads(_) => // the other direction
        }
        used := used + 1;
      }
      ok := |data| == want;
    }

    /** send(): one deadline over header and payload. What goes in is the message, or on a fault a part of it. */
    method Send(m: Message, headTurns: seq<Turn>, bodyTurns: seq<Turn>) returns (r: Result<(), WireError>)
      requires Valid()
      modifies this
      ensures Valid() && old(read) <= read
      ensures r.Ok? ==> m.h.size == |m.bytes| && written == old(written) + Encode(m)
      ensures r == Err(Transport) ==> exists k :: 0 <= k <= |Encode(m)| && written == old(written) + Encode(m)[..k]
      ensures m.h.size != |m.bytes| ==> r == Err(SizeMismatch) && written == old(written)
      ensures m.h.size == |m.bytes| && MAX_AU < m.h.size ==> r == Err(Oversize) && written == old(written)
      ensures Steady(headTurns, HEADER_SIZE) && Steady(bodyTurns, |m.bytes|) && Sendable(m) ==> r.Ok?
    {
      if m.h.size != |m.bytes| {
        return Err(SizeMismatch);
      }
      var packed := Pack(m.h);
      if packed.Err? {
        return Err(Oversize);
      }
      var head := packed.value[..];
      assert Encode(m) == head + m.bytes;
      hide Layout, Encode, Unpack, Sendable;
      var ok, at := WriteAll(head, headTurns);
      Prefixes(head, m.bytes);
      if !ok {
        return Err(Transport);
      }
      ok, at := WriteAll(m.bytes, bodyTurns);
      assert written == old(written) + (head + m.bytes[..at]);
      assert Encode(m)[..|head| + at] == head + m.bytes[..at];
      if !ok {
        return Err(Transport);
      }
      return Ok(());
    }

    /** receive(): one deadline over header and payload. It takes out exactly the message it returns. */
    method Receive(turns: seq<Turn>) returns (r: Result<Message, WireError>)
      requires Valid()
      modifies this
      ensures Valid() && old(written) <= written
      ensures r.Ok? ==> Sendable(r.value) && read == old(read) + Encode(r.value)
      ensures r.Err? && r.error != Transport ==>
                exists head :: |head| == HEADER_SIZE && read == old(read) + head && Unpack(head) == Err(r.error)
      ensures forall k: nat :: ServesMessage(turns, k, old(|inFlight|)) ==> r.Ok? || r.error != Transport
    {
      hide Layout, Unpack, Encode, Sendable;
      var head, ok, used := ReadAll(HEADER_SIZE, turns);
      RefusedHeader(head);
      forall k: nat | ServesMessage(turns, k, old(|inFlight|))
        ensures ok && exists j: nat :: ServedFrom(turns[used..], j, |inFlight|, MAX_AU)
      {
        hide Arrived;
        assert ServedFrom(turns, k, old(|inFlight|), HEADER_SIZE);
        ServedOn(turns, k, old(|inFlight|), used, |inFlight|);
      }
      if !ok {
        return Err(Transport);
      }
      hide ServesMessage, ServedFrom;
      match Unpack(head) {
        case Err(e) => return Err(e);
        case Ok(h) =>
          r := ReceiveBody(head, h, turns[used..]);
      }
    }

    /** The payload after an accepted header. */
    method ReceiveBody(head: seq<Byte>, h: Header, turns: seq<Turn>) returns (r: Result<Message, WireError>)
      requires Valid() && |head| == HEADER_SIZE && Unpack(head) == Ok(h)
      modifies this
      ensures Valid() && old(written) <= written
      ensures r.Err? ==> r.error == Transport
      ensures r.Ok? ==> Sendable(r.value) && Encode(r.value) == head + r.value.bytes
      ensures r.Ok? ==> read == old(read) + r.value.bytes
      ensures forall j: nat :: ServedFrom(turns, j, old(|inFlight|), MAX_AU) ==> r.Ok?
    {
      LayoutOfUnpack(head);
      hide Layout, Unpack;
      var body, done, used := ReadAll(h.size, turns);
      forall j: nat | ServedFrom(turns, j, old(|inFlight|), MAX_AU)
        ensures done
      {
        assert ServedFrom(turns, j, old(|inFlight|), h.size);
      }
      if !done {
        return Err(Transport);
      }
      return Ok(Message(h, body));
    }
  }

  lemma RefusedHeader(head: seq<Byte>)
    ensures Unpack(head) != Err(Transport)
  {
  }

  lemma {:induction false} ArrivedConcat(a: seq<Turn>, b: seq<Turn>)
    ensures Arrived(a + b) == Arrived(a) + Arrived(b)
  {
    if b == [] {
      assert a + b == a;
    } else {
      assert (a + b)[..|a + b| - 1] == a + b[..|b| - 1];
      ArrivedConcat(a, b[..|b| - 1]);
    }
  }

  lemma SteadyLess(turns: seq<Turn>, want: nat, less: nat)
    requires Steady(turns, want) && less <= want
    ensures Steady(turns, less)
  {
  }

  lemma NoneFails(turns: seq<Turn>, used: nat, k: nat)
    requires used <= k <= |turns| && forall i :: 0 <= i < k ==> !turns[i].Fails?
    ensures forall i :: 0 <= i < k - used ==> !turns[used..][i].Fails?
  {
  }

  lemma ServedLater(turns: seq<Turn>, k: nat, before: nat, used: nat, have: nat)
    requires ServesMessage(turns, k, before) && used <= k
    requires HEADER_SIZE + have == before + |Arrived(turns[..used])|
    ensures ServedFrom(turns[used..], k - used, have, MAX_AU)
  {
    hide Arrived, Steady;
    var rest, j := turns[used..], k - used;
    assert turns[..k] == turns[..used] + rest[..j];
    ArrivedConcat(turns[..used], rest[..j]);
    NoneFails(turns, used, k);
    assert rest[j..] == turns[k..];
    SteadyLess(turns[k..], HEADER_SIZE + MAX_AU, MAX_AU);
  }

  lemma ServedAlready(turns: seq<Turn>, k: nat, before: nat, used: nat, have: nat)
    requires ServesMessage(turns, k, before) && k < used <= |turns| && used <= k + HEADER_SIZE
    requires HEADER_SIZE + have == before + |Arrived(turns[..used])|
    ensures ServedFrom(turns[used..], 0, have, MAX_AU)
  {
    var rest := turns[used..];
    ArrivedGrows(turns, k, used);
    forall i | 0 <= i < |rest|
      ensures rest[i].Moves? && 0 < rest[i].n
    {
      assert rest[i] == turns[k..][used - k + i];
    }
    assert rest[..0] == [] && rest[0..] == rest;
  }

  /** Having read a header in used turns, the rest still serves the largest payload. */
  lemma ServedOn(turns: seq<Turn>, k: nat, before: nat, used: nat, have: nat)
    requires ServesMessage(turns, k, before)
    requires used <= |turns| && used <= k + HEADER_SIZE
    requires HEADER_SIZE + have == before + |Arrived(turns[..used])|
    ensures exists j: nat :: ServedFrom(turns[used..], j, have, MAX_AU)
  {
    hide ServedFrom, ServesMessage, Arrived;
    if used <= k {
      ServedLater(turns, k, before, used, have);
    } else {
      ServedAlready(turns, k, before, used, have);
    }
  }
}
