/**
 The private worker protocol (src/core.cpp): little-endian fields, the 64-byte header, and messages
 over a byte stream whose reads and writes may be split anywhere.
 */
module Wire {
  import opened Common

  type U16 = x: int | 0 <= x < 0x1_0000
  type U32 = x: int | 0 <= x < 0x1_0000_0000
  type U64 = x: int | 0 <= x < 0x1_0000_0000_0000_0000

  const MAX_AU: nat := 8 * 1024 * 1024
  const HEADER_SIZE: nat := 64
  const MAX_DIAGNOSTIC: nat := 1024
  const MAGIC: seq<Byte> := [0x52, 0x4B, 0x4D, 0x46] // RKMF

  const FRAME: U16 := 1
  const ERROR: U16 := 8
  const FLAG_IDR: nat := 1
  const FLAG_MASK: nat := 15
  const H264: U16 := 1
  const HEVC: U16 := 2

  datatype Header = Header(
    kind: U16, size: U32, flags: U32, seqNo: U64, dequeueUs: U64, submitUs: U64, doneUs: U64,
    width: U32, height: U32, codec: U16, extra: U32)

  datatype Message = Message(h: Header, bytes: seq<Byte>)

  datatype WireError = Oversize | BadVersion | BadFields | ControlPayload | BadDiagnostic | SizeMismatch | Transport

  // ----- little-endian fields -----

  function Pow256(n: nat): (p: nat)
    ensures 0 < p
  {
    if n == 0 then 1 else 256 * Pow256(n - 1)
  }

  function LittleEndian(v: nat, n: nat): (s: seq<Byte>)
    ensures |s| == n
  {
    if n == 0 then [] else [v % 256] + LittleEndian(v / 256, n - 1)
  }

  function Value(s: seq<Byte>): (v: nat)
    ensures v < Pow256(|s|)
  {
    if s == [] then 0 else s[0] + 256 * Value(s[1..])
  }

  lemma {:induction false} ValueOfLittleEndian(v: nat, n: nat)
    requires v < Pow256(n)
    ensures Value(LittleEndian(v, n)) == v
  {
    if n > 0 {
      ValueOfLittleEndian(v / 256, n - 1);
      assert LittleEndian(v, n)[1..] == LittleEndian(v / 256, n - 1);
    }
  }

  lemma LowByte(x: Byte, v: nat)
    ensures (x + 256 * v) % 256 == x && (x + 256 * v) / 256 == v
  {}

  lemma {:induction false} LittleEndianOfValue(s: seq<Byte>)
    ensures LittleEndian(Value(s), |s|) == s
  {
    if s != [] {
      LittleEndianOfValue(s[1..]);
      LowByte(s[0], Value(s[1..]));
      assert s == [s[0]] + s[1..];
    }
  }

  lemma MultiplesApart(k: nat, q: nat, d: nat)
    requires q < k
    ensures q * d + d <= k * d
  {
    var gap := k - q - 1;
    assert k * d == (q + 1 + gap) * d == q * d + d + gap * d;
    assert 0 <= gap * d;
  }

  lemma QuotientUnique(x: nat, q: nat, d: nat, r: nat)
    requires x == q * d + r && r < d
    ensures x / d == q
  {
    assert x == x / d * d + x % d;
    if x / d < q {
      MultiplesApart(q, x / d, d);
    } else if q < x / d {
      MultiplesApart(x / d, q, d);
    }
  }

  /** Shifting by one byte and then by n more is shifting by n + 1. */
  lemma ShiftTwice(v: nat, n: nat)
    ensures v / Pow256(n + 1) == v / 256 / Pow256(n)
  {
    var d := Pow256(n);
    var w := v / 256;
    var q := w / d;
    assert w == q * d + w % d;
    assert v == 256 * (q * d + w % d) + v % 256;
    assert v == q * (256 * d) + (256 * (w % d) + v % 256);
    QuotientUnique(v, q, 256 * d, 256 * (w % d) + v % 256);
  }

  lemma {:induction false} LittleEndianAt(v: nat, n: nat, i: nat)
    requires i < n
    ensures LittleEndian(v, n)[i] == v / Pow256(i) % 256
  {
    if i > 0 {
      LittleEndianAt(v / 256, n - 1, i - 1);
      ShiftTwice(v, i - 1);
    }
  }

  lemma {:induction false} ValueSnoc(s: seq<Byte>, x: Byte)
    ensures Value(s + [x]) == Value(s) + x * Pow256(|s|)
  {
    if s == [] {
      assert s + [x] == [x];
      assert Value([x]) == x + 256 * Value([x][1..]);
    } else {
      ValueSnoc(s[1..], x);
      assert (s + [x])[1..] == s[1..] + [x];
      assert 256 * (x * Pow256(|s| - 1)) == x * Pow256(|s|);
    }
  }

  /** put(): the low n bytes of v, lowest first, at p[at..]. */
  method Put(p: array<Byte>, at: nat, v: nat, n: nat)
    requires at + n <= p.Length
    modifies p
    ensures p[..at + n] == old(p[..at]) + LittleEndian(v, n)
    ensures p[at + n..] == old(p[at + n..])
  {
    for i := 0 to n
      invariant p[..at] == old(p[..at]) && p[at + n..] == old(p[at + n..])
      invariant forall k :: 0 <= k < i ==> p[at + k] == LittleEndian(v, n)[k]
    {
      LittleEndianAt(v, n, i);
      p[at + i] := v / Pow256(i) % 256;
    }
  }

  /** get(): the bytes cover disjoint bits, so the bitwise or of the shifted bytes is their sum. */
  method Get(p: array<Byte>, at: nat, n: nat) returns (v: nat)
    requires at + n <= p.Length
    ensures v == Field(p[..], at, n)
  {
    v := 0;
    for i := 0 to n
      invariant v == Value(p[at..at + i])
    {
      ValueSnoc(p[at..at + i], p[at + i]);
      assert p[at..at + i + 1] == p[at..at + i] + [p[at + i]];
      v := v + p[at + i] * Pow256(i);
    }
    assert p[..][at..at + n] == p[at..at + n];
  }

  // ----- the header -----

  function Front(h: Header): (b: seq<Byte>)
    ensures |b| == 16
  {
    MAGIC + LittleEndian(1, 2) + LittleEndian(h.kind, 2) + LittleEndian(h.size, 4) + LittleEndian(h.flags, 4)
  }

  function Times(h: Header): (b: seq<Byte>)
    ensures |b| == 32
  {
    LittleEndian(h.seqNo, 8) + LittleEndian(h.dequeueUs, 8) + LittleEndian(h.submitUs, 8) + LittleEndian(h.doneUs, 8)
  }

  function Format(h: Header): (b: seq<Byte>)
    ensures |b| == 16
  {
    LittleEndian(h.width, 4) + LittleEndian(h.height, 4) + LittleEndian(h.codec, 2) + [0, 0] + LittleEndian(h.extra, 4)
  }

  /** The 64 bytes of a header. */
  function Layout(h: Header): (b: seq<Byte>)
    ensures |b| == HEADER_SIZE
  {
    Front(h) + Times(h) + Format(h)
  }

  /** The headers a receiver lets through. */
  predicate Wellformed(h: Header) {
    && 1 <= h.kind <= 8
    && h.size <= MAX_AU
    && h.flags <= FLAG_MASK
    && (h.kind != FRAME && h.kind != ERROR ==> h.size == 0)
    && (h.kind == ERROR ==> h.size <= MAX_DIAGNOSTIC)
  }

  function Field(b: seq<Byte>, at: nat, n: nat): (v: nat)
    requires at + n <= |b|
    ensures v < Pow256(n)
  {
    Value(b[at..at + n])
  }

  lemma Widths()
    ensures Pow256(2) == 0x1_0000 && Pow256(4) == 0x1_0000_0000 && Pow256(8) == 0x1_0000_0000_0000_0000
  {
    assert Pow256(4) == 256 * 256 * Pow256(2);
    assert Pow256(8) == 256 * 256 * 256 * 256 * Pow256(4);
  }

  function Fields(b: seq<Byte>): Header
    requires |b| == HEADER_SIZE
  {
    Widths();
    Header(Field(b, 6, 2), Field(b, 8, 4), Field(b, 12, 4), Field(b, 16, 8), Field(b, 24, 8), Field(b, 32, 8),
           Field(b, 40, 8), Field(b, 48, 4), Field(b, 52, 4), Field(b, 56, 2), Field(b, 60, 4))
  }

  function Unpack(b: seq<Byte>): Result<Header, WireError> {
    if |b| != HEADER_SIZE || b[..4] != MAGIC || Field(b, 4, 2) != 1 || Field(b, 58, 2) != 0 then Err(BadVersion)
    else
      var h := Fields(b);
      if h.kind < 1 || 8 < h.kind || MAX_AU < h.size || FLAG_MASK < h.flags then Err(BadFields)
      else if h.kind != FRAME && h.kind != ERROR && h.size != 0 then Err(ControlPayload)
      else if h.kind == ERROR && MAX_DIAGNOSTIC < h.size then Err(BadDiagnostic)
      else Ok(h)
  }

  /** pack(): refuses an oversize payload, and otherwise fills the 64 bytes field by field. */
  method Pack(h: Header) returns (r: Result<array<Byte>, WireError>)
    ensures r.Ok? <==> h.size <= MAX_AU
    ensures r.Ok? ==> fresh(r.value) && r.value[..] == Layout(h)
  {
    if MAX_AU < h.size {
      return Err(Oversize);
    }
    hide Pow256, LittleEndian, Front, Times, Format;
    var b := new Byte[HEADER_SIZE](_ => 0);
    PackFront(b, h);
    PackTimes(b, h);
    PackFormat(b, h);
    return Ok(b);
  }

  method PackFront(b: array<Byte>, h: Header)
    requires b.Length == HEADER_SIZE && b[..] == Zeros(64)
    modifies b
    ensures b[..16] == Front(h) && b[16..] == Zeros(48)
  {
    hide Pow256, LittleEndian;
    b[0], b[1], b[2], b[3] := MAGIC[0], MAGIC[1], MAGIC[2], MAGIC[3];
    assert b[..4] == MAGIC && b[4..] == Zeros(60);
    ghost var done := PutNext(b, 4, 1, 2, MAGIC);
    done := PutNext(b, 6, h.kind, 2, done);
    done := PutNext(b, 8, h.size, 4, done);
    done := PutNext(b, 12, h.flags, 4, done);
  }

  method PackTimes(b: array<Byte>, h: Header)
    requires b.Length == HEADER_SIZE && b[..16] == Front(h) && b[16..] == Zeros(48)
    modifies b
    ensures b[..48] == Front(h) + Times(h) && b[48..] == Zeros(16)
  {
    hide Pow256, LittleEndian, Front, Zeros;
    ghost var done := PutNext(b, 16, h.seqNo, 8, Front(h));
    done := PutNext(b, 24, h.dequeueUs, 8, done);
    done := PutNext(b, 32, h.submitUs, 8, done);
    done := PutNext(b, 40, h.doneUs, 8, done);
    assert done == Front(h) + Times(h);
  }

  method PackFormat(b: array<Byte>, h: Header)
    requires b.Length == HEADER_SIZE && b[..48] == Front(h) + Times(h) && b[48..] == Zeros(16)
    modifies b
    ensures b[..] == Layout(h)
  {
    hide Pow256, LittleEndian, Front, Times;
    ghost var front := Front(h) + Times(h);
    ghost var done := PutNext(b, 48, h.width, 4, front);
    done := PutNext(b, 52, h.height, 4, done);
    done := PutNext(b, 56, h.codec, 2, done);
    assert b[58] == b[58..][0] && b[59] == b[58..][1];
    done := done + [0, 0]; // bytes 58 and 59 stay reserved
    assert b[..60] == done && b[60..] == Zeros(4);
    done := PutNext(b, 60, h.extra, 4, done);
    assert b[..64] == b[..];
    assert done == front + Format(h);
  }

  function Zeros(n: nat): seq<Byte> { seq(n, _ => 0) }

  /** put() where the bytes before at are already written and those after are still zero. */
  method PutNext(p: array<Byte>, at: nat, v: nat, n: nat, ghost done: seq<Byte>) returns (ghost next: seq<Byte>)
    requires at + n <= p.Length && p[..at] == done && p[at..] == Zeros(p.Length - at)
    modifies p
    ensures next == done + LittleEndian(v, n) && p[..at + n] == next && p[at + n..] == Zeros(p.Length - at - n)
  {
    assert p[at + n..] == p[at..][n..] == Zeros(p.Length - at)[n..] == Zeros(p.Length - at - n);
    Put(p, at, v, n);
    next := p[..at + n];
  }

  /** unpack(): the same checks in the same order, over get(). */
  method Parse(p: array<Byte>) returns (r: Result<Header, WireError>)
    ensures r == Unpack(p[..])
  {
    if p.Length != HEADER_SIZE {
      return Err(BadVersion);
    }
    Widths();
    var version := Get(p, 4, 2);
    var reserved := Get(p, 58, 2);
    if p[..4] != MAGIC || version != 1 || reserved != 0 {
      return Err(BadVersion);
    }
    var h := GetFields(p);
    if h.kind < 1 || 8 < h.kind || MAX_AU < h.size || FLAG_MASK < h.flags {
      return Err(BadFields);
    }
    if h.kind != FRAME && h.kind != ERROR && h.size != 0 {
      return Err(ControlPayload);
    }
    if h.kind == ERROR && MAX_DIAGNOSTIC < h.size {
      return Err(BadDiagnostic);
    }
    return Ok(h);
  }

  method GetFields(p: array<Byte>) returns (h: Header)
    requires p.Length == HEADER_SIZE
    ensures h == Fields(p[..])
  {
    Widths();
    var kind := Get(p, 6, 2);
    var size := Get(p, 8, 4);
    var flags := Get(p, 12, 4);
    var seqNo := Get(p, 16, 8);
    var dequeueUs := Get(p, 24, 8);
    var submitUs := Get(p, 32, 8);
    var doneUs := Get(p, 40, 8);
    var width := Get(p, 48, 4);
    var height := Get(p, 52, 4);
    var codec := Get(p, 56, 2);
    var extra := Get(p, 60, 4);
    h := Header(kind, size, flags, seqNo, dequeueUs, submitUs, doneUs, width, height, codec, extra);
  }

  // ----- pack and unpack undo each other -----

  /** A field written at a known place is read back. */
  lemma FieldBack(b: seq<Byte>, at: nat, n: nat, v: nat)
    requires at + n <= |b| && b[at..at + n] == LittleEndian(v, n) && v < Pow256(n)
    ensures Field(b, at, n) == v
  {
    ValueOfLittleEndian(v, n);
  }

  /** A field of a part of the buffer. */
  lemma FieldWithin(b: seq<Byte>, from: nat, to: nat, at: nat, n: nat)
    requires from + at + n <= to <= |b|
    ensures Field(b, from + at, n) == Field(b[from..to], at, n)
  {
    var part, whole := b[from..to][at..at + n], b[from + at..from + at + n];
    assert |part| == |whole| && forall i :: 0 <= i < n ==> part[i] == whole[i];
    assert part == whole;
  }

  /** The parts of a concatenation, and their concatenation. */
  lemma FiveParts(a: seq<Byte>, b: seq<Byte>, c: seq<Byte>, d: seq<Byte>, e: seq<Byte>)
    ensures var s := a + b + c + d + e;
            var (i, j, k, l) := (|a|, |a| + |b|, |a| + |b| + |c|, |a| + |b| + |c| + |d|);
            s[0..i] == a && s[i..j] == b && s[j..k] == c && s[k..l] == d && s[l..|s|] == e && |s| == l + |e|
  {
    var s := a + b + c + d + e;
    assert s == a + (b + (c + (d + e)));
    assert s[|a|..] == b + (c + (d + e));
    assert s[|a|..][|b|..] == c + (d + e);
  }

  lemma FrontBack(h: Header)
    ensures var b := Front(h);
            b[..4] == MAGIC && Field(b, 4, 2) == 1 && Field(b, 6, 2) == h.kind && Field(b, 8, 4) == h.size &&
            Field(b, 12, 4) == h.flags
  {
    Widths();
    hide Pow256, LittleEndian, Field;
    var b := Front(h);
    FiveParts(MAGIC, LittleEndian(1, 2), LittleEndian(h.kind, 2), LittleEndian(h.size, 4), LittleEndian(h.flags, 4));
    assert b[..4] == b[0..4];
    FieldBack(b, 4, 2, 1);
    FieldBack(b, 6, 2, h.kind);
    FieldBack(b, 8, 4, h.size);
    FieldBack(b, 12, 4, h.flags);
  }

  lemma TimesBack(h: Header)
    ensures var b := Times(h);
            Field(b, 0, 8) == h.seqNo && Field(b, 8, 8) == h.dequeueUs && Field(b, 16, 8) == h.submitUs &&
            Field(b, 24, 8) == h.doneUs
  {
    Widths();
    hide Pow256, LittleEndian, Field;
    var b := Times(h);
    FiveParts(LittleEndian(h.seqNo, 8), LittleEndian(h.dequeueUs, 8), LittleEndian(h.submitUs, 8),
              LittleEndian(h.doneUs, 8), []);
    assert b + [] == b;
    FieldBack(b, 0, 8, h.seqNo);
    FieldBack(b, 8, 8, h.dequeueUs);
    FieldBack(b, 16, 8, h.submitUs);
    FieldBack(b, 24, 8, h.doneUs);
  }

  lemma FormatBack(h: Header)
    ensures var b := Format(h);
            Field(b, 0, 4) == h.width && Field(b, 4, 4) == h.height && Field(b, 8, 2) == h.codec &&
            Field(b, 10, 2) == 0 && Field(b, 12, 4) == h.extra
  {
    Widths();
    assert LittleEndian(0, 2) == [0, 0];
    hide Pow256, LittleEndian, Field;
    var b := Format(h);
    FiveParts(LittleEndian(h.width, 4), LittleEndian(h.height, 4), LittleEndian(h.codec, 2), [0, 0],
              LittleEndian(h.extra, 4));
    FieldBack(b, 0, 4, h.width);
    FieldBack(b, 4, 4, h.height);
    FieldBack(b, 8, 2, h.codec);
    FieldBack(b, 10, 2, 0);
    FieldBack(b, 12, 4, h.extra);
  }

  lemma FrontIn(b: seq<Byte>, h: Header)
    requires |b| == HEADER_SIZE && b[0..16] == Front(h)
    ensures b[..4] == MAGIC && Field(b, 4, 2) == 1 && Field(b, 6, 2) == h.kind && Field(b, 8, 4) == h.size &&
            Field(b, 12, 4) == h.flags
  {
    hide Pow256, Field, Front;
    FrontBack(h);
    assert b[..4] == b[0..16][..4];
    FieldWithin(b, 0, 16, 4, 2);
    FieldWithin(b, 0, 16, 6, 2);
    FieldWithin(b, 0, 16, 8, 4);
    FieldWithin(b, 0, 16, 12, 4);
  }

  lemma TimesIn(b: seq<Byte>, h: Header)
    requires |b| == HEADER_SIZE && b[16..48] == Times(h)
    ensures Field(b, 16, 8) == h.seqNo && Field(b, 24, 8) == h.dequeueUs && Field(b, 32, 8) == h.submitUs &&
            Field(b, 40, 8) == h.doneUs
  {
    hide Pow256, Field, Times;
    TimesBack(h);
    FieldWithin(b, 16, 48, 0, 8);
    FieldWithin(b, 16, 48, 8, 8);
    FieldWithin(b, 16, 48, 16, 8);
    FieldWithin(b, 16, 48, 24, 8);
  }

  lemma FormatIn(b: seq<Byte>, h: Header)
    requires |b| == HEADER_SIZE && b[48..64] == Format(h)
    ensures Field(b, 48, 4) == h.width && Field(b, 52, 4) == h.height && Field(b, 56, 2) == h.codec &&
            Field(b, 58, 2) == 0 && Field(b, 60, 4) == h.extra
  {
    hide Pow256, Field, Format;
    FormatBack(h);
    FieldWithin(b, 48, 64, 0, 4);
    FieldWithin(b, 48, 64, 4, 4);
    FieldWithin(b, 48, 64, 8, 2);
    FieldWithin(b, 48, 64, 10, 2);
    FieldWithin(b, 48, 64, 12, 4);
  }

  lemma FieldsOfLayout(h: Header)
    ensures var b := Layout(h);
            b[..4] == MAGIC && Field(b, 4, 2) == 1 && Field(b, 58, 2) == 0 && Fields(b) == h
  {
    hide Pow256, Field, Front, Times, Format;
    var b := Layout(h);
    assert b[0..16] == Front(h) && b[16..48] == Times(h) && b[48..64] == Format(h);
    FrontIn(b, h);
    TimesIn(b, h);
    FormatIn(b, h);
  }

  /** What pack() writes, unpack() reads back unchanged exactly when the header is well-formed. */
  lemma UnpackOfLayout(h: Header)
    ensures Unpack(Layout(h)) == Ok(h) <==> Wellformed(h)
    ensures Unpack(Layout(h)).Ok? ==> Unpack(Layout(h)) == Ok(h)
  {
    FieldsOfLayout(h);
  }

  /** A field that is read is exactly the bytes that writing it back would produce. */
  lemma FieldForth(b: seq<Byte>, at: nat, n: nat)
    requires at + n <= |b|
    ensures b[at..at + n] == LittleEndian(Field(b, at, n), n)
  {
    LittleEndianOfValue(b[at..at + n]);
  }

  /** Cutting a piece in five and joining it again. */
  lemma CutFive(b: seq<Byte>, at: nat, i: nat, j: nat, k: nat, l: nat, to: nat)
    requires at <= i <= j <= k <= l <= to <= |b|
    ensures b[at..to] == b[at..i] + b[i..j] + b[j..k] + b[k..l] + b[l..to]
  {
    assert b[at..l] == b[at..k] + b[k..l];
    assert b[at..k] == b[at..j] + b[j..k];
  }

  lemma FrontForth(b: seq<Byte>)
    requires |b| == HEADER_SIZE && b[..4] == MAGIC && Field(b, 4, 2) == 1
    ensures b[0..16] == Front(Fields(b))
  {
    hide Pow256, LittleEndian, Field;
    FieldForth(b, 4, 2);
    FieldForth(b, 6, 2);
    FieldForth(b, 8, 4);
    FieldForth(b, 12, 4);
    CutFive(b, 0, 4, 6, 8, 12, 16);
    assert b[0..4] == b[..4];
  }

  lemma TimesForth(b: seq<Byte>)
    requires |b| == HEADER_SIZE
    ensures b[16..48] == Times(Fields(b))
  {
    hide Pow256, LittleEndian, Field;
    FieldForth(b, 16, 8);
    FieldForth(b, 24, 8);
    FieldForth(b, 32, 8);
    FieldForth(b, 40, 8);
    CutFive(b, 16, 24, 32, 40, 48, 48);
    assert b[48..48] == [];
  }

  lemma FormatForth(b: seq<Byte>)
    requires |b| == HEADER_SIZE && Field(b, 58, 2) == 0
    ensures b[48..64] == Format(Fields(b))
  {
    assert LittleEndian(0, 2) == [0, 0];
    hide Pow256, LittleEndian, Field;
    FieldForth(b, 48, 4);
    FieldForth(b, 52, 4);
    FieldForth(b, 56, 2);
    FieldForth(b, 58, 2);
    FieldForth(b, 60, 4);
    CutFive(b, 48, 52, 56, 58, 60, 64);
  }

  lemma UnpackedParts(b: seq<Byte>)
    requires Unpack(b).Ok?
    ensures |b| == HEADER_SIZE && b[..4] == MAGIC && Field(b, 4, 2) == 1 && Field(b, 58, 2) == 0
    ensures Unpack(b).value == Fields(b) && Wellformed(Fields(b))
  {
    hide Field;
  }

  /** Every header unpack() accepts came from exactly these 64 bytes. */
  lemma LayoutOfUnpack(b: seq<Byte>)
    requires Unpack(b).Ok?
    ensures Wellformed(Unpack(b).value)
    ensures Layout(Unpack(b).value) == b
  {
    UnpackedParts(b);
    hide Unpack, Field, Fields, Front, Times, Format;
    FrontForth(b);
    TimesForth(b);
    FormatForth(b);
    assert b == b[0..16] + b[16..48] + b[48..64];
  }
}
