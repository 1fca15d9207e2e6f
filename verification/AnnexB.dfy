/**
 Annex-B access units (src/annexb.cpp): finding the start codes, the checks and flags taken from
 each NAL unit, the acceptance of a whole unit, and the sequence gate.
 Start codes: section B.1.1 of ITU-T H.264 and section B.2.1 of ITU-T H.265.
 */
module AnnexB {
  import opened Common
  import opened NalUnits
  import opened Wire

  datatype NalError =
    | UnknownCodec | NotAnnexB | BadHeader | BadLayer | TruncatedSlice | OpenRecovery
    | UnsupportedType | DataPartition

  datatype Nals = Nals(vcl: bool, idr: bool, vps: bool, sps: bool, pps: bool, count: nat, pictures: nat)

  const NO_NALS := Nals(false, false, false, false, false, 0, 0)

  // ----- start codes -----

  /** Length of the start code at b[i..]: 3, 4, or 0 when there is none. */
  function Prefix(b: seq<Byte>, i: nat): (n: nat)
    requires i <= |b|
    ensures n == 0 || n == 3 || n == 4
    ensures i + n <= |b|
  {
    if i + 3 <= |b| && b[i] == 0 && b[i + 1] == 0 && b[i + 2] == 1 then 3
    else if i + 4 <= |b| && b[i] == 0 && b[i + 1] == 0 && b[i + 2] == 0 && b[i + 3] == 1 then 4
    else 0
  }

  /** A NAL unit with the start code in front of it: 00 00 01, or the long form 00 00 00 01. */
  datatype Unit = Unit(long: bool, body: seq<Byte>)

  function Code(long: bool): seq<Byte> {
    if long then [0, 0, 0, 1] else [0, 0, 1]
  }

  function Join(us: seq<Unit>): seq<Byte> {
    if us == [] then [] else Code(us[0].long) + us[0].body + Join(us[1..])
  }

  /** Position of the first start code at or after i, or the end of the buffer. */
  function NextCode(b: seq<Byte>, i: nat): (k: nat)
    requires i <= |b|
    ensures i <= k <= |b|
    ensures k < |b| ==> Prefix(b, k) > 0
    ensures forall j :: i <= j < k ==> Prefix(b, j) == 0
    decreases |b| - i
  {
    if i == |b| || Prefix(b, i) > 0 then i else NextCode(b, i + 1)
  }

  lemma NextCodeUnique(b: seq<Byte>, i: nat, k: nat)
    requires i <= k <= |b| && (k < |b| ==> Prefix(b, k) > 0)
    requires forall j :: i <= j < k ==> Prefix(b, j) == 0
    ensures NextCode(b, i) == k
  {
    var e := NextCode(b, i);
  }

  /** The units from a position that is the end of the buffer or begins a start code. */
  function Split(b: seq<Byte>, i: nat): seq<Unit>
    requires i <= |b| && (i < |b| ==> Prefix(b, i) > 0)
    decreases |b| - i
  {
    if i == |b| then []
    else
      var start := i + Prefix(b, i);
      var end := NextCode(b, start);
      [Unit(Prefix(b, i) == 4, b[start..end])] + Split(b, end)
  }

  /** No start code begins inside a unit, even one that would run on into what follows. */
  ghost predicate Canonical(us: seq<Unit>) {
    us == [] ||
    (NoCodeInside(us[0].body, Join(us[1..])) && Canonical(us[1..]))
  }

  ghost predicate NoCodeInside(body: seq<Byte>, rest: seq<Byte>) {
    forall k :: 0 <= k < |body| ==> Prefix(body + rest, k) == 0
  }

  lemma PrefixOfSuffix(b: seq<Byte>, at: nat, k: nat)
    requires at + k <= |b|
    ensures Prefix(b[at..], k) == Prefix(b, at + k)
  {}

  lemma CanonicalCons(u: Unit, us: seq<Unit>)
    requires Canonical(us) && NoCodeInside(u.body, Join(us))
    ensures Canonical([u] + us)
    ensures Join([u] + us) == Code(u.long) + (u.body + Join(us))
  {
    var all := [u] + us;
    assert all[0] == u && all[1..] == us;
    assert Code(u.long) + u.body + Join(us) == Code(u.long) + (u.body + Join(us));
  }

  lemma CodeBytes(b: seq<Byte>, i: nat)
    requires i <= |b| && Prefix(b, i) > 0
    ensures b[i..] == Code(Prefix(b, i) == 4) + b[i + Prefix(b, i)..]
  {}

  /** Every buffer that begins with a start code is the join of a canonical list of units. */
  lemma {:induction false} SplitJoins(b: seq<Byte>, i: nat)
    requires i <= |b| && (i < |b| ==> Prefix(b, i) > 0)
    ensures Canonical(Split(b, i)) && Join(Split(b, i)) == b[i..]
    decreases |b| - i
  {
    hide Prefix, NextCode, Code;
    if i < |b| {
      var start := i + Prefix(b, i);
      var end := NextCode(b, start);
      var body, us := b[start..end], Split(b, end);
      SplitJoins(b, end);
      assert body + Join(us) == b[start..];
      forall k | 0 <= k < |body|
        ensures Prefix(body + Join(us), k) == 0
      {
        PrefixOfSuffix(b, start, k);
      }
      CanonicalCons(Unit(Prefix(b, i) == 4, body), us);
      CodeBytes(b, i);
    }
  }

  lemma PrefixOfJoin(pre: seq<Byte>, us: seq<Unit>)
    ensures var b := pre + Join(us);
            if us == [] then |b| == |pre| else |pre| < |b| && Prefix(b, |pre|) == |Code(us[0].long)|
  {
    if us != [] {
      var b := pre + Join(us);
      var c := Code(us[0].long);
      assert forall k :: 0 <= k < |c| ==> b[|pre| + k] == c[k];
    }
  }

  lemma UnitEnds(front: seq<Byte>, body: seq<Byte>, rest: seq<Byte>)
    requires NoCodeInside(body, rest)
    requires rest == [] || Prefix(front + body + rest, |front + body|) > 0
    ensures NextCode(front + body + rest, |front|) == |front + body|
  {
    var b := front + body + rest;
    forall j | |front| <= j < |front + body|
      ensures Prefix(b, j) == 0
    {
      assert b[|front|..] == body + rest;
      PrefixOfSuffix(b, |front|, j - |front|);
    }
    NextCodeUnique(b, |front|, |front + body|);
  }

  /** A canonical list of units is the only one its join splits into. */
  lemma {:induction false} JoinSplits(pre: seq<Byte>, us: seq<Unit>)
    requires Canonical(us)
    ensures var b := pre + Join(us);
            (|pre| < |b| ==> Prefix(b, |pre|) > 0) && Split(b, |pre|) == us
    decreases |us|
  {
    hide Prefix, NextCode, NoCodeInside;
    PrefixOfJoin(pre, us);
    if us != [] {
      var u, rest := us[0], us[1..];
      var front := pre + Code(u.long);
      var b := pre + Join(us);
      assert b == front + u.body + Join(rest);
      JoinSplits(front + u.body, rest);
      PrefixOfJoin(front + u.body, rest);
      UnitEnds(front, u.body, Join(rest));
      assert b[|front|..|front + u.body|] == u.body;
      assert us == [u] + rest;
    }
  }

  // ----- units as encoders write them -----

  /** Free of 00 00 01 and not ending in 00, as emulation prevention and rbsp_trailing_bits guarantee. */
  ghost predicate Protected(body: seq<Byte>) {
    && (forall k :: 0 <= k && k + 3 <= |body| ==> !(body[k] == 0 && body[k + 1] == 0 && body[k + 2] == 1))
    && (body != [] ==> body[|body| - 1] != 0)
  }

  lemma ProtectedHidesCodes(body: seq<Byte>, rest: seq<Byte>, k: nat)
    requires Protected(body) && k < |body|
    ensures Prefix(body + rest, k) == 0
  {
    var s := body + rest;
    assert forall j :: 0 <= j < |body| ==> s[j] == body[j];
  }

  /** Any mix of 3- and 4-byte start codes before protected units is canonical. */
  lemma {:induction false} ProtectedIsCanonical(us: seq<Unit>)
    requires forall i :: 0 <= i < |us| ==> Protected(us[i].body)
    ensures Canonical(us)
  {
    if us != [] {
      ProtectedIsCanonical(us[1..]);
      forall k | 0 <= k < |us[0].body|
        ensures Prefix(us[0].body + Join(us[1..]), k) == 0
      {
        ProtectedHidesCodes(us[0].body, Join(us[1..]), k);
      }
    }
  }

  // ----- one unit -----

  function NeededHeader(codec: U16): nat { if codec == HEVC then 2 else 1 }

  /** nal_unit_type, from the first byte of the unit. */
  function TypeOf(codec: U16, body: seq<Byte>): nat
    requires 0 < |body|
  {
    if codec == HEVC then body[0] / 2 % 64 else body[0] % 32
  }

  predicate IsIdr(codec: U16, t: nat) { if codec == HEVC then t == 19 || t == 20 else t == 5 }
  predicate IsVps(codec: U16, t: nat) { codec == HEVC && t == 32 }
  predicate IsSps(codec: U16, t: nat) { if codec == HEVC then t == 33 else t == 7 }
  predicate IsPps(codec: U16, t: nat) { if codec == HEVC then t == 34 else t == 8 }
  predicate IsSlice(codec: U16, t: nat) { if codec == HEVC then t <= 31 else t == 1 || t == 5 }

  /** The slice that carries first_slice_segment_in_pic_flag, or first_mb_in_slice equal to 0. */
  predicate StartsPicture(codec: U16, body: seq<Byte>) {
    && NeededHeader(codec) < |body|
    && IsSlice(codec, TypeOf(codec, body))
    && 128 <= body[NeededHeader(codec)]
  }

  /** The refusals of the loop body, in its order. */
  function Refusal(codec: U16, body: seq<Byte>): Option<NalError> {
    if |body| < NeededHeader(codec) || 128 <= body[0] then Some(BadHeader)
    else
      var t := TypeOf(codec, body);
      if codec == HEVC then
        if body[0] % 2 == 1 || body[1] / 8 != 0 || body[1] % 8 == 0 then Some(BadLayer)
        else if t <= 31 && |body| < 3 then Some(TruncatedSlice)
        else if 16 <= t <= 23 && t != 19 && t != 20 then Some(OpenRecovery)
        else None
      else if t == 0 || 24 <= t then Some(UnsupportedType)
      else if (t == 1 || t == 5) && |body| < 2 then Some(TruncatedSlice)
      else if 2 <= t <= 4 then Some(DataPartition)
      else None
  }

  /** Exactly the conforming units are let through. */
  lemma RefusedExactly(codec: U16, body: seq<Byte>)
    ensures Refusal(codec, body).None? <==> Conforming(codec, body)
  {
    if codec == HEVC && 2 <= |body| {
      HeaderBits(body[0], body[1]);
    }
  }

  lemma HeaderBits(b0: Byte, b1: Byte)
    ensures var word: nat := 256 * b0 + b1;
            && word / 32768 == b0 / 128 && word / 512 % 64 == b0 / 2 % 64
            && word / 8 % 64 == b0 % 2 * 32 + b1 / 8 && word % 8 == b1 % 8
  {
    var word: nat := 256 * b0 + b1;
    Quotient(word, b0 / 128, 32768, 256 * (b0 % 128) + b1);
    Quotient(word, b0 / 2, 512, 256 * (b0 % 2) + b1);
    Quotient(word, 32 * b0 + b1 / 8, 8, b1 % 8);
    Quotient(32 * b0 + b1 / 8, b0 / 2, 64, 32 * (b0 % 2) + b1 / 8);
  }

  lemma Quotient(v: nat, q: nat, d: nat, r: nat)
    requires v == q * d + r && r < d
    ensures v / d == q && v % d == r
  {
    QuotientUnique(v, q, d, r);
  }

  /** The parser sees a conforming unit as what it is. */
  lemma KindsExactly(codec: U16, body: seq<Byte>)
    requires Conforming(codec, body)
    ensures var t := TypeOf(codec, body);
            && (IsIdr(codec, t) <==> IdrUnit(codec, body)) && (IsSlice(codec, t) <==> SliceUnit(codec, body))
            && (IsVps(codec, t) <==> VpsUnit(codec, body)) && (IsSps(codec, t) <==> SpsUnit(codec, body))
            && (IsPps(codec, t) <==> PpsUnit(codec, body))
            && (StartsPicture(codec, body) <==> FirstSlice(codec, body))
  {
    if codec == HEVC {
      HeaderBits(body[0], body[1]);
    }
  }

  /** What an accepted unit adds to the counts and flags. */
  function Note(codec: U16, n: Nals, body: seq<Byte>): Nals
    requires 0 < |body|
  {
    var t := TypeOf(codec, body);
    Nals(n.vcl || IsSlice(codec, t), n.idr || IsIdr(codec, t), n.vps || IsVps(codec, t), n.sps || IsSps(codec, t),
         n.pps || IsPps(codec, t), n.count + 1, n.pictures + (if StartsPicture(codec, body) then 1 else 0))
  }

  function Visit(codec: U16, n: Nals, us: seq<Unit>): Result<Nals, NalError>
    decreases |us|
  {
    if us == [] then Ok(n)
    else
      match Refusal(codec, us[0].body)
      case Some(e) => Err(e)
      case None => Visit(codec, Note(codec, n, us[0].body), us[1..])
  }

  function CountPictures(codec: U16, us: seq<Unit>): nat {
    if us == [] then 0 else (if FirstSlice(codec, us[0].body) then 1 else 0) + CountPictures(codec, us[1..])
  }

  /** Some unit of the list is of this kind. */
  ghost predicate Contains(codec: U16, us: seq<Unit>, isKind: (U16, seq<Byte>) -> bool) {
    exists i :: 0 <= i < |us| && isKind(codec, us[i].body)
  }

  lemma ContainsCons(codec: U16, us: seq<Unit>, isKind: (U16, seq<Byte>) -> bool)
    requires us != []
    ensures Contains(codec, us, isKind) <==> isKind(codec, us[0].body) || Contains(codec, us[1..], isKind)
  {
    if Contains(codec, us[1..], isKind) {
      var i :| 0 <= i < |us[1..]| && isKind(codec, us[1..][i].body);
      assert isKind(codec, us[i + 1].body);
    }
    if i :| 0 < i < |us| && isKind(codec, us[i].body) {
      assert isKind(codec, us[1..][i - 1].body);
    }
  }

  ghost predicate AllConforming(codec: U16, us: seq<Unit>) {
    forall i :: 0 <= i < |us| ==> Conforming(codec, us[i].body)
  }

  /**
   A list is let through exactly when each of its units conforms; the result counts units and pictures, and a flag
   says that a unit of its kind is there.
   */
  lemma {:induction false} VisitMeans(codec: U16, n: Nals, us: seq<Unit>)
    ensures Visit(codec, n, us).Ok? <==> AllConforming(codec, us)
    ensures Visit(codec, n, us).Ok? ==>
              var m := Visit(codec, n, us).value;
              && m.count == n.count + |us|
              && m.pictures == n.pictures + CountPictures(codec, us)
              && (m.vcl <==> n.vcl || Contains(codec, us, SliceUnit))
              && (m.idr <==> n.idr || Contains(codec, us, IdrUnit))
              && (m.vps <==> n.vps || Contains(codec, us, VpsUnit))
              && (m.sps <==> n.sps || Contains(codec, us, SpsUnit))
              && (m.pps <==> n.pps || Contains(codec, us, PpsUnit))
    decreases |us|
  {
    if us != [] {
      RefusedExactly(codec, us[0].body);
      if Conforming(codec, us[0].body) {
        KindsExactly(codec, us[0].body);
        VisitMeans(codec, Note(codec, n, us[0].body), us[1..]);
        ConformingCons(codec, us);
        ContainsCons(codec, us, SliceUnit);
        ContainsCons(codec, us, IdrUnit);
        ContainsCons(codec, us, VpsUnit);
        ContainsCons(codec, us, SpsUnit);
        ContainsCons(codec, us, PpsUnit);
      }
      hide Refusal, Conforming, TypeOf, StartsPicture, FirstSlice, IsSlice, IsIdr, IsVps, IsSps, IsPps;
    }
  }

  lemma ConformingCons(codec: U16, us: seq<Unit>)
    requires us != []
    ensures AllConforming(codec, us) <==> Conforming(codec, us[0].body) && AllConforming(codec, us[1..])
  {
    hide Conforming;
    assert forall i :: 0 <= i < |us| - 1 ==> us[1..][i] == us[i + 1];
  }

  // ----- the whole buffer -----

  predicate Bounded(b: seq<Byte>) {
    b != [] && |b| <= MAX_AU && Prefix(b, 0) > 0
  }

  function Inspection(codec: U16, b: seq<Byte>): Result<Nals, NalError> {
    if codec != H264 && codec != HEVC then Err(UnknownCodec)
    else if !Bounded(b) then Err(NotAnnexB)
    else Visit(codec, NO_NALS, Split(b, 0))
  }

  /** The inner loop: where the unit that starts at start ends. */
  method FindEnd(b: seq<Byte>, start: nat) returns (end: nat)
    requires start <= |b|
    ensures end == NextCode(b, start)
  {
    end := start;
    while end < |b| && Prefix(b, end) == 0
      invariant start <= end <= |b|
      invariant forall j :: start <= j < end ==> Prefix(b, j) == 0
    {
      end := end + 1;
    }
    NextCodeUnique(b, start, end);
  }

  /** inspect_annexb: two indices walking the buffer. */
  method Inspect(codec: U16, b: seq<Byte>) returns (r: Result<Nals, NalError>)
    ensures r == Inspection(codec, b)
  {
    if codec != H264 && codec != HEVC {
      return Err(UnknownCodec);
    }
    if b == [] || MAX_AU < |b| || Prefix(b, 0) == 0 {
      return Err(NotAnnexB);
    }
    var n := NO_NALS;
    var i: nat := 0;
    while i < |b|
      invariant i <= |b| && (i < |b| ==> Prefix(b, i) > 0)
      invariant Visit(codec, NO_NALS, Split(b, 0)) == Visit(codec, n, Split(b, i))
    {
      ghost var us := Split(b, i);
      var start := i + Prefix(b, i);
      var end := FindEnd(b, start);
      var body := b[start..end];
      assert us[0].body == body && us[1..] == Split(b, end);
      match Refusal(codec, body) {
        case Some(e) => return Err(e);
        case None => n := Note(codec, n, body);
      }
      i := end;
    }
    return Ok(n);
  }

  /** The parser accepts exactly the joins of canonical lists of conforming units. */
  lemma AcceptsExactly(codec: U16, b: seq<Byte>)
    requires codec == H264 || codec == HEVC
    ensures Inspection(codec, b).Ok? <==>
            0 < |b| <= MAX_AU && exists us :: us != [] && Canonical(us) && Join(us) == b && AllConforming(codec, us)
  {
    if Bounded(b) {
      SplitJoins(b, 0);
      VisitMeans(codec, NO_NALS, Split(b, 0));
      assert b[0..] == b;
    }
    forall us | us != [] && Canonical(us) && Join(us) == b
      ensures Prefix(b, 0) > 0 && Split(b, 0) == us
    {
      OnlySplit(b, us);
    }
  }

  lemma OnlySplit(b: seq<Byte>, us: seq<Unit>)
    requires us != [] && Canonical(us) && Join(us) == b
    ensures b != [] && Prefix(b, 0) > 0 && Split(b, 0) == us
  {
    JoinSplits([], us);
    PrefixOfJoin([], us);
    assert [] + Join(us) == b;
  }

  /**
   Protected conforming units, under any mix of start codes and within the size limit, are accepted, and the
   result is exactly the fold over the list.
   */
  lemma ProtectedUnitsAccepted(codec: U16, us: seq<Unit>)
    requires codec == H264 || codec == HEVC
    requires us != [] && |Join(us)| <= MAX_AU
    requires forall i :: 0 <= i < |us| ==> Protected(us[i].body) && Conforming(codec, us[i].body)
    ensures Inspection(codec, Join(us)) == Visit(codec, NO_NALS, us)
    ensures Inspection(codec, Join(us)).Ok?
    ensures var n := Inspection(codec, Join(us)).value;
            && n.count == |us| && n.pictures == CountPictures(codec, us)
            && (n.idr <==> Contains(codec, us, IdrUnit)) && (n.vcl <==> Contains(codec, us, SliceUnit))
            && (n.vps <==> Contains(codec, us, VpsUnit)) && (n.sps <==> Contains(codec, us, SpsUnit))
            && (n.pps <==> Contains(codec, us, PpsUnit))
  {
    hide Conforming, Protected, Visit, Contains, CountPictures, Split, Canonical, Join;
    ProtectedIsCanonical(us);
    OnlySplit(Join(us), us);
    VisitMeans(codec, NO_NALS, us);
  }
}
