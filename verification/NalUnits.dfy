/**
 NAL units by their octets, as section 7.3.1.2 of ITU-T H.265 and section 7.3.1 of ITU-T H.264 lay them out, and
 which of them a stream of whole pictures that restarts at IDRs may hold (src/annexb.cpp:21-32).
 */
module NalUnits {
  import opened Common
  import opened Wire

  // ----- H.265: forbidden_zero_bit, nal_unit_type u(6), nuh_layer_id u(6), nuh_temporal_id_plus1 u(3) -----

  datatype HevcHeader = HevcHeader(forbidden: nat, kind: nat, layer: nat, temporalPlus1: nat)

  function HeaderOf(body: seq<Byte>): HevcHeader
    requires 2 <= |body|
  {
    var high: nat := body[0];
    var word := 256 * high + body[1];
    HevcHeader(word / 32768, word / 512 % 64, word / 8 % 64, word % 8)
  }

  // Table 7-1 of H.265.
  const BLA_W_LP := 16
  const BLA_N_LP := 18
  const IDR_W_RADL := 19
  const IDR_N_LP := 20
  const CRA := 21
  const LAST_IRAP := 23
  const LAST_VCL := 31
  const HEVC_VPS := 32
  const HEVC_SPS := 33
  const HEVC_PPS := 34

  /** Base layer; a slice has an octet after its header; of the pictures that can be joined at only IDRs. */
  predicate ConformingHevc(body: seq<Byte>) {
    && 2 <= |body|
    && var h := HeaderOf(body);
       && h.forbidden == 0 && h.layer == 0 && h.temporalPlus1 != 0
       && (h.kind <= LAST_VCL ==> 3 <= |body|)
       && !(BLA_W_LP <= h.kind <= BLA_N_LP) && !(CRA <= h.kind <= LAST_IRAP)
  }

  // ----- H.264: forbidden_zero_bit, nal_ref_idc u(2), nal_unit_type u(5) -----

  // Table 7-1 of H.264.
  const SLICE := 1
  const IDR_SLICE := 5
  const SEI := 6
  const AVC_SPS := 7
  const AVC_PPS := 8
  const LAST_SPECIFIED := 23

  /** Whole slices with an octet after the header, or another specified type; no data partitions. */
  predicate ConformingAvc(body: seq<Byte>) {
    && 1 <= |body| && body[0] < 128
    && var kind := body[0] % 32;
       if kind == SLICE || kind == IDR_SLICE then 2 <= |body| else SEI <= kind <= LAST_SPECIFIED
  }

  // ----- either -----

  predicate Conforming(codec: U16, body: seq<Byte>) {
    if codec == HEVC then ConformingHevc(body) else ConformingAvc(body)
  }

  /** nal_unit_type */
  function KindOf(codec: U16, body: seq<Byte>): Option<nat> {
    if codec == HEVC then if |body| < 2 then None else Some(HeaderOf(body).kind)
    else if body == [] then None else Some(body[0] % 32)
  }

  predicate IdrUnit(codec: U16, body: seq<Byte>) {
    var kind := KindOf(codec, body);
    if codec == HEVC then kind == Some(IDR_W_RADL) || kind == Some(IDR_N_LP) else kind == Some(IDR_SLICE)
  }

  predicate SliceUnit(codec: U16, body: seq<Byte>) {
    var kind := KindOf(codec, body);
    if codec == HEVC then kind.Some? && kind.value <= LAST_VCL else kind == Some(SLICE) || kind == Some(IDR_SLICE)
  }

  predicate VpsUnit(codec: U16, body: seq<Byte>) {
    codec == HEVC && KindOf(codec, body) == Some(HEVC_VPS)
  }

  predicate SpsUnit(codec: U16, body: seq<Byte>) {
    KindOf(codec, body) == Some(if codec == HEVC then HEVC_SPS else AVC_SPS)
  }

  predicate PpsUnit(codec: U16, body: seq<Byte>) {
    KindOf(codec, body) == Some(if codec == HEVC then HEVC_PPS else AVC_PPS)
  }

  /**
   The first bit after the header is one: first_slice_segment_in_pic_flag, or the ue(v) code of first_mb_in_slice
   equal to 0.
   */
  predicate FirstSlice(codec: U16, body: seq<Byte>) {
    SliceUnit(codec, body) &&
    if codec == HEVC then 3 <= |body| && 128 <= body[2] else 2 <= |body| && 128 <= body[1]
  }
}
