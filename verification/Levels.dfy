/**
 Accepted configurations and the level signalled for them (src/core.cpp), against the limits of
 Table A-1 in section A.3 of ITU-T H.264 and of section A.4 of ITU-T H.265.
 */
module Levels {
  import opened Common

  datatype Codec = H264 | Hevc | Other

  datatype Config = Config(width: nat, height: nat, fpsX100: nat, bitrate: nat, gop: nat, codec: Codec)

  /** Config::validate, without its messages. */
  predicate Validates(c: Config) {
    && !c.codec.Other?
    && 64 <= c.width <= 3840 && 64 <= c.height <= 2160 && c.width % 2 == 0 && c.height % 2 == 0
    && 100 <= c.fpsX100 <= 12010
    && c.width * c.height * c.fpsX100 <= 3840 * 2160 * 6010
    && 1_000_000 <= c.bitrate <= 35_000_000 && 1 <= c.gop <= 120
  }

  function Macroblocks(c: Config): nat {
    (c.width + 15) / 16 * ((c.height + 15) / 16)
  }

  /** mpp_video_level: level_idc times 3 for HEVC, level_idc for H.264; none for a refused configuration. */
  function VideoLevel(c: Config): Option<nat> {
    if !Validates(c) then None
    else
      var pixels := c.width * c.height;
      if c.codec.Hevc? then
        var rate := pixels * c.fpsX100;
        if pixels <= 2_228_224 && rate <= 13_369_344_000 && c.bitrate <= 20_000_000 then Some(123)
        else if pixels <= 8_912_896 && rate <= 26_738_688_000 && c.bitrate <= 25_000_000 then Some(150)
        else Some(153)
      else
        var mbpsX100 := Macroblocks(c) * c.fpsX100;
        if mbpsX100 > 98_304_000 then Some(52)
        else if Macroblocks(c) > 8704 || mbpsX100 > 52_224_000 then Some(51)
        else Some(42)
  }

  // ----- the standards' limits -----

  /** MaxFS, MaxMBPS and MaxBR (1000 bit/s, VCL, Baseline) of an H.264 level. */
  datatype AvcLimits = AvcLimits(maxFs: nat, maxMbps: nat, maxBr: nat)

  function Avc(level: nat): AvcLimits
    requires level in {42, 51, 52}
  {
    if level == 42 then AvcLimits(8704, 522_240, 50_000)
    else if level == 51 then AvcLimits(36_864, 983_040, 240_000)
    else AvcLimits(36_864, 2_073_600, 240_000)
  }

  /** Frame size, both dimensions, macroblock rate and bit rate are within an H.264 level. */
  predicate FitsAvc(c: Config, level: nat)
    requires level in {42, 51, 52}
  {
    var l := Avc(level);
    && Macroblocks(c) <= l.maxFs
    && (c.width + 15) / 16 * ((c.width + 15) / 16) <= 8 * l.maxFs
    && (c.height + 15) / 16 * ((c.height + 15) / 16) <= 8 * l.maxFs
    && Macroblocks(c) * c.fpsX100 <= l.maxMbps * 100
    && c.bitrate <= l.maxBr * 1000
  }

  /** MaxLumaPs, MaxLumaSr and Main-tier MaxBR of an HEVC level. */
  datatype HevcLimits = HevcLimits(maxLumaPs: nat, maxLumaSr: nat, maxBr: nat)

  function HevcTable(level: nat): HevcLimits
    requires level in {123, 150, 153}
  {
    if level == 123 then HevcLimits(2_228_224, 133_693_440, 20_000)
    else if level == 150 then HevcLimits(8_912_896, 267_386_880, 25_000)
    else HevcLimits(8_912_896, 534_773_760, 40_000)
  }

  /** Picture size, both dimensions, sample rate and bit rate are within an HEVC Main-tier level. */
  predicate FitsHevc(c: Config, level: nat)
    requires level in {123, 150, 153}
  {
    var l := HevcTable(level);
    && c.width * c.height <= l.maxLumaPs
    && c.width * c.width <= 8 * l.maxLumaPs && c.height * c.height <= 8 * l.maxLumaPs
    && c.width * c.height * c.fpsX100 <= l.maxLumaSr * 100
    && c.bitrate <= l.maxBr * 1000
  }

  // ----- the level chosen suffices, and none of the lower ones does -----

  lemma SquareMono(a: nat, b: nat)
    requires a <= b
    ensures a * a <= b * b
  {
    assert b * b == a * a + (b - a) * (b + a);
  }

  lemma ProductMono(a: nat, b: nat, x: nat, y: nat)
    requires a <= x && b <= y
    ensures a * b <= x * y
  {
    assert x * y == a * b + a * (y - b) + (x - a) * y;
  }

  lemma SixteenEach(a: nat, b: nat)
    ensures 16 * a * (16 * b) == 256 * (a * b)
  {}

  lemma FourteenMore(w: nat, h: nat)
    requires w <= 3840 && h <= 2160
    ensures (w + 14) * (h + 14) <= w * h + 84_196
  {
    assert (w + 14) * (h + 14) == w * (h + 14) + 14 * (h + 14) == w * h + 14 * w + 14 * (h + 14);
  }

  /** Rounding both dimensions up to macroblocks adds at most 14 to each. */
  lemma RoundedArea(w: nat, h: nat)
    requires w <= 3840 && h <= 2160 && w % 2 == 0 && h % 2 == 0
    ensures 256 * ((w + 15) / 16 * ((h + 15) / 16)) <= w * h + 84_196
  {
    var mw, mh := (w + 15) / 16, (h + 15) / 16;
    ProductMono(16 * mw, 16 * mh, w + 14, h + 14);
    SixteenEach(mw, mh);
    FourteenMore(w, h);
  }

  lemma ScaledRate(m: nat, p: nat, f: nat)
    requires 256 * m <= p + 84_196 && p * f <= 3840 * 2160 * 6010 && f <= 12_010
    ensures m * f <= 207_360_000
  {
    ProductMono(256 * m, f, p + 84_196, f);
    assert (p + 84_196) * f == p * f + 84_196 * f;
    assert 256 * m * f == 256 * (m * f);
  }

  lemma RoundedFrame(c: Config)
    requires Validates(c)
    ensures Macroblocks(c) <= 32_400 && 256 * Macroblocks(c) <= c.width * c.height + 84_196
  {
    ProductMono((c.width + 15) / 16, (c.height + 15) / 16, 240, 135);
    RoundedArea(c.width, c.height);
  }

  /** Within the throughput bound the rounding still leaves room under MaxMBPS of level 5.2. */
  lemma RoundedRateFits(c: Config)
    requires Validates(c)
    ensures Macroblocks(c) <= 32_400 && Macroblocks(c) * c.fpsX100 <= 2_073_600 * 100
  {
    hide Macroblocks;
    RoundedFrame(c);
    ScaledRate(Macroblocks(c), c.width * c.height, c.fpsX100);
  }

  lemma DimensionsFit(c: Config)
    requires Validates(c)
    ensures c.width * c.width <= 8 * 2_228_224 && c.height * c.height <= 8 * 2_228_224
    ensures (c.width + 15) / 16 * ((c.width + 15) / 16) <= 8 * 8704
    ensures (c.height + 15) / 16 * ((c.height + 15) / 16) <= 8 * 8704
    ensures c.width * c.height <= 8_294_400
  {
    SquareMono(c.width, 3840);
    SquareMono(c.height, 2160);
    SquareMono((c.width + 15) / 16, 240);
    SquareMono((c.height + 15) / 16, 135);
    ProductMono(c.width, c.height, 3840, 2160);
  }

  /** For every accepted H.264 configuration the level suffices and is the least of the three that does. */
  lemma AvcLevelIsLeast(c: Config)
    requires Validates(c) && c.codec.H264?
    ensures VideoLevel(c).Some? && VideoLevel(c).value in {42, 51, 52}
    ensures var level := VideoLevel(c).value;
            FitsAvc(c, level) && forall l :: l in {42, 51, 52} && l < level ==> !FitsAvc(c, l)
  {
    RoundedRateFits(c);
    DimensionsFit(c);
  }

  /** The same for HEVC at Main tier. */
  lemma HevcLevelIsLeast(c: Config)
    requires Validates(c) && c.codec.Hevc?
    ensures VideoLevel(c).Some? && VideoLevel(c).value in {123, 150, 153}
    ensures var level := VideoLevel(c).value;
            FitsHevc(c, level) && forall l :: l in {123, 150, 153} && l < level ==> !FitsHevc(c, l)
  {
    DimensionsFit(c);
  }

  /** A live change of the bit rate may only lower it, so the level signalled at the start still suffices. */
  lemma LowerBitrateKeepsLevel(c: Config, bitrate: nat)
    requires Validates(c) && 1_000_000 <= bitrate <= c.bitrate
    ensures Validates(c.(bitrate := bitrate))
    ensures c.codec.H264? ==> FitsAvc(c.(bitrate := bitrate), VideoLevel(c).value)
    ensures c.codec.Hevc? ==> FitsHevc(c.(bitrate := bitrate), VideoLevel(c).value)
  {
    if c.codec.H264? {
      AvcLevelIsLeast(c);
    } else {
      HevcLevelIsLeast(c);
    }
  }
}
