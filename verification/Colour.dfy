/**
 The two BGR to YCbCr conversions of src/pixels.cpp, and how far they are from the exact matrix of
 items 3.2 to 3.4 of Recommendation ITU-R BT.709.
 A right shift of a negative int rounds down, which is what / does here for a positive divisor.
 */
module Colour {
  import opened Common

  function Clamp(v: int, low: int, high: int): (c: int)
    requires low <= high
    ensures low <= c <= high && (low <= v <= high ==> c == v)
  {
    if v < low then low else if high < v then high else v
  }

  // ----- full-range BGR input -----

  function FullLumaRaw(r: Byte, g: Byte, b: Byte): int { 16 + (47 * r + 157 * g + 16 * b + 128) / 256 }
  function FullLuma(r: Byte, g: Byte, b: Byte): Byte { Clamp(FullLumaRaw(r, g, b), 0, 255) }

  type Sum4 = s: int | 0 <= s <= 1020

  /** Rounded mean of the four samples whose sum is s. */
  function Mean4(s: Sum4): Byte { (s + 2) / 4 }

  function FullCbRaw(r: Byte, g: Byte, b: Byte): int { 128 + (-6596 * r - 22189 * g + 28785 * b + 32768) / 65536 }
  function FullCrRaw(r: Byte, g: Byte, b: Byte): int { 128 + (28785 * r - 26145 * g - 2640 * b + 32768) / 65536 }
  function FullCb(rs: Sum4, gs: Sum4, bs: Sum4): Byte { Clamp(FullCbRaw(Mean4(rs), Mean4(gs), Mean4(bs)), 0, 255) }
  function FullCr(rs: Sum4, gs: Sum4, bs: Sum4): Byte { Clamp(FullCrRaw(Mean4(rs), Mean4(gs), Mean4(bs)), 0, 255) }

  // ----- limited-range BGR input -----

  type Level = v: int | 0 <= v <= 219
  type LevelSum4 = s: int | 0 <= s <= 876

  /** Distance above black, with excursions clipped. */
  function LimitedLevel(v: Byte): Level { Clamp(v - 16, 0, 219) }

  function LimitedLumaRaw(r: Level, g: Level, b: Level): int { 16 + (13933 * r + 46871 * g + 4732 * b + 32768) / 65536 }

  /** The source narrows to uint8_t without clamping. */
  function LimitedLuma(r: Level, g: Level, b: Level): Byte { LimitedLumaRaw(r, g, b) % 256 }

  /** Round half away from zero after the division by 2^18. */
  function RoundQ18(v: int): int { if v >= 0 then (v + 131072) / 262144 else -((-v + 131072) / 262144) }
  function LimitedCbRaw(rs: LevelSum4, gs: LevelSum4, bs: LevelSum4): int {
    128 + RoundQ18(-7680 * rs - 25836 * gs + 33516 * bs)
  }
  function LimitedCrRaw(rs: LevelSum4, gs: LevelSum4, bs: LevelSum4): int {
    128 + RoundQ18(33516 * rs - 30443 * gs - 3073 * bs)
  }
  function LimitedCb(rs: LevelSum4, gs: LevelSum4, bs: LevelSum4): Byte { Clamp(LimitedCbRaw(rs, gs, bs), 16, 240) }
  function LimitedCr(rs: LevelSum4, gs: LevelSum4, bs: LevelSum4): Byte { Clamp(LimitedCrRaw(rs, gs, bs), 16, 240) }

  // ----- exact BT.709 -----

  /** E'Y of the normalized components. */
  function ExactY(r: real, g: real, b: real): real { 0.2126 * r + 0.7152 * g + 0.0722 * b }

  /** Quantized values of item 3.4 for n = 8: luma 219 E'Y + 16, colour difference 224 E'C + 128. */
  function ExactLuma(r: real, g: real, b: real): real { 16.0 + 219.0 * ExactY(r, g, b) }
  function ExactCb(r: real, g: real, b: real): real { 128.0 + 224.0 * (b - ExactY(r, g, b)) / 1.8556 }
  function ExactCr(r: real, g: real, b: real): real { 128.0 + 224.0 * (r - ExactY(r, g, b)) / 1.5748 }

  function Full(s: int): real { s as real / 255.0 }
  function FullMean(s: int): real { s as real / 1020.0 }
  function Limited(s: int): real { s as real / 219.0 }
  function LimitedMean(s: int): real { s as real / 876.0 }

  predicate WithinOne(code: int, exact: real) { -1.0 < code as real - exact < 1.0 }

  // ----- what holds for every input -----

  /** Full range: codes stay in 16..235 and 16..240, so the final clamp changes nothing. */
  lemma FullInRange(r: Byte, g: Byte, b: Byte)
    ensures 16 <= FullLumaRaw(r, g, b) <= 235 && FullLuma(r, g, b) == FullLumaRaw(r, g, b)
    ensures 16 <= FullCbRaw(r, g, b) <= 240 && 16 <= FullCrRaw(r, g, b) <= 240
  {
    assert 47 * r + 157 * g + 16 * b + 128 <= 220 * 255 + 128;
    assert -28785 * 255 + 32768 <= -6596 * r - 22189 * g + 28785 * b + 32768 <= 28785 * 255 + 32768;
    assert -28785 * 255 + 32768 <= 28785 * r - 26145 * g - 2640 * b + 32768 <= 28785 * 255 + 32768;
  }

  /** Limited range: the same, for the clamp and for the unclamped narrowing of luma. */
  lemma LimitedInRange(r: Level, g: Level, b: Level, rs: LevelSum4, gs: LevelSum4, bs: LevelSum4)
    ensures 16 <= LimitedLumaRaw(r, g, b) <= 235 && LimitedLuma(r, g, b) == LimitedLumaRaw(r, g, b)
    ensures 16 <= LimitedCbRaw(rs, gs, bs) <= 240 && LimitedCb(rs, gs, bs) == LimitedCbRaw(rs, gs, bs)
    ensures 16 <= LimitedCrRaw(rs, gs, bs) <= 240 && LimitedCr(rs, gs, bs) == LimitedCrRaw(rs, gs, bs)
  {
    assert 13933 * r + 46871 * g + 4732 * b + 32768 <= 65536 * 219 + 32768;
    assert -33516 * 876 <= -7680 * rs - 25836 * gs + 33516 * bs <= 33516 * 876;
    assert -33516 * 876 <= 33516 * rs - 30443 * gs - 3073 * bs <= 33516 * 876;
    assert 33516 * 876 + 131072 < 113 * 262144;
  }

  /** q is the integer nearest to v / d, and of two the larger. */
  predicate Nearest(q: int, v: int, d: int) {
    2 * v - d < 2 * d * q <= 2 * v + d
  }

  /** q is the integer nearest to v / d, and of two the one farther from zero. */
  predicate NearestAway(q: int, v: int, d: int) {
    if v >= 0 then Nearest(q, v, d) else Nearest(-q, -v, d)
  }

  /** The full-range results are the fixed-point products rounded to the nearest code, and so is the mean of four. */
  lemma FullIsNearest(r: Byte, g: Byte, b: Byte, s: Sum4)
    ensures Nearest(FullLumaRaw(r, g, b) - 16, 47 * r + 157 * g + 16 * b, 256)
    ensures Nearest(FullCbRaw(r, g, b) - 128, -6596 * r - 22189 * g + 28785 * b, 65536)
    ensures Nearest(FullCrRaw(r, g, b) - 128, 28785 * r - 26145 * g - 2640 * b, 65536)
    ensures Nearest(Mean4(s), s, 4)
  {
  }

  /** The limited-range ones too; colour difference rounds ties away from 128. */
  lemma LimitedIsNearest(r: Level, g: Level, b: Level, rs: LevelSum4, gs: LevelSum4, bs: LevelSum4)
    ensures Nearest(LimitedLumaRaw(r, g, b) - 16, 13933 * r + 46871 * g + 4732 * b, 65536)
    ensures NearestAway(LimitedCbRaw(rs, gs, bs) - 128, -7680 * rs - 25836 * gs + 33516 * bs, 262144)
    ensures NearestAway(LimitedCrRaw(rs, gs, bs) - 128, 33516 * rs - 30443 * gs - 3073 * bs, 262144)
  {
  }

  lemma FullLumaClose(r: Byte, g: Byte, b: Byte)
    ensures WithinOne(FullLuma(r, g, b), ExactLuma(Full(r), Full(g), Full(b)))
  {
    FullInRange(r, g, b);
  }

  lemma FullChromaClose(rs: Sum4, gs: Sum4, bs: Sum4)
    ensures WithinOne(FullCb(rs, gs, bs), ExactCb(FullMean(rs), FullMean(gs), FullMean(bs)))
    ensures WithinOne(FullCr(rs, gs, bs), ExactCr(FullMean(rs), FullMean(gs), FullMean(bs)))
  {
    FullInRange(Mean4(rs), Mean4(gs), Mean4(bs));
  }

  lemma LimitedClose(r: Level, g: Level, b: Level, rs: LevelSum4, gs: LevelSum4, bs: LevelSum4)
    ensures WithinOne(LimitedLuma(r, g, b), ExactLuma(Limited(r), Limited(g), Limited(b)))
    ensures WithinOne(LimitedCb(rs, gs, bs), ExactCb(LimitedMean(rs), LimitedMean(gs), LimitedMean(bs)))
    ensures WithinOne(LimitedCr(rs, gs, bs), ExactCr(LimitedMean(rs), LimitedMean(gs), LimitedMean(bs)))
  {
    LimitedInRange(r, g, b, rs, gs, bs);
  }

  /** A full-range block whose components have equal sums has no colour difference. */
  lemma GrayIsNeutral(s: Sum4)
    ensures FullCb(s, s, s) == 128 && FullCr(s, s, s) == 128
  {
    var v: int := Mean4(s);
    assert -6596 * v - 22189 * v + 28785 * v == 0 && 28785 * v - 26145 * v - 2640 * v == 0;
    assert FullCbRaw(v, v, v) == 128 && FullCrRaw(v, v, v) == 128;
  }

  /** Neither has a limited-range one, and the luma of limited-range gray is reproduced exactly. */
  lemma LimitedGrayIsExact(v: Byte, s: LevelSum4)
    ensures LimitedCb(s, s, s) == 128 && LimitedCr(s, s, s) == 128
    ensures var k := LimitedLevel(v); LimitedLuma(k, k, k) == Clamp(v, 16, 235)
  {
    assert -7680 * s - 25836 * s + 33516 * s == 0 && 33516 * s - 30443 * s - 3073 * s == 0;
    assert RoundQ18(0) == 0;
    LimitedGrayLuma(LimitedLevel(v));
  }

  lemma LimitedGrayLuma(k: Level)
    ensures LimitedLuma(k, k, k) == 16 + k
  {
    assert 13933 * k + 46871 * k + 4732 * k + 32768 == 65536 * k + 32768;
    assert (65536 * k + 32768) / 65536 == k by {
      Quotient(k);
    }
  }

  lemma Quotient(k: int)
    ensures (65536 * k + 32768) / 65536 == k
  {
  }
}
