/** The attack sensor's two predicates: which flocks are hostile (a bitmask
    indexed by flock id) and whether a target stands in attack range. */
module AttackSensor {
  import opened Basics

  /** The sensor's settings. `hostileFlags` is the C# int bitmask, kept as its
      32 bits; `cosTheta` is the cosine of `angle`, cached once when the sensor
      wakes up. */
  datatype Sensor = Sensor(
    hostileFlags: bv32,
    minRange: real,
    maxRange: real,
    angleCheck: bool,
    cosTheta: real)

  /** C# `1 << n` on an int uses only the low five bits of `n`; for a two's
      complement `n` that is `n` modulo 32, negative ids included. */
  function ShiftCount(flockId: int): (k: bv5)
    ensures (flockId - k as int) % 32 == 0
  {
    (flockId % 32) as bv5
  }

  /** The unit of flock `flockId` is hostile: bit (id mod 32) of the mask
      is set. */
  predicate UnitVerify(s: Sensor, flockId: int): (hostile: bool)
    ensures hostile <==> BitSet(s.hostileFlags, ShiftCount(flockId))
  {
    MaskHasReadsBit(s.hostileFlags, ShiftCount(flockId));
    MaskHas(s.hostileFlags, ShiftCount(flockId))
  }

  /** `flags & (1 << k) != 0`, the source's test for one shift count. */
  predicate MaskHas(flags: bv32, k: bv5)
  {
    flags & ((1 as bv32) << k) != 0
  }

  /** Bit `k` of the mask, read by shifting the mask down: the reference the
      shifted-one test is compared with. */
  predicate BitSet(flags: bv32, k: bv5)
  {
    (flags >> k) & 1 == 1
  }

  /** Testing with a shifted one reads the bit. */
  lemma MaskHasReadsBit(f: bv32, k: bv5)
    ensures MaskHas(f, k) <==> BitSet(f, k)
  {
  }

  /** Ids 0 to 31 name bits 0 to 31; ids that differ by a multiple of 32
      share a bit, so a negative id or one of 32 and above aliases a flock
      below 32. */
  lemma UnitVerifyIsBitTest(s: Sensor, flockId: int)
    ensures 0 <= flockId < 32 ==> (UnitVerify(s, flockId) <==> BitSet(s.hostileFlags, flockId as bv5))
    ensures UnitVerify(s, flockId) <==> UnitVerify(s, flockId + 32)
  {
    assert (flockId + 32) % 32 == flockId % 32;
  }

  /** The angle test without the division: for a positive length, the
      normalised offset's dot product exceeds `cosTheta` exactly when the
      raw offset's exceeds `cosTheta * dist`. */
  lemma AngleTestScales(offset: Vec2, curDir: Vec2, dist: real, cosTheta: real)
    ensures dist > 0.0 ==>
      (Dot(Scale(offset, 1.0 / dist), curDir) > cosTheta <==> Dot(offset, curDir) > cosTheta * dist)
  {
  }

  /** Whether a target at plane offset `offset` (length `dist`) from the
      sensor is in range, for a unit facing `curDir`: within the distance
      band and, with the angle test on, inside the cone around the facing.
      The source divides the offset by `dist`; at `dist == 0` that gives a
      NaN direction whose dot product fails every `>` comparison, which is
      what `dist > 0.0` stands for here. */
  predicate CheckRange(s: Sensor, curDir: Vec2, offset: Vec2, dist: real): (inRange: bool)
    requires IsLength(dist, offset)
    ensures !s.angleCheck ==> (inRange <==> s.minRange <= dist <= s.maxRange)
    ensures s.angleCheck ==>
      (inRange <==> s.minRange <= dist <= s.maxRange && dist > 0.0 && Dot(offset, curDir) > s.cosTheta * dist)
  {
    AngleTestScales(offset, curDir, dist, s.cosTheta);
    && dist >= s.minRange
    && dist <= s.maxRange
    && (!s.angleCheck || (dist > 0.0 && Dot(Scale(offset, 1.0 / dist), curDir) > s.cosTheta))
  }

  /** Without the angle test the unit's facing does not matter. */
  lemma CheckRangeIgnoresFacing(s: Sensor, dirA: Vec2, dirB: Vec2, offset: Vec2, dist: real)
    requires IsLength(dist, offset) && !s.angleCheck
    ensures CheckRange(s, dirA, offset, dist) == CheckRange(s, dirB, offset, dist)
  {
  }
}
