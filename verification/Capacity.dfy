/**
 Sizes and capacity ranges.  Byte counts are Go int64 values: sums and products wrap around, and
 division truncates toward zero.  The module proves when the two controller checks and the node
 check, which are written separately, agree with each other.
 */
module Capacity {

  const GB: int := 0x4000_0000
  const TWO_TO_64: int := 0x1_0000_0000_0000_0000
  const MAX_INT64: int := 0x7FFF_FFFF_FFFF_FFFF
  const MIN_INT64: int := -0x8000_0000_0000_0000
  const DEFAULT_VOLUME_SIZE_GB: int64 := 100

  // The largest byte count that can be rounded up to whole gigabytes without wrapping around.
  const MAX_ROUNDABLE: int := MAX_INT64 - GB + 1
  // Sizes below this bound have a byte count that fits an int64.
  const SIZE_BOUND_GB: int := 0x2_0000_0000

  type int64 = x: int | MIN_INT64 <= x <= MAX_INT64

  // CapacityRange is an optional message, so it may be absent.
  datatype CapacityRange = Unset | Range(required: int64, limit: int64)
  datatype SizeResult = Size(gb: int64) | Invalid

  // The int64 that a wrapped-around sum or product leaves behind.
  function Wrap(x: int): int64 {
    (x - MIN_INT64) % TWO_TO_64 + MIN_INT64
  }

  // Go's integer division.
  function Quotient(a: int64, b: int64): int64
    requires b > 0
  {
    if a >= 0 then a / b else -((-(a as int)) / b)
  }

  function RoundUpSize(bytes: int64, unit: int64): int64
    requires unit > 0
  {
    Quotient(Wrap(Wrap(bytes + unit) - 1), unit)
  }

  function RoundUpGB(bytes: int64): int64 {
    RoundUpSize(bytes, GB)
  }

  function SizeGBToBytes(gb: int64): int64 {
    Wrap(GB * gb)
  }

  function GetVolumeSizeGB(range: CapacityRange): SizeResult {
    match range
    case Unset => Size(DEFAULT_VOLUME_SIZE_GB)
    case Range(required, limit) =>
      if 0 < limit < required then Invalid
      else if required == 0 then
        if limit > 0 && SizeGBToBytes(DEFAULT_VOLUME_SIZE_GB) > limit then Invalid else Size(DEFAULT_VOLUME_SIZE_GB)
      else if limit > 0 && SizeGBToBytes(RoundUpGB(required)) > limit then Invalid
      else Size(RoundUpGB(required))
  }

  // sizeInGBMeetCapRange: the controller's test that a volume already has a requested size.
  predicate MeetsRange(gb: int64, range: CapacityRange) {
    match range
    case Unset => false
    case Range(required, limit) =>
      var bytes := SizeGBToBytes(gb);
      required <= bytes <= (if limit == 0 then bytes else limit)
  }

  // The node's own test, on the size of a device in bytes; an absent range is not enforced.
  predicate NodeAccepts(deviceSize: int64, range: CapacityRange) {
    match range
    case Unset => true
    case Range(required, limit) =>
      var limitBytes := if limit > 0 then limit else deviceSize;
      !(deviceSize > limitBytes || deviceSize < required)
  }

  // s is the number of gigabytes that bytes rounds up to.
  predicate IsCeiling(bytes: int, s: int) {
    (s - 1) * GB < bytes <= s * GB
  }

  // ---------- rounding ----------

  lemma WrapFits(x: int)
    ensures Wrap(x) == x <==> MIN_INT64 <= x <= MAX_INT64
  {}

  lemma BytesFit(gb: int64)
    requires -SIZE_BOUND_GB <= gb < SIZE_BOUND_GB
    ensures SizeGBToBytes(gb) == gb * GB
  {
    WrapFits(GB * gb);
  }

  // For every non-negative byte count, rounding up is the mathematical ceiling exactly up to
  // 2^63 - 2^30; beyond that the sum wraps around and the result is not even positive.
  lemma RoundUpExactlyWhen(bytes: int64)
    requires 0 <= bytes
    ensures IsCeiling(bytes, RoundUpGB(bytes)) <==> bytes <= MAX_ROUNDABLE
    ensures bytes <= MAX_ROUNDABLE ==> 0 <= RoundUpGB(bytes) < SIZE_BOUND_GB
    ensures bytes > MAX_ROUNDABLE ==> -SIZE_BOUND_GB <= RoundUpGB(bytes) < 0
  {
    WrapFits(bytes + GB - 1);
    if bytes < MAX_ROUNDABLE {
      WrapFits(bytes + GB);
      assert RoundUpGB(bytes) == (bytes + GB - 1) / GB;
    } else if bytes == MAX_ROUNDABLE {
      assert RoundUpGB(bytes) == SIZE_BOUND_GB - 1;
    } else {
      assert Wrap(bytes + GB) == bytes + GB - TWO_TO_64;
      assert RoundUpGB(bytes) == -((TWO_TO_64 - bytes - GB + 1) / GB);
    }
  }

  // A negative byte count never rounds below itself.
  lemma RoundUpNegative(bytes: int64)
    requires bytes < 0
    ensures -SIZE_BOUND_GB <= RoundUpGB(bytes) <= 0 && bytes <= SizeGBToBytes(RoundUpGB(bytes))
  {
    var s := RoundUpGB(bytes);
    BytesFit(s);
  }

  // ---------- getVolumeSizeGB against sizeInGBMeetCapRange ----------

  // Soundness, with its exact condition: for every requirement a CSI caller may send and every
  // int64 limit, a size that getVolumeSizeGB returns meets the range unless the limit is negative
  // (one check ignores a negative limit, the other enforces it) or the rounding wrapped around.
  // A negative requirement is harmless under a non-negative limit.
  lemma ReturnedSizeMeetsExactlyWhen(required: int64, limit: int64)
    ensures var range := Range(required, limit);
            var result := GetVolumeSizeGB(range);
            result.Size? && required >= 0 ==>
              (MeetsRange(result.gb, range) <==> limit >= 0 && required <= MAX_ROUNDABLE)
    ensures var range := Range(required, limit);
            var result := GetVolumeSizeGB(range);
            result.Size? && required < 0 && limit >= 0 ==> MeetsRange(result.gb, range)
  {
    var range := Range(required, limit);
    var result := GetVolumeSizeGB(range);
    if result.Size? {
      if required < 0 {
        RoundUpNegative(required);
        BytesFit(result.gb);
      } else if required > 0 {
        RoundUpExactlyWhen(required);
        BytesFit(result.gb);
      } else {
        BytesFit(DEFAULT_VOLUME_SIZE_GB);
      }
    }
  }

  // The two ways in which a returned size fails its own range.
  lemma ReturnedSizeCanMiss()
    ensures GetVolumeSizeGB(Range(5 * GB, -1)) == Size(5) && !MeetsRange(5, Range(5 * GB, -1))
    ensures var result := GetVolumeSizeGB(Range(MAX_INT64, 0));
            result.Size? && result.gb < 0 && !MeetsRange(result.gb, Range(MAX_INT64, 0))
  {
    BytesFit(5);
    RoundUpExactlyWhen(5 * GB);
    RoundUpExactlyWhen(MAX_INT64);
    ReturnedSizeMeetsExactlyWhen(MAX_INT64, 0);
  }

  // Requirements that cannot be rounded are met by no size.
  lemma NoSizeBeyond(range: CapacityRange, gb: int64)
    requires range.Range? && range.required > MAX_ROUNDABLE && 0 <= gb < SIZE_BOUND_GB
    ensures !MeetsRange(gb, range)
  {
    BytesFit(gb);
  }

  // Minimality: with a positive requirement, no smaller whole-GB size meets the range.
  lemma ReturnedSizeIsLeast(range: CapacityRange, gb: int64)
    requires range.Range? && range.required > 0
    requires 0 <= gb < SIZE_BOUND_GB && MeetsRange(gb, range)
    ensures GetVolumeSizeGB(range).Size? && GetVolumeSizeGB(range).gb <= gb
  {
    if range.required > MAX_ROUNDABLE {
      NoSizeBeyond(range, gb);
    }
    RoundUpExactlyWhen(range.required);
    BytesFit(gb);
    BytesFit(RoundUpGB(range.required));
  }

  // Completeness, for every int64 range.  With a requirement that can be rounded, an error means that no
  // whole-GB size meets the range.  Beyond that no size ever does, and an error means only that the limit
  // is below the requirement.  With nothing required the code insists on its default size, so a positive
  // limit below 100 GB is refused although the size 0 meets it.  A negative limit is never an error.
  lemma InvalidExactlyWhen(required: int64, limit: int64)
    ensures var range := Range(required, limit);
            GetVolumeSizeGB(range).Invalid? <==>
              if limit < 0 then false
              else if required == 0 then 0 < limit < DEFAULT_VOLUME_SIZE_GB * GB
              else if required <= MAX_ROUNDABLE then
                forall gb: int64 | 0 <= gb < SIZE_BOUND_GB :: !MeetsRange(gb, range)
              else 0 < limit < required
  {
    var range := Range(required, limit);
    BytesFit(DEFAULT_VOLUME_SIZE_GB);
    if required < 0 {
      RoundUpNegative(required);
      BytesFit(RoundUpGB(required));
      BytesFit(0);
      assert limit >= 0 ==> MeetsRange(0, range);
    } else if required > MAX_ROUNDABLE {
      RoundUpExactlyWhen(required);
      BytesFit(RoundUpGB(required));
    } else if required > 0 {
      RoundUpExactlyWhen(required);
      if GetVolumeSizeGB(range).Size? {
        ReturnedSizeMeetsExactlyWhen(required, limit);
      } else {
        forall gb: int64 | 0 <= gb < SIZE_BOUND_GB ensures !MeetsRange(gb, range) {
          if MeetsRange(gb, range) {
            ReturnedSizeIsLeast(range, gb);
          }
        }
      }
    }
  }

  // ---------- the controller's test against the node's ----------

  // The node enforces a range only where there is one, and a limit only where it is positive.
  lemma NodeAcceptsExactlyWhen(deviceSize: int64, required: int64, limit: int64)
    ensures NodeAccepts(deviceSize, Unset)
    ensures NodeAccepts(deviceSize, Range(required, limit)) <==>
              required <= deviceSize && (limit > 0 ==> deviceSize <= limit)
  {}

  // On a device of a whole number of gigabytes the node's check is the controller's, but for a
  // negative limit, which only the controller enforces.
  lemma ChecksAgreeExactlyWhen(gb: int64, required: int64, limit: int64)
    requires 0 <= gb < SIZE_BOUND_GB
    ensures var range := Range(required, limit);
            (NodeAccepts(gb * GB, range) == MeetsRange(gb, range)) <==> (limit >= 0 || gb * GB < required)
  {
    BytesFit(gb);
  }
}
