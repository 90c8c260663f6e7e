/** Allocation of an unoccupied DRBD volume number (VolumeNumberAlloc). */
module VolumeNumberAlloc {
  import opened Wrappers

  /** Bounds of the VolumeNumber range check (VolumeNumber.java is not part
      of this model; the allocator's guarantees below hold for any bounds). */
  const VOLUME_NR_MIN: int := 0
  const VOLUME_NR_MAX: int := 65535

  /** A value the VolumeNumber constructor accepts. */
  type VolumeNumber = n: int | VOLUME_NR_MIN <= n <= VOLUME_NR_MAX

  datatype AllocError = ExhaustedPool | ImplementationError(message: string)

  /** Unique occupied numbers in ascending order, as the allocator's callers
      must supply them. */
  predicate SortedUnique(occupied: seq<int>) {
    forall i, j :: 0 <= i < j < |occupied| ==> occupied[i] < occupied[j]
  }

  /** The number allocator (NumberAlloc.getFreeNumber): the smallest number of
      [n, max] that is not occupied, or None when every one of them is. */
  function FirstFree(occupied: seq<int>, n: int, max: int): (r: Option<int>)
    decreases max - n
    ensures r.Some? ==> n <= r.value <= max && r.value !in occupied
    ensures r.Some? ==> forall k :: n <= k < r.value ==> k in occupied
    ensures r.None? <==> forall k :: n <= k <= max ==> k in occupied
  {
    if n > max then None
    else if n in occupied then FirstFree(occupied, n + 1, max)
    else Some(n)
  }

  /** getFreeVolumeNumber: the smallest free number of [minVolNr, maxVolNr];
      ExhaustedPool exactly when the whole range is occupied. The fallback
      for a result the VolumeNumber range check rejects is never taken. */
  function GetFreeVolumeNumber(occupied: seq<int>, minVolNr: VolumeNumber, maxVolNr: VolumeNumber): (r: Result<int, AllocError>)
    requires SortedUnique(occupied)
    ensures r.Failure? ==> r.error == ExhaustedPool
    ensures r.Failure? <==> forall k :: minVolNr <= k <= maxVolNr ==> k in occupied
    ensures r.Success? ==> minVolNr <= r.value <= maxVolNr && r.value !in occupied
    ensures r.Success? ==> VOLUME_NR_MIN <= r.value <= VOLUME_NR_MAX
    ensures r.Success? ==> forall k :: minVolNr <= k < r.value ==> k in occupied
  {
    match FirstFree(occupied, minVolNr, maxVolNr)
    case None => Failure(ExhaustedPool)
    case Some(n) =>
      if VOLUME_NR_MIN <= n <= VOLUME_NR_MAX then Success(n)
      else Failure(ImplementationError("The algorithm allocated an invalid volume number"))
  }

  /** The numbers 0 .. count-1. */
  function Prefix(count: nat): (s: seq<int>)
    ensures |s| == count && forall i :: 0 <= i < count ==> s[i] == i
  {
    seq(count, i => i)
  }

  /** With 0 .. N-1 all occupied, the range [0, N-1] is exhausted. */
  lemma FullRangeExhausted(count: nat)
    requires 1 <= count <= VOLUME_NR_MAX + 1
    ensures GetFreeVolumeNumber(Prefix(count), 0, count - 1) == Failure(ExhaustedPool)
  {
    var occ := Prefix(count);
    forall k | 0 <= k <= count - 1 ensures k in occ {
      assert occ[k] == k;
    }
  }

  /** With 0 .. N-1 occupied, a range reaching beyond them yields N. */
  lemma NextAfterPrefix(count: nat, maxVolNr: VolumeNumber)
    requires count <= maxVolNr
    ensures GetFreeVolumeNumber(Prefix(count), 0, maxVolNr) == Success(count)
  {
    var occ := Prefix(count);
    forall k | 0 <= k < count ensures k in occ {
      assert occ[k] == k;
    }
    assert count !in occ;
  }
}
