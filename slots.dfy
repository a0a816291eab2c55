/**
 * The first-free scan that both allocators run: `for i in range(bound): if i
 * not in existing_numbers: return i`, raising when every slot is taken.
 */
module Slots {
  import opened Basics

  /** k is the smallest number of [0, bound) that `used` does not hold. */
  predicate IsLowestFree(k: int, used: set<int>, bound: nat) {
    0 <= k < bound && k !in used && forall j :: 0 <= j < k ==> j in used
  }

  /** Every number of [0, bound) is taken. */
  predicate Full(used: set<int>, bound: nat) {
    forall j :: 0 <= j < bound ==> j in used
  }

  /** The lowest free slot of [0, bound), or None when the range is full. */
  function LowestFree(used: set<int>, bound: nat): (r: Option<nat>)
    ensures r.Some? ==> IsLowestFree(r.value, used, bound)
    ensures r.None? <==> Full(used, bound)
  {
    LowestFreeFrom(used, 0, bound)
  }

  function LowestFreeFrom(used: set<int>, from: nat, bound: nat): (r: Option<nat>)
    requires forall j :: 0 <= j < from ==> j in used
    ensures r.Some? ==> IsLowestFree(r.value, used, bound)
    ensures r.None? <==> Full(used, bound)
    decreases bound - from
  {
    if from >= bound then None
    else if from !in used then Some(from)
    else LowestFreeFrom(used, from + 1, bound)
  }

  /** The lowest free slot is unique: any k that is lowest-free is what LowestFree returns. */
  lemma LowestFreeIs(k: int, used: set<int>, bound: nat)
    requires IsLowestFree(k, used, bound)
    ensures LowestFree(used, bound) == Some(k)
  {
  }

  /**
   * Taking the allocated slot moves the allocator on: with k added to the
   * used set, the next scan returns a strictly larger number or nothing.
   */
  lemma LowestFreeAfterTaking(used: set<int>, bound: nat)
    requires LowestFree(used, bound).Some?
    ensures var k := LowestFree(used, bound).value;
            var next := LowestFree(used + {k}, bound);
            next.Some? ==> next.value > k
  {
  }

  /**
   * Freeing a slot below which every slot is taken makes the next scan
   * return exactly that slot (occupancy is recomputed, never remembered).
   */
  lemma LowestFreeRefillsHole(used: set<int>, bound: nat, m: nat)
    requires m < bound
    requires forall j :: 0 <= j < m ==> j in used
    ensures LowestFree(used - {m}, bound) == Some(m)
  {
    LowestFreeIs(m, used - {m}, bound);
  }

  /** The scan itself, as the source writes it: the first i of range(bound) not in `used`. */
  method FirstFree(used: set<int>, bound: nat) returns (r: Option<nat>)
    ensures r == LowestFree(used, bound)
  {
    for i := 0 to bound
      invariant forall j :: 0 <= j < i ==> j in used
    {
      if i !in used {
        LowestFreeIs(i, used, bound);
        return Some(i);
      }
    }
    return None;
  }
}
