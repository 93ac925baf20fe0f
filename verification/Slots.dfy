// Choosing the least free slot.
module Slots {
  import opened Machine

  // The least slot in from..maxSlot outside used; 0 when there is none.
  function FirstFree(used: set<uint32>, from: nat, maxSlot: uint32): (slot: uint32)
    requires from >= 1
    ensures slot != 0 ==> from <= slot <= maxSlot && slot !in used
    ensures forall s: uint32 :: from <= s <= maxSlot && (slot == 0 || s < slot) ==> s in used
    decreases maxSlot + 1 - from
  {
    if from > maxSlot then 0 else if from !in used then from else FirstFree(used, from + 1, maxSlot)
  }

  // The candidate is a 32-bit number: after the largest maxSlot it wraps to 0, and 0 is
  // never used.
  method FindFree(used: set<uint32>, maxSlot: uint32) returns (slot: uint32)
    requires 0 !in used
    ensures slot == FirstFree(used, 1, maxSlot)
  {
    slot := 0;
    var candidate: uint32 := 1;
    while candidate <= maxSlot
      invariant slot == 0
      invariant candidate == 0 ==> FirstFree(used, 1, maxSlot) == 0
      invariant candidate > 0 ==> FirstFree(used, candidate, maxSlot) == FirstFree(used, 1, maxSlot)
      decreases if candidate == 0 then 0 else TWO_32 - candidate
    {
      if candidate !in used {
        slot := candidate;
        break;
      }
      candidate := (candidate + 1) % TWO_32;
    }
  }

  function SlotsUpTo(maxSlot: uint32): (all: set<uint32>)
    ensures forall s: uint32 :: s in all <==> 1 <= s <= maxSlot
    ensures |all| == maxSlot
  {
    if maxSlot == 0 then {} else SlotsUpTo(maxSlot - 1) + {maxSlot}
  }

  // A set of slots has maxSlot members exactly when no slot is missing from it.
  lemma FullIff(held: set<uint32>, maxSlot: uint32)
    requires held <= SlotsUpTo(maxSlot)
    ensures |held| <= maxSlot
    ensures |held| == maxSlot <==> FirstFree(held, 1, maxSlot) == 0
  {
    SubsetSize(held, SlotsUpTo(maxSlot));
    if FirstFree(held, 1, maxSlot) == 0 {
      assert held == SlotsUpTo(maxSlot);
    }
  }

  lemma SubsetSize<T>(a: set<T>, b: set<T>)
    requires a <= b
    ensures |a| <= |b|
    ensures |a| == |b| <==> a == b
  {
    assert b == a + (b - a);
    assert |b| == |a| + |b - a|;
  }
}
