/**
 The gate on forwarded rounds (`src/protocol.rs`, `RoundDedup` and `RoundForwardGate`): a ring of
 recently forwarded rounds and the last one.
 */
module ForwardGate {
  import opened Primitives

  predicate IsPowerOfTwo(n: nat) {
    n == 1 || (n > 1 && n % 2 == 0 && IsPowerOfTwo(n / 2))
  }

  // The least power of two from `p` on that is at least `n`.
  function PowerOfTwoFrom(p: nat, n: nat): (r: nat)
    requires IsPowerOfTwo(p)
    ensures IsPowerOfTwo(r) && r >= n && r >= p
    ensures r > p ==> r < 2 * n
    decreases n - p
  {
    if p >= n then p else PowerOfTwoFrom(2 * p, n)
  }

  class RoundDedup {
    const slots: array<u32>

    constructor (cap: nat)
      ensures fresh(slots) && IsPowerOfTwo(slots.Length) && slots.Length >= cap
      ensures forall i | 0 <= i < slots.Length :: slots[i] == 0
    {
      slots := new u32[PowerOfTwoFrom(1, cap)](_ => 0);
    }

    // The slot of a round: the source masks with the power-of-two capacity less one.
    ghost function SlotOf(r: u32): nat
      requires slots.Length > 0
    {
      r % slots.Length
    }

    // Put the round in its slot; it is new if the slot held another.
    method IsNew(r: u32) returns (new_: bool)
      requires slots.Length > 0
      modifies slots
      ensures new_ == (old(slots[SlotOf(r)]) != r)
      ensures slots[..] == old(slots[..])[SlotOf(r) := r]
    {
      var k := r % slots.Length;
      new_ := slots[k] != r;
      slots[k] := r;
    }
  }

  class RoundForwardGate {
    var lastForwarded: u32
    const dedup: RoundDedup

    constructor (cap: nat, lastForwarded: u32)
      ensures Valid() && this.lastForwarded == lastForwarded
      ensures fresh(dedup) && fresh(dedup.slots)
    {
      this.lastForwarded := lastForwarded;
      dedup := new RoundDedup(cap);
    }

    // The ring holds no round above the last forwarded one.
    ghost predicate Valid()
      reads this, dedup, dedup.slots
    {
      dedup.slots.Length > 0 && forall i | 0 <= i < dedup.slots.Length :: dedup.slots[i] <= lastForwarded
    }

    // For the active's blocks the verdict is "higher than the last forwarded round", whatever the
    // ring holds; for another peer's, "exactly the next one".
    method ShouldForward(round: u32, fromActive: bool) returns (forward: bool)
      requires Valid()
      modifies this, dedup.slots
      ensures Valid()
      ensures fromActive ==> (forward <==> round > old(lastForwarded))
      ensures !fromActive && old(lastForwarded) < U32_MAX ==>
                (forward <==> old(lastForwarded) != 0 && round == old(lastForwarded) + 1)
      ensures lastForwarded == if forward then round else old(lastForwarded)
      ensures !forward && round <= old(lastForwarded) != 0 && fromActive ==> dedup.slots[..] == old(dedup.slots[..])
    {
      var prev := lastForwarded;
      if fromActive {
        if prev != 0 && round <= prev {
          return false;
        }
      } else if prev == 0 || round != SatAdd(prev, 1) {
        return false;
      }
      var isNew := dedup.IsNew(round);
      if !isNew {
        return false;
      }
      lastForwarded := round;
      return true;
    }
  }
}
