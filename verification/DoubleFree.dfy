/** Returning several trampolines to the pool (detours.cpp, 599-607, called from 938-955): its free lists stay sound
    exactly when no trampoline is returned twice. */
module DoubleFree {
  import opened Bytes
  import opened Trampolines
  import opened HookSteps

  /** Memory after the trampoline `t` has been returned, if it lies in memory. */
  function GivenBack(m: seq<Byte>, t: Dword): (r: seq<Byte>)
    ensures |r| == |m|
  {
    if Inside(|m|, t) then Returned(m, Mask(t), t) else m
  }

  /** A slot that has been returned holds zeros, but for the link to the slot that was first before it, and the region
      names it as the first one. */
  lemma SlotCleared(m: seq<Byte>, t: Dword)
    requires Inside(|m|, t)
    ensures var n, base := GivenBack(m, t), t - t % 0x1_0000;
            && (forall i | t <= i < t + 24 || t + 28 <= i < t + 32 :: n[i] == 0)
            && DwordAt(n, t + 24) == DwordAt(m, base + 8) && DwordAt(n, base + 8) == t
            && forall i | 0 <= i < |m| && !(t <= i < t + 32) && !(base + 8 <= i < base + 12) :: n[i] == m[i]
  {
    hide DwordAt, DwordBytes, Fill;
    var base := Mask(t);
    assert base == t - t % 0x1_0000;
    var zeros := Overwrite(m, t, Fill(0, 32));
    var link := DwordBytes(FreeOf(m, base));
    var linked := Overwrite(zeros, t + 24, link);
    DwordStored(zeros, t + 24, FreeOf(m, base));
    DwordStored(linked, base + 8, t);
    DwordElsewhere(linked, base + 8, DwordBytes(t), t + 24);
    forall i | t <= i < t + 32
      ensures zeros[i] == 0
    {
      assert zeros[i] == Fill(0, 32)[i - t];
    }
  }

  /** Memory after the trampolines `ts` have been returned, one after the other. */
  function ReturnedAll(m: seq<Byte>, ts: seq<Dword>): (r: seq<Byte>)
    ensures |r| == |m|
    decreases |ts|
  {
    if |ts| == 0 then m else ReturnedAll(GivenBack(m, ts[0]), ts[1..])
  }

  /** The regions after the trampolines `ts` have been returned. */
  function FreeAll(regions: seq<Region>, ts: seq<Dword>): seq<Region>
    decreases |ts|
  {
    if |ts| == 0 then regions else FreeAll(AfterFree(regions, ts[0]), ts[1..])
  }

  predicate AllInside(size: nat, ts: seq<Dword>)
  {
    |ts| > 0 ==> Inside(size, ts[0]) && AllInside(size, ts[1..])
  }

  predicate AllLive(regions: seq<Region>, ts: seq<Dword>)
  {
    |ts| > 0 ==> IsLive(regions, ts[0]) && AllLive(regions, ts[1..])
  }

  predicate NoRepeats(ts: seq<Dword>)
  {
    |ts| > 0 ==> ts[0] !in ts[1..] && NoRepeats(ts[1..])
  }

  lemma GivenBackIs(m: seq<Byte>, t: Dword)
    requires Inside(|m|, t)
    ensures GivenBack(m, t) == Returned(m, Mask(t), t)
  {
    hide Returned, Inside, Mask;
  }

  /** Each trampoline is in use when its turn comes. */
  predicate InTurn(regions: seq<Region>, ts: seq<Dword>)
    decreases |ts|
  {
    |ts| > 0 ==> IsLive(regions, ts[0]) && InTurn(AfterFree(regions, ts[0]), ts[1..])
  }

  lemma {:induction false} StillLive(regions: seq<Region>, t: Dword, ts: seq<Dword>)
    requires DistinctBases(regions) && IsLive(regions, t)
    ensures AllLive(AfterFree(regions, t), ts) <==> AllLive(regions, ts) && t !in ts
    decreases |ts|
  {
    hide DistinctBases, IsLive, AfterFree;
    if |ts| > 0 {
      FreeLive(regions, t, ts[0]);
      StillLive(regions, t, ts[1..]);
    }
  }

  lemma {:induction false} InTurnIs(regions: seq<Region>, ts: seq<Dword>)
    requires DistinctBases(regions)
    ensures InTurn(regions, ts) <==> AllLive(regions, ts) && NoRepeats(ts)
    decreases |ts|
  {
    hide DistinctBases, IsLive, AfterFree;
    if |ts| > 0 && IsLive(regions, ts[0]) {
      StillDistinct(regions, ts[0]);
      StillLive(regions, ts[0], ts[1..]);
      InTurnIs(AfterFree(regions, ts[0]), ts[1..]);
    }
  }

  /** Trampolines that are returned in turn leave a sound pool. */
  lemma {:induction false} ReturnedSound(m: seq<Byte>, head: Dword, regions: seq<Region>, ts: seq<Dword>)
    requires RegionList(m, head, regions) && DistinctBases(regions) && InTurn(regions, ts)
    ensures RegionList(ReturnedAll(m, ts), head, FreeAll(regions, ts)) && DistinctBases(FreeAll(regions, ts))
    ensures AllInside(|m|, ts)
    decreases |ts|
  {
    hide RegionList, DistinctBases, IsLive, AfterFree, GivenBack, Returned, Inside, Mask, OnlyRegion;
    if |ts| > 0 {
      FreeList(m, head, regions, ts[0]);
      GivenBackIs(m, ts[0]);
      StillDistinct(regions, ts[0]);
      ReturnedSound(GivenBack(m, ts[0]), head, AfterFree(regions, ts[0]), ts[1..]);
    }
  }

  // ---------------------------------------------------------------- a free list without an end

  /** The free list of the region at `base` never leaves the slots `trap`. */
  ghost predicate Trap(m: seq<Byte>, base: Dword, trap: set<Dword>)
  {
    && base + 0x1_0000 <= |m| && base % 0x1_0000 == 0 && FreeOf(m, base) in trap
    && forall a | a in trap :: Mask(a) == base && a % 32 == 0 && Inside(|m|, a) && DwordAt(m, a + 24) in trap
  }

  lemma {:induction false} TrapHasNoEnd(m: seq<Byte>, base: Dword, trap: set<Dword>, at: Dword, slots: seq<nat>)
    requires Trap(m, base, trap) && at in trap
    ensures !FreeChain(m, at, base, slots)
    decreases |slots|
  {
    hide FreeChain, DwordAt, FreeOf;
    if |slots| > 0 {
      FreeStep(m, at, base, slots);
      TrapHasNoEnd(m, base, trap, DwordAt(m, at + 24), slots[1..]);
    } else {
      NoChainFrom(m, at, base, slots);
    }
  }

  lemma NoChainFrom(m: seq<Byte>, at: Dword, base: Dword, slots: seq<nat>)
    requires base + 0x1_0000 <= |m| && at != 0 && |slots| == 0
    ensures !FreeChain(m, at, base, slots)
  {
  }

  /** Returning a trampoline does not open the trap. */
  lemma TrapStays(m: seq<Byte>, base: Dword, trap: set<Dword>, t: Dword) returns (more: set<Dword>)
    requires Trap(m, base, trap) && Inside(|m|, t) && t % 32 == 0
    ensures Trap(GivenBack(m, t), base, more)
  {
    hide GivenBack, DwordAt, FreeOf, OnlyRegion, Mask;
    SlotOf(t);
    var n := GivenBack(m, t);
    ReturnInside(m, t);
    if Mask(t) == base {
      more := trap + {t};
      forall a | a in more
        ensures DwordAt(n, a + 24) in more
      {
        if a != t {
          LinkKept(m, t, a);
        }
      }
    } else {
      more := trap;
      OtherRegion(m, n, Mask(t), base);
      DwordFrame(m, n, base, base + 0x1_0000, base + 8);
      FreeOfIs(m, n, base);
      forall a | a in more
        ensures DwordAt(n, a + 24) in more
      {
        LinkInRegion(m, a, base);
        DwordFrame(m, n, base, base + 0x1_0000, a + 24);
      }
    }
  }

  lemma FreeOfIs(m: seq<Byte>, n: seq<Byte>, base: Dword)
    requires base + 0x1_0000 <= |m| == |n| && DwordAt(n, base + 8) == DwordAt(m, base + 8)
    ensures FreeOf(n, base) == FreeOf(m, base)
  {
  }

  lemma LinkInRegion(m: seq<Byte>, a: Dword, base: Dword)
    requires Inside(|m|, a) && Mask(a) == base
    ensures base <= a + 24 && a + 28 <= base + 0x1_0000
  {
  }

  lemma ReturnInside(m: seq<Byte>, t: Dword)
    requires Inside(|m|, t)
    ensures Mask(t) + 0x1_0000 <= |m| && Mask(t) + 32 <= t <= Mask(t) + 0x1_0000 - 32
    ensures OnlyRegion(m, GivenBack(m, t), Mask(t))
    ensures FreeOf(GivenBack(m, t), Mask(t)) == t
    ensures DwordAt(GivenBack(m, t), t + 24) == FreeOf(m, Mask(t))
    ensures NextOf(GivenBack(m, t), Mask(t)) == NextOf(m, Mask(t))
  {
    hide Returned, OnlyRegion, DwordAt, Mask;
    GivenBackIs(m, t);
    ReturnEffect(m, Mask(t), t);
  }

  lemma LinkKept(m: seq<Byte>, t: Dword, a: Dword)
    requires Inside(|m|, t) && Inside(|m|, a) && Mask(a) == Mask(t) && a % 32 == 0 && t % 32 == 0 && a != t
    ensures DwordAt(GivenBack(m, t), a + 24) == DwordAt(m, a + 24)
  {
    hide Returned, DwordAt, Mask;
    GivenBackIs(m, t);
    SlotsApart(t, a);
    ReturnElsewhere(m, Mask(t), t, a + 24);
  }

  /** The free list up to the slot of `t`, which is on it. */
  lemma {:induction false} ListUpTo(m: seq<Byte>, at: Dword, base: Dword, slots: seq<nat>, t: Dword)
    returns (upTo: set<Dword>)
    requires base + 0x1_0000 <= |m| && base <= 0xffff_0000 && base % 0x1_0000 == 0 && FreeChain(m, at, base, slots)
    requires Mask(t) == base && t % 32 == 0 && Slot(t) in slots
    ensures at in upTo && t in upTo
    ensures forall a | a in upTo :: Mask(a) == base && a % 32 == 0 && Inside(|m|, a)
              && (a != t ==> DwordAt(m, a + 24) in upTo)
    decreases |slots|
  {
    hide FreeChain, DwordAt;
    FreeStep(m, at, base, slots);
    MaskSlot(base, slots[0]);
    SlotOf(t);
    upTo := {at};
    if at != t {
      var rest := ListUpTo(m, DwordAt(m, at + 24), base, slots[1..], t);
      upTo := {at} + rest;
    }
  }

  /** Returning a trampoline that is free already closes the trap. */
  lemma TrapCloses(m: seq<Byte>, base: Dword, free: seq<nat>, t: Dword) returns (trap: set<Dword>)
    requires base + 0x1_0000 <= |m| && base <= 0xffff_0000 && base % 0x1_0000 == 0
    requires FreeChain(m, FreeOf(m, base), base, free) && Mask(t) == base && t % 32 == 0 && Slot(t) in free
    requires Inside(|m|, t)
    ensures Trap(GivenBack(m, t), base, trap)
  {
    hide FreeChain, DwordAt, GivenBack, FreeOf, Mask;
    trap := ListUpTo(m, FreeOf(m, base), base, free, t);
    ReturnInside(m, t);
    var n := GivenBack(m, t);
    forall a | a in trap
      ensures DwordAt(n, a + 24) in trap
    {
      if a != t {
        LinkKept(m, t, a);
      }
    }
  }

  /** A trampoline that is returned twice in a row links to itself at the head of the free list, which has no end. */
  lemma ReturnedTwice(m: seq<Byte>, t: Dword, n: seq<Byte>)
    requires Inside(|m|, t) && t % 32 == 0 && n == ReturnedAll(m, [t, t])
    ensures Mask(t) + 0x1_0000 <= |n| && t + 28 <= |n| && FreeOf(n, Mask(t)) == t && DwordAt(n, t + 24) == t
    ensures forall slots :: !FreeChain(n, t, Mask(t), slots)
  {
    hide GivenBack, Returned, FreeChain, DwordAt, FreeOf, Mask, ReturnedAll, Trap;
    TwoReturned(m, t);
    SlotOf(t);
    ReturnInside(m, t);
    ReturnInside(GivenBack(m, t), t);
    LinkedToItself(n, t);
    forall slots
      ensures !FreeChain(n, t, Mask(t), slots)
    {
      TrapHasNoEnd(n, Mask(t), {t}, t, slots);
    }
  }

  lemma LinkedToItself(n: seq<Byte>, t: Dword)
    requires Inside(|n|, t) && t % 32 == 0 && Mask(t) % 0x1_0000 == 0
    requires FreeOf(n, Mask(t)) == t && DwordAt(n, t + 24) == t
    ensures Trap(n, Mask(t), {t})
  {
    hide DwordAt, FreeOf;
  }

  lemma TwoReturned(m: seq<Byte>, t: Dword)
    ensures ReturnedAll(m, [t, t]) == GivenBack(GivenBack(m, t), t)
  {
    hide GivenBack;
    assert [t, t][1..] == [t] && [t][1..] == [];
    assert ReturnedAll(GivenBack(GivenBack(m, t), t), []) == GivenBack(GivenBack(m, t), t);
  }

  // ---------------------------------------------------------------- the whole pool

  /** `a` is a slot of the pool that can be handed out. */
  predicate IsSlot(regions: seq<Region>, a: Dword)
  {
    HasBase(regions, Mask(a)) && a % 32 == 0 && Slot(a) >= 3
  }

  predicate AllSlots(regions: seq<Region>, ts: seq<Dword>)
  {
    |ts| > 0 ==> IsSlot(regions, ts[0]) && AllSlots(regions, ts[1..])
  }

  lemma {:induction false} LiveSlot(regions: seq<Region>, ts: seq<Dword>)
    requires AllLive(regions, ts)
    ensures AllSlots(regions, ts)
    decreases |ts|
  {
    hide IsLive, HasBase;
    if |ts| > 0 {
      LiveHasBase(regions, ts[0]);
      LiveAtThree(regions, ts[0]);
      LiveSlot(regions, ts[1..]);
    }
  }

  lemma {:induction false} LiveAtThree(regions: seq<Region>, a: Dword)
    requires IsLive(regions, a)
    ensures Slot(a) >= 3
    decreases |regions|
  {
    if !LiveIn(regions[0], a) {
      LiveAtThree(regions[1..], a);
    }
  }

  lemma {:induction false} SlotsStay(regions: seq<Region>, t: Dword, ts: seq<Dword>)
    requires AllSlots(regions, ts)
    ensures AllSlots(AfterFree(regions, t), ts)
    decreases |ts|
  {
    hide HasBase, AfterFree, Mask, Slot;
    if |ts| > 0 {
      SameBases(regions, t, Mask(ts[0]), 0);
      SlotsStay(regions, t, ts[1..]);
    }
  }

  /** A slot that is not in use is on the free list of its region. */
  lemma {:induction false} NotLiveIsFree(m: seq<Byte>, head: Dword, regions: seq<Region>, t: Dword)
    returns (free: seq<nat>)
    requires RegionList(m, head, regions) && IsSlot(regions, t) && !IsLive(regions, t)
    ensures var base := Mask(t);
            && base + 0x1_0000 <= |m| && base <= 0xffff_0000 && base % 0x1_0000 == 0 && Inside(|m|, t)
            && FreeChain(m, FreeOf(m, base), base, free) && Slot(t) in free
    decreases |regions|
  {
    hide RegionList, FreeChain, FreeOf, DwordAt, NextOf, SlotRange, Distinct;
    ListStep(m, head, regions);
    if regions[0].base == Mask(t) {
      free := regions[0].free;
      SlotOf(t);
    } else {
      free := NotLiveIsFree(m, NextOf(m, head), regions[1..], t);
    }
  }

  lemma SlotInside(m: seq<Byte>, head: Dword, regions: seq<Region>, t: Dword)
    requires RegionList(m, head, regions) && IsSlot(regions, t)
    ensures Inside(|m|, t) && Mask(t) + 0x1_0000 <= |m|
    decreases |regions|
  {
    hide FreeChain, FreeOf, DwordAt, NextOf, SlotRange, Distinct;
    ListStep(m, head, regions);
    if regions[0].base == Mask(t) {
      SlotOf(t);
    } else {
      SlotInside(m, NextOf(m, head), regions[1..], t);
    }
  }

  /** Which regions a list runs through is not changed by returning trampolines. */
  ghost predicate SameLinks(m: seq<Byte>, n: seq<Byte>, regions: seq<Region>)
  {
    |m| == |n| && (|regions| > 0 ==>
      && regions[0].base + 0x1_0000 <= |m| && NextOf(n, regions[0].base) == NextOf(m, regions[0].base)
      && SameLinks(m, n, regions[1..]))
  }

  lemma {:induction false} LinksOfReturned(m: seq<Byte>, n: seq<Byte>, head: Dword, regions: seq<Region>, t: Dword)
    requires RegionList(m, head, regions) && SameLinks(m, n, regions) && Inside(|n|, t) && t % 32 == 0
    ensures SameLinks(m, GivenBack(n, t), regions)
    decreases |regions|
  {
    hide RegionList, GivenBack, NextOf, OnlyRegion, Mask, Inside, RegionOk;
    if |regions| > 0 {
      ListStep(m, head, regions);
      Aligned(m, regions[0]);
      SlotOf(t);
      ReturnInside(n, t);
      var k := GivenBack(n, t);
      if regions[0].base != Mask(t) {
        OtherRegion(n, k, Mask(t), regions[0].base);
        DwordFrame(n, k, regions[0].base, regions[0].base + 0x1_0000, regions[0].base + 4);
        NextOfIs(n, k, regions[0].base);
      }
      LinksOfReturned(m, n, NextOf(m, head), regions[1..], t);
    }
  }

  lemma NextOfIs(m: seq<Byte>, n: seq<Byte>, base: Dword)
    requires base + 0x1_0000 <= |m| == |n| && DwordAt(n, base + 4) == DwordAt(m, base + 4)
    ensures NextOf(n, base) == NextOf(m, base)
  {
  }

  lemma {:induction false} SameLinksRefl(m: seq<Byte>, head: Dword, regions: seq<Region>)
    requires RegionList(m, head, regions)
    ensures SameLinks(m, m, regions)
    decreases |regions|
  {
    hide NextOf, FreeChain, FreeOf, SlotRange, Distinct;
    if |regions| > 0 {
      ListStep(m, head, regions);
      SameLinksRefl(m, NextOf(m, head), regions[1..]);
    }
  }

  /** With a trap in one of its regions, the pool is not sound. */
  lemma {:induction false} TrapSpoils(m: seq<Byte>, n: seq<Byte>, head: Dword, regions: seq<Region>, base: Dword,
                                      trap: set<Dword>, rs: seq<Region>)
    requires RegionList(m, head, regions) && SameLinks(m, n, regions) && HasBase(regions, base) && Trap(n, base, trap)
    ensures !RegionList(n, head, rs)
    decreases |regions|
  {
    hide RegionList, FreeChain, NextOf, Trap, RegionOk;
    ListStep(m, head, regions);
    Aligned(m, regions[0]);
    if |rs| == 0 {
      NoListFrom(n, head, rs);
    } else {
      ListStep(n, head, rs);
      if regions[0].base == base {
        TrapNotOk(n, base, trap, rs[0]);
      } else {
        TrapSpoils(m, n, NextOf(m, head), regions[1..], base, trap, rs[1..]);
      }
    }
  }

  lemma NoListFrom(n: seq<Byte>, head: Dword, rs: seq<Region>)
    requires head != 0 && |rs| == 0
    ensures !RegionList(n, head, rs)
  {
  }

  lemma TrapNotOk(n: seq<Byte>, base: Dword, trap: set<Dword>, r: Region)
    requires Trap(n, base, trap)
    ensures RegionOk(n, r) ==> r.base != base
  {
    hide FreeChain;
    TrapHasNoEnd(n, base, trap, FreeOf(n, base), r.free);
  }

  /** Once a list is trapped it stays so, whatever is returned after that. */
  lemma {:induction false} TrapForever(m: seq<Byte>, n: seq<Byte>, head: Dword, regions: seq<Region>, base: Dword,
                                       trap: set<Dword>, ts: seq<Dword>)
    returns (more: set<Dword>)
    requires RegionList(m, head, regions) && SameLinks(m, n, regions) && HasBase(regions, base) && Trap(n, base, trap)
    requires AllSlots(regions, ts)
    ensures SameLinks(m, ReturnedAll(n, ts), regions) && Trap(ReturnedAll(n, ts), base, more)
    decreases |ts|
  {
    hide RegionList, Trap, GivenBack, Inside, Mask, SameLinks;
    more := trap;
    if |ts| > 0 {
      SlotInside(m, head, regions, ts[0]);
      SameSize(m, n, regions);
      LinksOfReturned(m, n, head, regions, ts[0]);
      more := TrapStays(n, base, trap, ts[0]);
      more := TrapForever(m, GivenBack(n, ts[0]), head, regions, base, more, ts[1..]);
    }
  }

  lemma SameSize(m: seq<Byte>, n: seq<Byte>, regions: seq<Region>)
    requires SameLinks(m, n, regions)
    ensures |m| == |n|
  {
  }

  /** When a trampoline is returned that is free already, nothing that is returned later makes the pool sound again. */
  lemma {:induction false} SpoiltForever(m: seq<Byte>, head: Dword, regions: seq<Region>, ts: seq<Dword>,
                                         rs: seq<Region>)
    requires RegionList(m, head, regions) && DistinctBases(regions) && AllSlots(regions, ts) && !InTurn(regions, ts)
    ensures !RegionList(ReturnedAll(m, ts), head, rs)
    decreases |ts|
  {
    hide RegionList, DistinctBases, IsLive, AfterFree, Returned, Inside, Mask, OnlyRegion, Slot, HasBase, SameLinks,
      Trap;
    var t := ts[0];
    SlotInside(m, head, regions, t);
    if IsLive(regions, t) {
      FreeList(m, head, regions, t);
      StillDistinct(regions, t);
      SlotsStay(regions, t, ts[1..]);
      SpoiltForever(GivenBack(m, t), head, AfterFree(regions, t), ts[1..], rs);
    } else {
      var free := NotLiveIsFree(m, head, regions, t);
      var trap := TrapCloses(m, Mask(t), free, t);
      SameLinksRefl(m, head, regions);
      LinksOfReturned(m, m, head, regions, t);
      var more := TrapForever(m, GivenBack(m, t), head, regions, Mask(t), trap, ts[1..]);
      TrapSpoils(m, ReturnedAll(m, ts), head, regions, Mask(t), more, rs);
    }
  }

  /** Trampolines in use are returned: the pool is sound afterwards if and only if no two of them are the same. */
  lemma SoundIffNoRepeats(m: seq<Byte>, head: Dword, regions: seq<Region>, ts: seq<Dword>)
    requires RegionList(m, head, regions) && DistinctBases(regions) && AllLive(regions, ts)
    ensures NoRepeats(ts) <==> exists rs :: RegionList(ReturnedAll(m, ts), head, rs)
    ensures NoRepeats(ts) ==>
              RegionList(ReturnedAll(m, ts), head, FreeAll(regions, ts)) && DistinctBases(FreeAll(regions, ts))
  {
    hide *;
    InTurnIs(regions, ts);
    if NoRepeats(ts) {
      ReturnedSound(m, head, regions, ts);
    } else {
      LiveSlot(regions, ts);
      forall rs
        ensures !RegionList(ReturnedAll(m, ts), head, rs)
      {
        SpoiltForever(m, head, regions, ts, rs);
      }
    }
  }
}
