/**
 The trampoline pool of loader_dll/detours/detours.cpp: 64K regions of 32-byte slots, whose free
 lists are threaded through the slots themselves.
 */
module Trampolines {
  import opened Bytes

  /** A region as the pool means it: its address and its free slots, in list order.  Slot 0 holds
      the region header; slots 1 and 2 are never handed out. */
  datatype Region = Region(base: Dword, free: seq<nat>)

  predicate Distinct<T(==)>(s: seq<T>)
  {
    forall i, j | 0 <= i < j < |s| :: s[i] != s[j]
  }

  predicate SlotRange(s: seq<nat>)
  {
    forall i | 0 <= i < |s| :: 3 <= s[i] < 2048
  }

  function SlotAt(base: Dword, slot: nat): int { base + 32 * slot }

  // Where a region keeps its links: pNext and pFree in its header, pbRemain in each free slot.
  function NextOf(m: seq<Byte>, base: Dword): Dword
    requires base + 0x1_0000 <= |m|
  {
    DwordAt(m, base + 4)
  }

  function FreeOf(m: seq<Byte>, base: Dword): Dword
    requires base + 0x1_0000 <= |m|
  {
    DwordAt(m, base + 8)
  }

  /** The free list from `head` runs through exactly `slots`. */
  ghost predicate FreeChain(m: seq<Byte>, head: Dword, base: Dword, slots: seq<nat>)
    requires base + 0x1_0000 <= |m|
    decreases |slots|
  {
    if |slots| == 0 then head == 0
    else
      && 3 <= slots[0] < 2048 && head == SlotAt(base, slots[0])
      && FreeChain(m, DwordAt(m, head + 24), base, slots[1..])
  }

  /** One region is where it says and its free list holds distinct slots. */
  ghost predicate RegionOk(m: seq<Byte>, r: Region)
  {
    && 0 < r.base <= 0xffff_0000 && r.base % 0x1_0000 == 0 && r.base + 0x1_0000 <= |m|
    && SlotRange(r.free) && Distinct(r.free)
    && FreeChain(m, FreeOf(m, r.base), r.base, r.free)
  }

  /** The region list from `head` runs through exactly `regions`. */
  ghost predicate RegionList(m: seq<Byte>, head: Dword, regions: seq<Region>)
    decreases |regions|
  {
    if |regions| == 0 then head == 0
    else
      && RegionOk(m, regions[0]) && head == regions[0].base
      && RegionList(m, NextOf(m, head), regions[1..])
  }

  // ---------------------------------------------------------------- one step of each

  lemma FreeStep(m: seq<Byte>, head: Dword, base: Dword, slots: seq<nat>)
    requires base + 0x1_0000 <= |m| && |slots| > 0
    ensures FreeChain(m, head, base, slots) <==>
            && 3 <= slots[0] < 2048 && head == SlotAt(base, slots[0])
            && FreeChain(m, DwordAt(m, head + 24), base, slots[1..])
  {
  }

  lemma ListStep(m: seq<Byte>, head: Dword, regions: seq<Region>)
    requires |regions| > 0
    ensures RegionList(m, head, regions) <==>
            && RegionOk(m, regions[0]) && head == regions[0].base
            && RegionList(m, NextOf(m, head), regions[1..])
  {
  }

  lemma DwordFrame(m: seq<Byte>, n: seq<Byte>, lo: nat, hi: nat, at: nat)
    requires lo <= at && at + 4 <= hi <= |m| && |m| == |n| && m[lo..hi] == n[lo..hi]
    ensures DwordAt(n, at) == DwordAt(m, at)
  {
    assert forall i | lo <= i < hi :: m[i] == m[lo..hi][i - lo] == n[i];
  }

  // ---------------------------------------------------------------- frames

  /** A free list depends on the link words of its slots only. */
  lemma {:induction false} FreeFrame(m: seq<Byte>, n: seq<Byte>, head: Dword, base: Dword, slots: seq<nat>)
    requires base + 0x1_0000 <= |m| == |n| && SlotRange(slots)
    requires FreeChain(m, head, base, slots)
    requires forall i | 0 <= i < |slots| ::
               DwordAt(n, SlotAt(base, slots[i]) + 24) == DwordAt(m, SlotAt(base, slots[i]) + 24)
    ensures FreeChain(n, head, base, slots)
    decreases |slots|
  {
    if |slots| > 0 {
      FreeStep(m, head, base, slots);
      FreeStep(n, head, base, slots);
      FreeFrame(m, n, DwordAt(m, head + 24), base, slots[1..]);
    }
  }

  /** A region whose 64K did not change is as it was. */
  lemma RegionFrame(m: seq<Byte>, n: seq<Byte>, r: Region)
    requires |m| == |n| && RegionOk(m, r) && m[r.base..r.base + 0x1_0000] == n[r.base..r.base + 0x1_0000]
    ensures RegionOk(n, r) && NextOf(n, r.base) == NextOf(m, r.base)
  {
    DwordFrame(m, n, r.base, r.base + 0x1_0000, r.base + 4);
    DwordFrame(m, n, r.base, r.base + 0x1_0000, r.base + 8);
    forall i | 0 <= i < |r.free|
      ensures DwordAt(n, SlotAt(r.base, r.free[i]) + 24) == DwordAt(m, SlotAt(r.base, r.free[i]) + 24)
    {
      DwordFrame(m, n, r.base, r.base + 0x1_0000, SlotAt(r.base, r.free[i]) + 24);
    }
    FreeFrame(m, n, FreeOf(m, r.base), r.base, r.free);
  }

  /** Memory changed inside the 64K from `base` on, and nowhere else. */
  ghost predicate OnlyRegion(m: seq<Byte>, n: seq<Byte>, base: Dword)
  {
    && base + 0x1_0000 <= |m| == |n|
    && m[..base] == n[..base] && m[base + 0x1_0000..] == n[base + 0x1_0000..]
  }

  lemma OtherRegion(m: seq<Byte>, n: seq<Byte>, base: Dword, other: Dword)
    requires OnlyRegion(m, n, base) && other != base && base % 0x1_0000 == 0 && other % 0x1_0000 == 0
    requires other + 0x1_0000 <= |m|
    ensures m[other..other + 0x1_0000] == n[other..other + 0x1_0000]
  {
    if other < base {
      assert other + 0x1_0000 <= base;
      assert m[other..other + 0x1_0000] == m[..base][other..other + 0x1_0000];
      assert n[other..other + 0x1_0000] == n[..base][other..other + 0x1_0000];
    } else {
      var k := other - (base + 0x1_0000);
      assert k >= 0;
      SliceOfSuffix(m, base + 0x1_0000, k, k + 0x1_0000);
      SliceOfSuffix(n, base + 0x1_0000, k, k + 0x1_0000);
    }
  }

  /** A change inside a region that is not in the list does not touch the list. */
  lemma {:induction false} ListFrame(m: seq<Byte>, n: seq<Byte>, head: Dword, regions: seq<Region>, base: Dword)
    requires OnlyRegion(m, n, base) && base % 0x1_0000 == 0
    requires RegionList(m, head, regions)
    requires !HasBase(regions, base)
    ensures RegionList(n, head, regions)
    decreases |regions|
  {
    if |regions| > 0 {
      ListStep(m, head, regions);
      ListStep(n, head, regions);
      OtherRegion(m, n, base, regions[0].base);
      RegionFrame(m, n, regions[0]);
      ListFrame(m, n, NextOf(m, head), regions[1..], base);
    }
  }

  lemma Aligned(m: seq<Byte>, r: Region)
    requires RegionOk(m, r)
    ensures 0 < r.base <= 0xffff_0000 && r.base % 0x1_0000 == 0 && r.base + 0x1_0000 <= |m|
    ensures SlotRange(r.free) && Distinct(r.free)
  {
  }

  // ---------------------------------------------------------------- taking and returning a slot

  /** Memory after the first free slot of a region has been taken and filled with BRK. */
  function Taken(m: seq<Byte>, base: Dword): (r: seq<Byte>)
    requires base + 0x1_0000 <= |m| && base + 32 <= FreeOf(m, base) <= base + 0x1_0000 - 32
    ensures |r| == |m|
  {
    var t := FreeOf(m, base);
    Overwrite(Overwrite(m, base + 8, DwordBytes(DwordAt(m, t + 24))), t, Brks(32))
  }

  /** Memory after the slot at `t` has been zeroed and put at the head of its region's free list. */
  function Returned(m: seq<Byte>, base: Dword, t: Dword): (r: seq<Byte>)
    requires base + 0x1_0000 <= |m| && base + 32 <= t <= base + 0x1_0000 - 32
    ensures |r| == |m|
  {
    var linked := Overwrite(Overwrite(m, t, Fill(0, 32)), t + 24, DwordBytes(FreeOf(m, base)));
    Overwrite(linked, base + 8, DwordBytes(t))
  }

  lemma FirstFree(m: seq<Byte>, r: Region)
    requires RegionOk(m, r)
    ensures r.free == [] <==> FreeOf(m, r.base) == 0
    ensures r.free != [] ==>
              && FreeOf(m, r.base) == SlotAt(r.base, r.free[0])
              && r.base + 96 <= FreeOf(m, r.base) <= r.base + 0x1_0000 - 32
              && FreeChain(m, DwordAt(m, FreeOf(m, r.base) + 24), r.base, r.free[1..])
  {
    if r.free != [] {
      FreeStep(m, FreeOf(m, r.base), r.base, r.free);
    }
  }

  lemma InsideRegion(m: seq<Byte>, base: Dword, at: nat, bytes: seq<Byte>)
    requires base + 0x1_0000 <= |m| && base <= at && at + |bytes| <= base + 0x1_0000
    ensures OnlyRegion(m, Overwrite(m, at, bytes), base)
  {
    OverwriteElsewhere(m, at, bytes, 0, base);
    OverwriteElsewhere(m, at, bytes, base + 0x1_0000, |m|);
  }

  lemma OnlyRegionTrans(m: seq<Byte>, n: seq<Byte>, k: seq<Byte>, base: Dword)
    requires OnlyRegion(m, n, base) && OnlyRegion(n, k, base)
    ensures OnlyRegion(m, k, base)
  {
  }

  /** Taking a slot rewrites pFree and the slot, and nothing else. */
  lemma TakeEffect(m: seq<Byte>, base: Dword)
    requires base + 0x1_0000 <= |m| && base + 32 <= FreeOf(m, base) <= base + 0x1_0000 - 32
    ensures var t := FreeOf(m, base);
            && OnlyRegion(m, Taken(m, base), base)
            && NextOf(Taken(m, base), base) == NextOf(m, base)
            && FreeOf(Taken(m, base), base) == DwordAt(m, t + 24)
  {
    hide Overwrite, OnlyRegion, DwordAt, DwordBytes, Fill;
    var t: int := FreeOf(m, base);
    var next := DwordAt(m, t + 24);
    var m1 := Overwrite(m, base + 8, DwordBytes(next));
    InsideRegion(m, base, base + 8, DwordBytes(next));
    InsideRegion(m1, base, t, Brks(32));
    OnlyRegionTrans(m, m1, Taken(m, base), base);
    DwordElsewhere(m, base + 8, DwordBytes(next), base + 4);
    DwordElsewhere(m1, t, Brks(32), base + 4);
    DwordStored(m, base + 8, next);
    DwordElsewhere(m1, t, Brks(32), base + 8);
  }

  lemma TakeElsewhere(m: seq<Byte>, base: Dword, a: nat)
    requires base + 0x1_0000 <= |m| && base + 32 <= FreeOf(m, base) <= base + 0x1_0000 - 32
    requires base + 12 <= a && a + 4 <= |m| && (a + 4 <= FreeOf(m, base) || FreeOf(m, base) + 32 <= a)
    ensures DwordAt(Taken(m, base), a) == DwordAt(m, a)
  {
    var t: int := FreeOf(m, base);
    var next := DwordAt(m, t + 24);
    var m1 := Overwrite(m, base + 8, DwordBytes(next));
    hide Overwrite;
    DwordElsewhere(m, base + 8, DwordBytes(next), a);
    DwordElsewhere(m1, t, Brks(32), a);
  }

  lemma TakeOk(m: seq<Byte>, r: Region)
    requires RegionOk(m, r) && r.free != []
    ensures FreeOf(m, r.base) == SlotAt(r.base, r.free[0])
    ensures r.base + 32 <= FreeOf(m, r.base) <= r.base + 0x1_0000 - 32
    ensures OnlyRegion(m, Taken(m, r.base), r.base) && NextOf(Taken(m, r.base), r.base) == NextOf(m, r.base)
    ensures RegionOk(Taken(m, r.base), Region(r.base, r.free[1..]))
  {
    hide Taken, FreeChain, OnlyRegion, NextOf, DwordAt, SlotRange, Distinct;
    FirstFree(m, r);
    TailOk(r.free);
    TakeEffect(m, r.base);
    TakeChain(m, r.base, r.free);
  }

  lemma TailOk(s: seq<nat>)
    requires |s| > 0 && SlotRange(s) && Distinct(s)
    ensures SlotRange(s[1..]) && Distinct(s[1..])
  {
    assert forall i | 0 <= i < |s[1..]| :: s[1..][i] == s[i + 1];
  }

  lemma TakeChain(m: seq<Byte>, base: Dword, free: seq<nat>)
    requires base + 0x1_0000 <= |m| && |free| > 0 && SlotRange(free) && Distinct(free)
    requires FreeOf(m, base) == SlotAt(base, free[0])
    requires FreeChain(m, DwordAt(m, FreeOf(m, base) + 24), base, free[1..])
    ensures FreeChain(Taken(m, base), DwordAt(m, FreeOf(m, base) + 24), base, free[1..])
  {
    hide Taken, FreeChain, FreeOf, DwordAt;
    forall i | 0 <= i < |free[1..]|
      ensures DwordAt(Taken(m, base), SlotAt(base, free[1..][i]) + 24) == DwordAt(m, SlotAt(base, free[1..][i]) + 24)
    {
      assert free[0] != free[i + 1];
      TakeElsewhere(m, base, SlotAt(base, free[i + 1]) + 24);
    }
    FreeFrame(m, Taken(m, base), DwordAt(m, FreeOf(m, base) + 24), base, free[1..]);
  }

  /** Returning a slot rewrites pFree and the slot, and nothing else. */
  lemma ReturnEffect(m: seq<Byte>, base: Dword, t: Dword)
    requires base + 0x1_0000 <= |m| && base + 32 <= t <= base + 0x1_0000 - 32
    ensures var n := Returned(m, base, t);
            && OnlyRegion(m, n, base) && NextOf(n, base) == NextOf(m, base)
            && FreeOf(n, base) == t && DwordAt(n, t + 24) == FreeOf(m, base)
  {
    hide Overwrite, OnlyRegion, DwordAt, DwordBytes, Fill;
    var head := FreeOf(m, base);
    var m1 := Overwrite(m, t, Fill(0, 32));
    var m2 := Overwrite(m1, t + 24, DwordBytes(head));
    InsideRegion(m, base, t, Fill(0, 32));
    InsideRegion(m1, base, t + 24, DwordBytes(head));
    InsideRegion(m2, base, base + 8, DwordBytes(t));
    OnlyRegionTrans(m, m1, m2, base);
    OnlyRegionTrans(m, m2, Returned(m, base, t), base);
    DwordElsewhere(m, t, Fill(0, 32), base + 4);
    DwordElsewhere(m1, t + 24, DwordBytes(head), base + 4);
    DwordElsewhere(m2, base + 8, DwordBytes(t), base + 4);
    DwordStored(m1, t + 24, head);
    DwordElsewhere(m2, base + 8, DwordBytes(t), t + 24);
    DwordStored(m2, base + 8, t);
  }

  lemma ReturnElsewhere(m: seq<Byte>, base: Dword, t: Dword, a: nat)
    requires base + 0x1_0000 <= |m| && base + 32 <= t <= base + 0x1_0000 - 32
    requires base + 12 <= a && a + 4 <= |m| && (a + 4 <= t || t + 32 <= a)
    ensures DwordAt(Returned(m, base, t), a) == DwordAt(m, a)
  {
    hide Overwrite, DwordAt, DwordBytes;
    var head := FreeOf(m, base);
    var m1 := Overwrite(m, t, Fill(0, 32));
    var m2 := Overwrite(m1, t + 24, DwordBytes(head));
    DwordElsewhere(m, t, Fill(0, 32), a);
    DwordElsewhere(m1, t + 24, DwordBytes(head), a);
    DwordElsewhere(m2, base + 8, DwordBytes(t), a);
  }

  lemma ReturnOk(m: seq<Byte>, r: Region, slot: nat)
    requires RegionOk(m, r) && 3 <= slot < 2048 && slot !in r.free
    ensures OnlyRegion(m, Returned(m, r.base, SlotAt(r.base, slot)), r.base)
    ensures NextOf(Returned(m, r.base, SlotAt(r.base, slot)), r.base) == NextOf(m, r.base)
    ensures RegionOk(Returned(m, r.base, SlotAt(r.base, slot)), Region(r.base, [slot] + r.free))
  {
    hide Returned, OnlyRegion, FreeOf, NextOf, FreeChain, DwordAt;
    var t: Dword := SlotAt(r.base, slot);
    var n := Returned(m, r.base, t);
    ReturnEffect(m, r.base, t);
    forall i | 0 <= i < |r.free|
      ensures DwordAt(n, SlotAt(r.base, r.free[i]) + 24) == DwordAt(m, SlotAt(r.base, r.free[i]) + 24)
    {
      assert slot != r.free[i];
      ReturnElsewhere(m, r.base, t, SlotAt(r.base, r.free[i]) + 24);
    }
    FreeFrame(m, n, FreeOf(m, r.base), r.base, r.free);
    Pushed(n, t, r.base, slot, r.free);
  }

  lemma Pushed(n: seq<Byte>, t: Dword, base: Dword, slot: nat, free: seq<nat>)
    requires base + 0x1_0000 <= |n| && 3 <= slot < 2048 && t == SlotAt(base, slot)
    requires SlotRange(free) && Distinct(free) && slot !in free && FreeChain(n, DwordAt(n, t + 24), base, free)
    ensures SlotRange([slot] + free) && Distinct([slot] + free) && FreeChain(n, t, base, [slot] + free)
  {
    FreeStep(n, t, base, [slot] + free);
    assert ([slot] + free)[1..] == free;
  }

  // ---------------------------------------------------------------- live slots

  /** The region that owns an address, and the slot within it: the low 16 bits masked off and kept. */
  function Mask(a: Dword): Dword { a - a % 0x1_0000 }
  function Slot(a: Dword): nat { a % 0x1_0000 / 32 }

  lemma MaskSlot(base: Dword, slot: nat)
    requires base <= 0xffff_0000 && base % 0x1_0000 == 0 && slot < 2048
    ensures SlotAt(base, slot) < 0x1_0000_0000
    ensures Mask(SlotAt(base, slot)) == base && Slot(SlotAt(base, slot)) == slot && SlotAt(base, slot) % 32 == 0
  {
    var k := base / 0x1_0000;
    assert base == 0x1_0000 * k;
    var a := SlotAt(base, slot);
    assert a % 0x1_0000 == 32 * slot;
    assert a == 32 * (2048 * k + slot);
  }

  lemma SlotOf(a: Dword)
    requires a % 32 == 0
    ensures a == SlotAt(Mask(a), Slot(a)) && Slot(a) < 2048 && Mask(a) % 0x1_0000 == 0
  {
    var k := a / 0x1_0000;
    var low := a % 0x1_0000;
    assert a == 0x1_0000 * k + low && Mask(a) == 0x1_0000 * k;
    assert a == 32 * (a / 32);
    assert low == 32 * (a / 32 - 2048 * k);
  }

  function Elems(s: seq<nat>): (r: set<nat>)
    ensures forall x :: x in r <==> x in s
  {
    if |s| == 0 then {} else Elems(s[1..]) + {s[0]}
  }

  /** The free list of a new region from slot `k` on. */
  function Slots(k: nat): seq<nat>
    requires k <= 2048
    decreases 2048 - k
  {
    if k == 2048 then [] else [k] + Slots(k + 1)
  }

  lemma {:induction false} SlotsFrom(k: nat)
    requires k <= 2048
    ensures |Slots(k)| == 2048 - k && Distinct(Slots(k))
    ensures forall x :: x in Slots(k) <==> k <= x < 2048
    decreases 2048 - k
  {
    if k < 2048 {
      SlotsFrom(k + 1);
      assert k !in Slots(k + 1);
    }
  }

  /** The slots of a region that are handed out. */
  function LiveSlots(r: Region): set<nat>
  {
    Elems(Slots(3)) - Elems(r.free)
  }

  /** In every region, the free and the live slots together are 2045. */
  lemma FreePlusLive(r: Region)
    requires SlotRange(r.free) && Distinct(r.free)
    ensures |r.free| + |LiveSlots(r)| == 2045
  {
    hide Slots, Elems, Distinct;
    SlotsFrom(3);
    DistinctSize(Slots(3));
    DistinctSize(r.free);
    SubsetSize(Elems(Slots(3)), Elems(r.free));
  }

  lemma SubsetSize(all: set<nat>, some: set<nat>)
    requires some <= all
    ensures |some| + |all - some| == |all|
  {
    assert all - some + some == all;
  }

  lemma LiveInSlots(r: Region, a: Dword)
    ensures LiveIn(r, a) <==> a % 32 == 0 && r.base == Mask(a) && Slot(a) in LiveSlots(r)
  {
    hide Slots;
    SlotsFrom(3);
    if a % 32 == 0 {
      SlotOf(a);
    }
  }

  lemma {:induction false} DistinctSize(s: seq<nat>)
    requires Distinct(s)
    ensures |Elems(s)| == |s|
  {
    if |s| > 0 {
      DistinctSize(s[1..]);
      assert s[0] !in Elems(s[1..]);
    }
  }

  // ---------------------------------------------------------------- steps of the whole pool

  /** The regions after the slot at `t` has gone back to its owner. */
  function AfterFree(regions: seq<Region>, t: Dword): seq<Region>
  {
    if |regions| == 0 then []
    else if regions[0].base == Mask(t) then [Region(Mask(t), [Slot(t)] + regions[0].free)] + regions[1..]
    else [regions[0]] + AfterFree(regions[1..], t)
  }

  /** The regions after the region at `base` has handed out its first free slot. */
  function AfterTake(regions: seq<Region>, base: Dword): seq<Region>
  {
    if |regions| == 0 then []
    else if regions[0].base == base then
      [Region(base, if |regions[0].free| > 0 then regions[0].free[1..] else [])] + regions[1..]
    else [regions[0]] + AfterTake(regions[1..], base)
  }

  /** The regions have different addresses. */
  predicate DistinctBases(regions: seq<Region>)
  {
    |regions| > 0 ==> !HasBase(regions[1..], regions[0].base) && DistinctBases(regions[1..])
  }

  predicate HasBase(regions: seq<Region>, base: Dword)
  {
    |regions| > 0 && (regions[0].base == base || HasBase(regions[1..], base))
  }

  /** `a` is a trampoline that the region `r` has handed out. */
  predicate LiveIn(r: Region, a: Dword)
  {
    a % 32 == 0 && r.base == Mask(a) && 3 <= Slot(a) && Slot(a) !in r.free
  }

  /** `a` is a trampoline that the pool has handed out. */
  predicate IsLive(regions: seq<Region>, a: Dword)
  {
    |regions| > 0 && (LiveIn(regions[0], a) || IsLive(regions[1..], a))
  }

  /** The byte at `i` belongs to the pool. */
  predicate InPool(regions: seq<Region>, i: int)
  {
    |regions| > 0 && (regions[0].base <= i < regions[0].base + 0x1_0000 || InPool(regions[1..], i))
  }

  /** A slot lies inside the region its address names. */
  predicate Inside(size: nat, t: Dword)
  {
    Mask(t) + 0x1_0000 <= size && Mask(t) + 32 <= t <= Mask(t) + 0x1_0000 - 32
  }

  lemma LiveInside(m: seq<Byte>, r: Region, t: Dword)
    requires RegionOk(m, r) && LiveIn(r, t)
    ensures Inside(|m|, t) && t == SlotAt(r.base, Slot(t)) && 3 <= Slot(t) < 2048
    ensures Mask(t) == r.base && Slot(t) !in r.free
  {
    SlotOf(t);
  }

  lemma {:induction false} FreeList(m: seq<Byte>, head: Dword, regions: seq<Region>, t: Dword)
    requires RegionList(m, head, regions) && DistinctBases(regions) && IsLive(regions, t)
    ensures Inside(|m|, t)
    ensures RegionList(Returned(m, Mask(t), t), head, AfterFree(regions, t))
    ensures OnlyRegion(m, Returned(m, Mask(t), t), Mask(t))
    decreases |regions|
  {
    hide RegionList, RegionOk, Returned, NextOf, OnlyRegion, LiveIn, Mask;
    ListStep(m, head, regions);
    var r := regions[0];
    Aligned(m, r);
    if LiveIn(r, t) {
      LiveInside(m, r, t);
      ReturnOk(m, r, Slot(t));
      var n := Returned(m, r.base, t);
      ListFrame(m, n, NextOf(m, head), regions[1..], r.base);
      ListStep(n, head, AfterFree(regions, t));
      assert AfterFree(regions, t)[1..] == regions[1..];
    } else {
      FreeList(m, NextOf(m, head), regions[1..], t);
      LiveHasBase(regions[1..], t);
      var n := Returned(m, Mask(t), t);
      OtherRegion(m, n, Mask(t), r.base);
      RegionFrame(m, n, r);
      ListStep(n, head, AfterFree(regions, t));
      assert AfterFree(regions, t)[1..] == AfterFree(regions[1..], t);
    }
  }

  lemma LiveHasBase(regions: seq<Region>, a: Dword)
    requires IsLive(regions, a)
    ensures HasBase(regions, Mask(a)) && Mask(a) % 0x1_0000 == 0 && a % 32 == 0
    decreases |regions|
  {
    if !LiveIn(regions[0], a) {
      LiveHasBase(regions[1..], a);
    } else {
      SlotOf(a);
    }
  }

  /** The free list of the region at `base`. */
  function FreeAt(regions: seq<Region>, base: Dword): seq<nat>
  {
    if |regions| == 0 then [] else if regions[0].base == base then regions[0].free else FreeAt(regions[1..], base)
  }

  lemma {:induction false} TakeList(m: seq<Byte>, head: Dword, regions: seq<Region>, base: Dword)
    requires RegionList(m, head, regions) && DistinctBases(regions) && FreeAt(regions, base) != []
    ensures base + 0x1_0000 <= |m| && base <= 0xffff_0000 && base % 0x1_0000 == 0
    ensures FreeOf(m, base) == SlotAt(base, FreeAt(regions, base)[0]) && 3 <= FreeAt(regions, base)[0] < 2048
    ensures SlotRange(FreeAt(regions, base)) && Distinct(FreeAt(regions, base))
    ensures RegionList(Taken(m, base), head, AfterTake(regions, base))
    ensures OnlyRegion(m, Taken(m, base), base)
    decreases |regions|
  {
    hide RegionList, RegionOk, Taken, NextOf, OnlyRegion, FreeOf;
    ListStep(m, head, regions);
    var r := regions[0];
    Aligned(m, r);
    if r.base == base {
      TakeOk(m, r);
      var n := Taken(m, base);
      ListFrame(m, n, NextOf(m, head), regions[1..], base);
      ListStep(n, head, AfterTake(regions, base));
      assert AfterTake(regions, base)[1..] == regions[1..];
    } else {
      TakeList(m, NextOf(m, head), regions[1..], base);
      var n := Taken(m, base);
      OtherRegion(m, n, base, r.base);
      RegionFrame(m, n, r);
      ListStep(n, head, AfterTake(regions, base));
      assert AfterTake(regions, base)[1..] == AfterTake(regions[1..], base);
    }
  }

  /** Neither step moves a region or brings one in twice. */
  lemma {:induction false} SameBases(regions: seq<Region>, t: Dword, base: Dword, i: int)
    ensures HasBase(AfterFree(regions, t), base) <==> HasBase(regions, base)
    ensures HasBase(AfterTake(regions, t), base) <==> HasBase(regions, base)
    ensures InPool(AfterFree(regions, t), i) <==> InPool(regions, i)
    ensures InPool(AfterTake(regions, t), i) <==> InPool(regions, i)
    decreases |regions|
  {
    if |regions| > 0 {
      SameBases(regions[1..], t, base, i);
      assert AfterFree(regions, t)[1..] == if regions[0].base == Mask(t) then regions[1..]
        else AfterFree(regions[1..], t);
      assert AfterTake(regions, t)[1..] == if regions[0].base == t then regions[1..] else AfterTake(regions[1..], t);
    }
  }

  lemma {:induction false} StillDistinct(regions: seq<Region>, t: Dword)
    requires DistinctBases(regions)
    ensures DistinctBases(AfterFree(regions, t)) && DistinctBases(AfterTake(regions, t))
    decreases |regions|
  {
    if |regions| > 0 {
      StillDistinct(regions[1..], t);
      SameBases(regions[1..], t, regions[0].base, 0);
      assert AfterFree(regions, t)[1..] == if regions[0].base == Mask(t) then regions[1..]
        else AfterFree(regions[1..], t);
      assert AfterTake(regions, t)[1..] == if regions[0].base == t then regions[1..] else AfterTake(regions[1..], t);
    }
  }

  /** Returning a trampoline makes it, and it alone, no longer live. */
  lemma {:induction false} FreeLive(regions: seq<Region>, t: Dword, a: Dword)
    requires DistinctBases(regions) && IsLive(regions, t)
    ensures IsLive(AfterFree(regions, t), a) <==> IsLive(regions, a) && a != t
    decreases |regions|
  {
    LiveHasBase(regions, t);
    SlotOf(t);
    if a % 32 == 0 {
      SlotOf(a);
    }
    if regions[0].base == Mask(t) {
      OneOwner(regions[1..], t);
      assert AfterFree(regions, t)[1..] == regions[1..];
      if IsLive(regions[1..], a) {
        LiveHasBase(regions[1..], a);
      }
    } else {
      FreeLive(regions[1..], t, a);
      assert AfterFree(regions, t)[1..] == AfterFree(regions[1..], t);
    }
  }

  lemma OneOwner(regions: seq<Region>, t: Dword)
    requires !HasBase(regions, Mask(t))
    ensures !IsLive(regions, t)
  {
    if IsLive(regions, t) {
      LiveHasBase(regions, t);
    }
  }

  /** Handing out a slot makes it, and it alone, live; it was not live before. */
  lemma {:induction false} TakeLive(regions: seq<Region>, base: Dword, a: Dword)
    requires DistinctBases(regions) && FreeAt(regions, base) != []
    requires base <= 0xffff_0000 && base % 0x1_0000 == 0
    requires SlotRange(FreeAt(regions, base)) && Distinct(FreeAt(regions, base))
    ensures var t: int := SlotAt(base, FreeAt(regions, base)[0]);
            && (IsLive(AfterTake(regions, base), a) <==> IsLive(regions, a) || a == t)
            && (a == t ==> !IsLive(regions, a))
    decreases |regions|
  {
    var slot := FreeAt(regions, base)[0];
    MaskSlot(base, slot);
    if a % 32 == 0 {
      SlotOf(a);
    }
    if regions[0].base == base {
      assert AfterTake(regions, base)[1..] == regions[1..];
      TakenLiveIn(regions[0], a);
      if IsLive(regions[1..], a) {
        LiveHasBase(regions[1..], a);
      }
    } else {
      TakeLive(regions[1..], base, a);
      assert AfterTake(regions, base)[1..] == AfterTake(regions[1..], base);
    }
  }

  lemma TakenLiveIn(r: Region, a: Dword)
    requires r.free != [] && SlotRange(r.free) && Distinct(r.free)
    requires r.base <= 0xffff_0000 && r.base % 0x1_0000 == 0
    ensures var t: int := SlotAt(r.base, r.free[0]);
            && (LiveIn(Region(r.base, r.free[1..]), a) <==> LiveIn(r, a) || a == t)
            && (a == t ==> !LiveIn(r, a))
  {
    MaskSlot(r.base, r.free[0]);
    if a % 32 == 0 {
      SlotOf(a);
    }
    assert r.free == [r.free[0]] + r.free[1..];
    assert r.free[0] !in r.free[1..];
  }

  // ---------------------------------------------------------------- what a step leaves alone

  /** Returning one trampoline leaves the bytes of every other live one. */
  lemma FreeKeeps(m: seq<Byte>, t: Dword, a: Dword)
    requires Inside(|m|, t) && Inside(|m|, a) && a % 32 == 0 && t % 32 == 0 && a != t
    ensures Returned(m, Mask(t), t)[a..a + 32] == m[a..a + 32]
  {
    hide Mask, DwordAt, DwordBytes, Overwrite, FreeOf;
    SlotsApart(t, a);
    SlotOf(t);
    HeaderApart(Mask(t), a);
    var base := Mask(t);
    var m1 := Overwrite(m, t, Fill(0, 32));
    var m2 := Overwrite(m1, t + 24, DwordBytes(FreeOf(m, base)));
    OverwriteElsewhere(m, t, Fill(0, 32), a, a + 32);
    OverwriteElsewhere(m1, t + 24, DwordBytes(FreeOf(m, base)), a, a + 32);
    OverwriteElsewhere(m2, base + 8, DwordBytes(t), a, a + 32);
  }

  /** Handing out one slot leaves the bytes of every live trampoline. */
  lemma TakeKeeps(m: seq<Byte>, base: Dword, a: Dword)
    requires base % 0x1_0000 == 0 && base + 0x1_0000 <= |m|
    requires base + 32 <= FreeOf(m, base) <= base + 0x1_0000 - 32 && FreeOf(m, base) % 32 == 0
    requires Inside(|m|, a) && a % 32 == 0 && a != FreeOf(m, base)
    ensures Taken(m, base)[a..a + 32] == m[a..a + 32]
  {
    hide Mask, FreeOf, DwordAt, DwordBytes, Overwrite;
    var t := FreeOf(m, base);
    SlotsApart(t, a);
    HeaderApart(base, a);
    var m1 := Overwrite(m, base + 8, DwordBytes(DwordAt(m, t + 24)));
    OverwriteElsewhere(m, base + 8, DwordBytes(DwordAt(m, t + 24)), a, a + 32);
    OverwriteElsewhere(m1, t, Brks(32), a, a + 32);
  }

  lemma SlotsApart(t: Dword, a: Dword)
    requires a % 32 == 0 && t % 32 == 0 && a != t
    ensures a + 32 <= t || t + 32 <= a
  {
    assert t == 32 * (t / 32) && a == 32 * (a / 32);
  }

  /** No slot that can be handed out meets a region header. */
  lemma HeaderApart(base: Dword, a: Dword)
    requires base % 0x1_0000 == 0 && Mask(a) + 32 <= a <= Mask(a) + 0x1_0000 - 32
    ensures a + 32 <= base || base + 12 <= a
  {
    assert base == 0x1_0000 * (base / 0x1_0000) && Mask(a) == 0x1_0000 * (a / 0x1_0000);
  }

  // ---------------------------------------------------------------- a new region

  /** One round of the loop that threads the free list. */
  lemma NewRegionStep(m: seq<Byte>, base: Dword, k: nat, first: Dword)
    requires base <= 0xffff_0000 && base + 0x1_0000 <= |m| && 3 <= k < 2048
    requires FreeChain(m, first, base, Slots(k + 1))
    ensures var n := Overwrite(m, SlotAt(base, k) + 24, DwordBytes(first));
            && FreeChain(n, SlotAt(base, k), base, Slots(k))
            && OnlyRegion(m, n, base) && NextOf(n, base) == NextOf(m, base)
  {
    var at := SlotAt(base, k) + 24;
    var n := Overwrite(m, at, DwordBytes(first));
    InsideRegion(m, base, at, DwordBytes(first));
    DwordElsewhere(m, at, DwordBytes(first), base + 4);
    DwordStored(m, at, first);
    hide Overwrite, FreeChain, Slots, OnlyRegion;
    NewRegionFrame(m, base, k, first);
    FreeStep(n, SlotAt(base, k), base, Slots(k));
    SlotsStep(k);
  }

  lemma SlotsStep(k: nat)
    requires k < 2048
    ensures |Slots(k)| > 0 && Slots(k)[0] == k && Slots(k)[1..] == Slots(k + 1)
  {
  }

  lemma NewRegionFrame(m: seq<Byte>, base: Dword, k: nat, first: Dword)
    requires base <= 0xffff_0000 && base + 0x1_0000 <= |m| && 3 <= k < 2048
    requires FreeChain(m, first, base, Slots(k + 1))
    ensures FreeChain(Overwrite(m, SlotAt(base, k) + 24, DwordBytes(first)), first, base, Slots(k + 1))
  {
    hide Overwrite, FreeChain, Slots, DwordAt, DwordBytes;
    var at := SlotAt(base, k) + 24;
    var n := Overwrite(m, at, DwordBytes(first));
    SlotsFrom(k + 1);
    SlotsInRange(k + 1);
    var s := Slots(k + 1);
    forall i | 0 <= i < |s|
      ensures DwordAt(n, SlotAt(base, s[i]) + 24) == DwordAt(m, SlotAt(base, s[i]) + 24)
    {
      assert s[i] in s;
      DwordElsewhere(m, at, DwordBytes(first), SlotAt(base, s[i]) + 24);
    }
    FreeFrame(m, n, first, base, s);
  }

  lemma SlotsInRange(k: nat)
    requires 3 <= k <= 2048
    ensures SlotRange(Slots(k)) && Distinct(Slots(k))
  {
    hide Slots;
    SlotsFrom(k);
    assert forall i | 0 <= i < |Slots(k)| :: Slots(k)[i] in Slots(k);
  }

  /** A new region has no live slot. */
  lemma NewRegionLive(base: Dword, regions: seq<Region>, a: Dword)
    ensures IsLive([Region(base, Slots(3))] + regions, a) <==> IsLive(regions, a)
  {
    hide Slots;
    SlotsFrom(3);
    if a % 32 == 0 {
      SlotOf(a);
    }
    assert ([Region(base, Slots(3))] + regions)[1..] == regions;
  }

  // ---------------------------------------------------------------- the code

  const REGION_SIGNATURE: Dword := 0x5272_7464

  /** Trampolines lie within 2GB of their target; the bounds are those of a 32-bit process. */
  function Lowest(target: Dword): Dword { if target > 0x7ff8_0000 then target - 0x7ff8_0000 else 0x1_0000 }
  function Highest(target: Dword): Dword { if target < 0x8000_0000 then target + 0x7ff8_0000 else 0xfff8_0000 }

  predicate InReach(target: Dword, t: Dword)
  {
    Lowest(target) <= t <= Highest(target)
  }

  /** A trampoline is in reach exactly when it is at most 0x7ff80000 away, so that a near jump leads there and back; not
      in the last 512K of memory; and, for a target in the lower half, not in the first 64K. */
  lemma ReachIs(target: Dword, t: Dword)
    ensures InReach(target, t) <==>
            && -0x7ff8_0000 <= t - target <= 0x7ff8_0000 && t <= 0xfff8_0000
            && (target <= 0x7ff8_0000 ==> 0x1_0000 <= t)
  {
  }

  /** The pool after an allocation that may have mapped a region at `grant`. */
  ghost predicate Grown(m: seq<Byte>, regions: seq<Region>, n: seq<Byte>, after: seq<Region>, grant: Dword)
  {
    || (n == m && after == regions)
    || (grant != 0 && OnlyRegion(m, n, grant) && after == [Region(grant, Slots(3))] + regions)
  }

  /** No region has a first free slot that `target` could use. */
  predicate NoneInReach(regions: seq<Region>, target: Dword)
  {
    |regions| > 0 ==> OutOfReach(regions[0], target) && NoneInReach(regions[1..], target)
  }

  /** The regions when a trampoline for `target` is looked for: a new one is mapped when no other is in reach. */
  function Mapped(regions: seq<Region>, target: Dword, grant: Dword): seq<Region>
  {
    if grant != 0 && NoneInReach(regions, target) then [Region(grant, Slots(3))] + regions else regions
  }

  predicate HasRoom(regions: seq<Region>, target: Dword, grant: Dword)
  {
    !NoneInReach(Mapped(regions, target, grant), target)
  }

  /** There is a trampoline for `target` exactly when the first free slot of a region is in reach, or that of the region
      that the system would map. */
  lemma RoomIff(regions: seq<Region>, target: Dword, grant: Dword)
    requires grant <= 0xffff_0000
    ensures HasRoom(regions, target, grant) <==>
            !NoneInReach(regions, target) || (grant != 0 && InReach(target, grant + 96))
  {
    if grant != 0 && NoneInReach(regions, target) {
      var more := [Region(grant, Slots(3))] + regions;
      assert more[0] == Region(grant, Slots(3)) && more[1..] == regions && Slots(3)[0] == 3;
    }
  }

  predicate OutOfReach(r: Region, target: Dword)
  {
    r.free == [] || SlotAt(r.base, r.free[0]) < Lowest(target) || SlotAt(r.base, r.free[0]) > Highest(target)
  }

  lemma {:induction false} ReachBefore(regions: seq<Region>, k: nat, target: Dword)
    requires k < |regions|
    ensures NoneInReach(regions[k..], target) <==>
            OutOfReach(regions[k], target) && NoneInReach(regions[k + 1..], target)
  {
    assert regions[k..][0] == regions[k] && regions[k..][1..] == regions[k + 1..];
  }

  /** Whether a region is in reach can be read off its header. */
  lemma {:induction false} ReachOfBase(m: seq<Byte>, head: Dword, regions: seq<Region>, base: Dword, target: Dword)
    requires RegionList(m, head, regions) && HasBase(regions, base)
    ensures base + 0x1_0000 <= |m|
    ensures FreeOf(m, base) != 0 && InReach(target, FreeOf(m, base)) ==> !NoneInReach(regions, target)
    decreases |regions|
  {
    hide FreeChain, DwordAt;
    ListStep(m, head, regions);
    if regions[0].base == base {
      FirstFree(m, regions[0]);
    } else {
      ReachOfBase(m, NextOf(m, head), regions[1..], base, target);
    }
  }

  lemma ReachOfFirst(m: seq<Byte>, head: Dword, regions: seq<Region>, target: Dword)
    requires RegionList(m, head, regions) && regions != []
    ensures head + 0x1_0000 <= |m|
    ensures OutOfReach(regions[0], target) <==> FreeOf(m, head) == 0 || !InReach(target, FreeOf(m, head))
  {
    hide FreeChain, DwordAt;
    ListStep(m, head, regions);
    FirstFree(m, regions[0]);
  }

  class TrampolinePool {
    const mem: array<Byte>
    var head: Dword      // s_pRegions
    var current: Dword   // s_pRegion
    ghost var regions: seq<Region>

    constructor (mem: array<Byte>)
      ensures this.mem == mem && regions == [] && Valid()
    {
      this.mem := mem;
      head, current, regions := 0, 0, [];
    }

    ghost predicate Valid()
      reads this, mem
    {
      && RegionList(mem[..], head, regions) && DistinctBases(regions)
      && (current == 0 || HasBase(regions, current))
    }

    method Store(at: nat, bytes: seq<Byte>)
      requires at + |bytes| <= mem.Length
      modifies mem
      ensures mem[..] == Overwrite(old(mem[..]), at, bytes)
    {
      forall i | 0 <= i < |bytes| { mem[at + i] := bytes[i]; }
    }

    method Load(at: nat) returns (v: Dword)
      requires at + 4 <= mem.Length
      ensures v == DwordAt(mem[..], at)
    {
      v := DwordAt(mem[at..at + 4], 0);
    }

    /** detour_free_trampoline: masking the low 16 bits of the address finds the region. */
    method Return(t: Dword)
      requires Inside(mem.Length, t)
      modifies mem, this`regions
      ensures mem[..] == Returned(old(mem[..]), Mask(t), t)
      ensures regions == AfterFree(old(regions), t)
    {
      hide DwordAt, DwordBytes, Overwrite;
      var base := Mask(t);
      DwordElsewhere(mem[..], t, Fill(0, 32), base + 8);
      Store(t, Fill(0, 32));
      var first := Load(base + 8);
      Store(t + 24, DwordBytes(first));
      Store(base + 8, DwordBytes(t));
      regions := AfterFree(regions, t);
    }

    /** Returning a trampoline that is in use. */
    method Free(t: Dword)
      requires Valid() && IsLive(regions, t)
      modifies mem, this`regions
      ensures Valid() && Inside(mem.Length, t)
      ensures mem[..] == Returned(old(mem[..]), Mask(t), t)
      ensures regions == AfterFree(old(regions), t)
    {
      hide RegionList, DistinctBases, IsLive, HasBase, OnlyRegion, Returned, AfterFree, Mask;
      FreeList(mem[..], head, regions, t);
      StillDistinct(regions, t);
      SameBases(regions, t, current, 0);
      Return(t);
    }

    /** found_region: take the first free slot of the default region, unless it is out of reach. */
    method TakeFirst(target: Dword) returns (t: Dword)
      requires Valid() && FreeAt(regions, current) != []
      modifies mem, this`regions
      ensures Valid()
      ensures current + 0x1_0000 <= mem.Length
      ensures t == 0 ==> mem[..] == old(mem[..]) && regions == old(regions)
      ensures t == 0 <==> !InReach(target, FreeOf(old(mem[..]), current))
      ensures t != 0 ==>
                && InReach(target, t) && t == FreeOf(old(mem[..]), current)
                && Mask(t) == current && t % 32 == 0 && Inside(mem.Length, t)
                && mem[..] == Taken(old(mem[..]), current) && regions == AfterTake(old(regions), current)
    {
      hide RegionList, DistinctBases, HasBase, FreeAt, DwordAt, DwordBytes, Overwrite, OnlyRegion, Brks, Mask;
      TakeList(mem[..], head, regions, current);
      MaskSlot(current, FreeAt(regions, current)[0]);
      StillDistinct(regions, current);
      SameBases(regions, current, current, 0);
      t := Load(current + 8);
      if t < Lowest(target) || t > Highest(target) {
        return 0;
      }
      var next := Load(t + 24);
      Store(current + 8, DwordBytes(next));
      Store(t, Brks(32));
      regions := AfterTake(regions, current);
    }

    /** detour_alloc_trampoline.  `grant` is the region that the search for free memory obtains, or 0;
        `mid` and `midRegions` are the pool once it has been set up. */
    method Alloc(target: Dword, grant: Dword) returns (t: Dword, ghost mid: seq<Byte>, ghost midRegions: seq<Region>)
      requires Valid()
      requires grant != 0 ==>
                 !HasBase(regions, grant) && grant <= 0xffff_0000 && grant % 0x1_0000 == 0
                   && grant + 0x1_0000 <= mem.Length
      modifies mem, this
      ensures Valid()
      ensures Grown(old(mem[..]), old(regions), mid, midRegions, grant)
      ensures midRegions == Mapped(old(regions), target, grant)
      ensures t != 0 <==> HasRoom(old(regions), target, grant)
      ensures t == 0 ==> mem[..] == mid && regions == midRegions
      ensures t != 0 ==>
                && InReach(target, t) && t % 32 == 0 && Inside(mem.Length, t)
                && Mask(t) + 0x1_0000 <= |mid| && t == FreeOf(mid, Mask(t)) && FreeAt(midRegions, Mask(t)) != []
                && mem[..] == Taken(mid, Mask(t)) && regions == AfterTake(midRegions, Mask(t))
                && RegionList(mid, head, midRegions) && DistinctBases(midRegions)
    {
      hide RegionList, DistinctBases, HasBase, FreeAt, DwordAt, OnlyRegion, Taken, AfterTake, Mask, Slots, Inside,
        InReach, NoneInReach, OutOfReach;
      mid, midRegions := mem[..], regions;
      ghost var m := mem[..];
      assert mid == m && RegionList(m, head, regions);
      ListHead(mem[..], head, regions);
      if current == 0 && head != 0 {
        current := head;
      }
      if current != 0 {
        FreeHead(mem[..], head, regions, current);
        ReachOfBase(m, head, regions, current, target);
        var first := Load(current + 8);
        if first != 0 && IsInReach(target, first) {
          t := TakeFirst(target);
          return;
        }
      }
      var found := Search(target);
      if found {
        t := TakeFirst(target);
        return;
      }
      if grant == 0 {
        return 0, mid, midRegions;
      }
      NewRegion(grant);
      mid, midRegions := mem[..], regions;
      NewRegionFree(grant, old(regions));
      NewRegionReach(mem[..], head, regions, old(regions), target);
      t := TakeFirst(target);
    }

    /** The search through the list of regions for one whose first free slot is in reach. */
    method Search(target: Dword) returns (found: bool)
      requires Valid()
      modifies this`current
      ensures Valid() && found == !NoneInReach(regions, target)
      ensures found ==>
                && current != 0 && current + 0x1_0000 <= mem.Length && FreeAt(regions, current) != []
                && InReach(target, FreeOf(mem[..], current))
    {
      hide RegionList, DistinctBases, HasBase, FreeAt, DwordAt, InReach, NoneInReach, OutOfReach;
      ListHead(mem[..], head, regions);
      current := head;
      ghost var k := 0;
      assert regions[0..] == regions;
      while current != 0
        invariant 0 <= k <= |regions| && RegionList(mem[..], current, regions[k..])
        invariant Valid()
        invariant NoneInReach(regions, target) <==> NoneInReach(regions[k..], target)
        decreases |regions| - k
      {
        ListHead(mem[..], current, regions[k..]);
        FreeHead(mem[..], head, regions, current);
        ReachOfBase(mem[..], head, regions, current, target);
        ReachOfFirst(mem[..], current, regions[k..], target);
        ReachBefore(regions, k, target);
        var first := Load(current + 8);
        if first != 0 && IsInReach(target, first) {
          return true;
        }
        ListStep(mem[..], current, regions[k..]);
        assert regions[k..][1..] == regions[k + 1..];
        var next := Load(current + 4);
        NextInList(mem[..], next, regions, k + 1);
        current := next;
        k := k + 1;
      }
      ListHead(mem[..], current, regions[k..]);
      NoneLeft(regions, k, target);
      return false;
    }

    /** alloced_region: set up the 64K at `base`, which the system has just granted. */
    method NewRegion(base: Dword)
      requires Valid() && !HasBase(regions, base)
      requires 0 < base <= 0xffff_0000 && base % 0x1_0000 == 0 && base + 0x1_0000 <= mem.Length
      modifies mem, this
      ensures Valid() && current == head == base
      ensures regions == [Region(base, Slots(3))] + old(regions)
      ensures OnlyRegion(old(mem[..]), mem[..], base)
    {
      hide RegionList, DistinctBases, HasBase, DwordAt, DwordBytes, Overwrite, OnlyRegion, FreeChain, Slots;
      ghost var m := mem[..];
      StoreHeader(base);
      var first: Dword := 0;
      NoSlots(mem[..], base);
      var i := 2046;
      while i > 1
        invariant 1 <= i <= 2046
        invariant FreeChain(mem[..], first, base, Slots(i + 2))
        invariant OnlyRegion(m, mem[..], base) && NextOf(mem[..], base) == head
        invariant head == old(head) && regions == old(regions)
      {
        ghost var n := mem[..];
        NewRegionStep(n, base, i + 1, first);
        Store(base + 32 * (i + 1) + 24, DwordBytes(first));
        OnlyRegionTrans(m, n, mem[..], base);
        first := base + 32 * (i + 1);
        i := i - 1;
      }
      FinishRegion(base, first, m);
      head := base;
      current := base;
      regions := [Region(base, Slots(3))] + regions;
    }

    /** The header of a new region, linked to the regions before it. */
    method StoreHeader(base: Dword)
      requires base + 0x1_0000 <= mem.Length
      modifies mem
      ensures OnlyRegion(old(mem[..]), mem[..], base) && NextOf(mem[..], base) == head
    {
      hide DwordAt, DwordBytes, Overwrite, OnlyRegion;
      ghost var m := mem[..];
      InsideRegion(m, base, base, DwordBytes(REGION_SIGNATURE));
      Store(base, DwordBytes(REGION_SIGNATURE));
      ghost var m1 := mem[..];
      InsideRegion(m1, base, base + 8, DwordBytes(0));
      Store(base + 8, DwordBytes(0));
      ghost var m2 := mem[..];
      InsideRegion(m2, base, base + 4, DwordBytes(head));
      DwordStored(m2, base + 4, head);
      Store(base + 4, DwordBytes(head));
      OnlyRegionTrans(m, m1, m2, base);
      OnlyRegionTrans(m, m2, mem[..], base);
    }

    /** The threaded list becomes the free list, and the region the head of the region list. */
    method FinishRegion(base: Dword, first: Dword, ghost m: seq<Byte>)
      requires 0 < base <= 0xffff_0000 && base % 0x1_0000 == 0 && base + 0x1_0000 <= mem.Length
      requires FreeChain(mem[..], first, base, Slots(3)) && NextOf(mem[..], base) == head
      requires OnlyRegion(m, mem[..], base)
      requires RegionList(m, head, regions) && DistinctBases(regions) && !HasBase(regions, base)
      modifies mem
      ensures OnlyRegion(m, mem[..], base)
      ensures RegionList(mem[..], base, [Region(base, Slots(3))] + regions)
      ensures DistinctBases([Region(base, Slots(3))] + regions) && HasBase([Region(base, Slots(3))] + regions, base)
    {
      hide DwordAt, DwordBytes, Overwrite, OnlyRegion, FreeChain, Slots, RegionList;
      ghost var n := mem[..];
      InsideRegion(n, base, base + 8, DwordBytes(first));
      DwordStored(n, base + 8, first);
      DwordElsewhere(n, base + 8, DwordBytes(first), base + 4);
      NewRegionLink(n, base, first);
      Store(base + 8, DwordBytes(first));
      OnlyRegionTrans(m, n, mem[..], base);
      SlotsInRange(3);
      ListFrame(m, mem[..], head, regions, base);
      ListStep(mem[..], base, [Region(base, Slots(3))] + regions);
      assert ([Region(base, Slots(3))] + regions)[1..] == regions;
    }
  }

  predicate IsInReach(target: Dword, t: Dword): (r: bool)
    ensures r == InReach(target, t)
  {
    Lowest(target) <= t <= Highest(target)
  }

  lemma NoneLeft(regions: seq<Region>, k: nat, target: Dword)
    requires k <= |regions| && regions[k..] == []
    requires NoneInReach(regions, target) <==> NoneInReach(regions[k..], target)
    ensures NoneInReach(regions, target)
  {
  }

  /** Beside regions out of reach, it is the new region that decides. */
  lemma NewRegionReach(m: seq<Byte>, head: Dword, regions: seq<Region>, rest: seq<Region>, target: Dword)
    requires RegionList(m, head, regions) && |regions| > 0 && regions[1..] == rest && NoneInReach(rest, target)
    requires FreeAt(regions, regions[0].base) != []
    ensures head + 0x1_0000 <= |m| && (NoneInReach(regions, target) <==> !InReach(target, FreeOf(m, head)))
  {
    hide RegionList, OutOfReach, InReach, FreeOf;
    ListHead(m, head, regions);
    ReachOfFirst(m, head, regions, target);
    FreeNotNull(m, head, regions);
  }

  lemma FreeNotNull(m: seq<Byte>, head: Dword, regions: seq<Region>)
    requires RegionList(m, head, regions) && |regions| > 0 && regions[0].free != []
    ensures head + 0x1_0000 <= |m| && FreeOf(m, head) != 0
  {
    hide FreeChain, DwordAt;
    ListStep(m, head, regions);
    FirstFree(m, regions[0]);
  }

  lemma NoSlots(m: seq<Byte>, base: Dword)
    requires base + 0x1_0000 <= |m|
    ensures FreeChain(m, 0, base, Slots(2048))
  {
  }

  /** Storing pFree does not touch the free list. */
  lemma NewRegionLink(m: seq<Byte>, base: Dword, first: Dword)
    requires base <= 0xffff_0000 && base + 0x1_0000 <= |m| && FreeChain(m, first, base, Slots(3))
    ensures FreeChain(Overwrite(m, base + 8, DwordBytes(first)), first, base, Slots(3))
  {
    hide Overwrite, FreeChain, Slots, DwordAt, DwordBytes;
    var n := Overwrite(m, base + 8, DwordBytes(first));
    SlotsInRange(3);
    var s := Slots(3);
    forall i | 0 <= i < |s|
      ensures DwordAt(n, SlotAt(base, s[i]) + 24) == DwordAt(m, SlotAt(base, s[i]) + 24)
    {
      DwordElsewhere(m, base + 8, DwordBytes(first), SlotAt(base, s[i]) + 24);
    }
    FreeFrame(m, n, first, base, s);
  }

  lemma ListHead(m: seq<Byte>, head: Dword, regions: seq<Region>)
    requires RegionList(m, head, regions)
    ensures head == 0 <==> regions == []
    ensures head != 0 ==> HasBase(regions, head) && head == regions[0].base && head + 0x1_0000 <= |m|
  {
  }

  /** pFree tells whether a region of the list has a free slot. */
  lemma {:induction false} FreeHead(m: seq<Byte>, head: Dword, regions: seq<Region>, base: Dword)
    requires RegionList(m, head, regions) && HasBase(regions, base)
    ensures base + 0x1_0000 <= |m| && (FreeAt(regions, base) == [] <==> FreeOf(m, base) == 0)
    decreases |regions|
  {
    ListStep(m, head, regions);
    if regions[0].base == base {
      FirstFree(m, regions[0]);
    } else {
      FreeHead(m, NextOf(m, head), regions[1..], base);
    }
  }

  lemma NextInList(m: seq<Byte>, next: Dword, regions: seq<Region>, k: nat)
    requires k <= |regions| && RegionList(m, next, regions[k..])
    ensures next == 0 || HasBase(regions, next)
  {
    if next != 0 {
      SuffixBase(regions, k);
    }
  }

  lemma {:induction false} SuffixBase(regions: seq<Region>, k: nat)
    requires k < |regions|
    ensures HasBase(regions, regions[k].base)
    decreases k
  {
    if k > 0 {
      SuffixBase(regions[1..], k - 1);
    }
  }

  lemma NewRegionFree(base: Dword, regions: seq<Region>)
    ensures FreeAt([Region(base, Slots(3))] + regions, base) != []
  {
    hide Slots;
    SlotsFrom(3);
  }

  // ---------------------------------------------------------------- what a client may rely on

  lemma {:induction false} LiveBounds(m: seq<Byte>, head: Dword, regions: seq<Region>, a: Dword)
    requires RegionList(m, head, regions) && IsLive(regions, a)
    ensures Inside(|m|, a) && a % 32 == 0 && InPool(regions, a) && InPool(regions, a + 31)
    ensures a + 32 <= |m|
    decreases |regions|
  {
    ListStep(m, head, regions);
    if LiveIn(regions[0], a) {
      LiveInside(m, regions[0], a);
    } else {
      LiveBounds(m, NextOf(m, head), regions[1..], a);
    }
  }

  /** Every byte outside the pool is as it was. */
  ghost predicate OutsideKept(m: seq<Byte>, n: seq<Byte>, regions: seq<Region>)
  {
    |m| == |n| && forall i | 0 <= i < |m| && !InPool(regions, i) :: n[i] == m[i]
  }

  lemma {:induction false} BaseInPool(regions: seq<Region>, base: Dword)
    requires HasBase(regions, base)
    ensures forall i | base <= i < base + 0x1_0000 :: InPool(regions, i)
    decreases |regions|
  {
    if regions[0].base != base {
      BaseInPool(regions[1..], base);
    }
  }

  lemma OnlyRegionOutside(m: seq<Byte>, n: seq<Byte>, base: Dword, regions: seq<Region>)
    requires OnlyRegion(m, n, base) && HasBase(regions, base)
    ensures OutsideKept(m, n, regions)
  {
    BaseInPool(regions, base);
    forall i | 0 <= i < |m| && !InPool(regions, i)
      ensures n[i] == m[i]
    {
      if i < base {
        assert n[i] == n[..base][i] == m[..base][i];
      } else {
        assert n[i] == n[base + 0x1_0000..][i - base - 0x1_0000] == m[base + 0x1_0000..][i - base - 0x1_0000];
      }
    }
  }

  /** After Free: one trampoline fewer, and nothing else in use is touched. */
  lemma FreeMeaning(m: seq<Byte>, head: Dword, regions: seq<Region>, t: Dword, a: Dword)
    requires RegionList(m, head, regions) && DistinctBases(regions) && IsLive(regions, t)
    ensures Inside(|m|, t)
    ensures var n := Returned(m, Mask(t), t);
            && (IsLive(AfterFree(regions, t), a) <==> IsLive(regions, a) && a != t)
            && (IsLive(AfterFree(regions, t), a) ==> a + 32 <= |m| && n[a..a + 32] == m[a..a + 32])
            && OutsideKept(m, n, regions)
  {
    hide RegionList, DistinctBases, IsLive, Returned, AfterFree, OnlyRegion, OutsideKept, Inside, Mask;
    FreeList(m, head, regions, t);
    FreeLive(regions, t, a);
    LiveHasBase(regions, t);
    LiveBounds(m, head, regions, t);
    OnlyRegionOutside(m, Returned(m, Mask(t), t), Mask(t), regions);
    if IsLive(regions, a) && a != t {
      LiveBounds(m, head, regions, a);
      FreeKeeps(m, t, a);
    }
  }

  /** After Alloc took a slot: it was not in use, is filled with int 3, and nothing else in use is touched. */
  lemma TakeMeaning(m: seq<Byte>, head: Dword, regions: seq<Region>, t: Dword, a: Dword)
    requires RegionList(m, head, regions) && DistinctBases(regions) && FreeAt(regions, Mask(t)) != []
    requires t % 32 == 0 && Inside(|m|, t) && t == FreeOf(m, Mask(t))
    ensures var n := Taken(m, Mask(t)); var after := AfterTake(regions, Mask(t));
            && (IsLive(after, a) <==> IsLive(regions, a) || a == t) && (a == t ==> !IsLive(regions, a))
            && (IsLive(regions, a) ==> a + 32 <= |m| && n[a..a + 32] == m[a..a + 32])
            && n[t..t + 32] == Brks(32)
            && OutsideKept(m, n, regions)
  {
    hide RegionList, DistinctBases, IsLive, Taken, AfterTake, OnlyRegion, OutsideKept, FreeAt, Mask, FreeOf, HasBase;
    TakeList(m, head, regions, Mask(t));
    TakeLive(regions, Mask(t), a);
    FreeHasBase(regions, Mask(t));
    OnlyRegionOutside(m, Taken(m, Mask(t)), Mask(t), regions);
    TakenBytes(m, Mask(t));
    if IsLive(regions, a) {
      LiveBounds(m, head, regions, a);
      TakeKeeps(m, Mask(t), a);
    }
  }

  lemma TakenBytes(m: seq<Byte>, base: Dword)
    requires base + 0x1_0000 <= |m| && base + 32 <= FreeOf(m, base) <= base + 0x1_0000 - 32
    ensures Taken(m, base)[FreeOf(m, base)..FreeOf(m, base) + 32] == Brks(32)
  {
  }

  lemma {:induction false} FreeHasBase(regions: seq<Region>, base: Dword)
    requires FreeAt(regions, base) != []
    ensures HasBase(regions, base)
    decreases |regions|
  {
    if regions[0].base != base {
      FreeHasBase(regions[1..], base);
    }
  }

  /** Mapping a region changes nothing that was in use, and nothing outside it. */
  lemma GrownMeaning(m: seq<Byte>, head: Dword, regions: seq<Region>, n: seq<Byte>, after: seq<Region>, grant: Dword,
                     a: Dword)
    requires RegionList(m, head, regions) && Grown(m, regions, n, after, grant)
    requires grant % 0x1_0000 == 0 && !HasBase(regions, grant)
    ensures IsLive(after, a) <==> IsLive(regions, a)
    ensures IsLive(regions, a) ==> a + 32 <= |m| == |n| && n[a..a + 32] == m[a..a + 32]
    ensures OutsideKept(m, n, after)
  {
    hide RegionList, HasBase, IsLive, OnlyRegion, Slots, Mask, InPool;
    if n != m || after != regions {
      NewRegionLive(grant, regions, a);
      OnlyRegionOutside(m, n, grant, after);
      if IsLive(regions, a) {
        LiveBounds(m, head, regions, a);
        LiveHasBase(regions, a);
        OtherRegion(m, n, grant, Mask(a));
        SliceInside(m, n, Mask(a), a);
      }
    } else {
      if IsLive(regions, a) {
        LiveBounds(m, head, regions, a);
      }
    }
  }

  lemma SliceInside(m: seq<Byte>, n: seq<Byte>, base: nat, a: nat)
    requires base + 0x1_0000 <= |m| == |n| && base <= a && a + 32 <= base + 0x1_0000
    requires m[base..base + 0x1_0000] == n[base..base + 0x1_0000]
    ensures m[a..a + 32] == n[a..a + 32]
  {
    forall k | a <= k < a + 32
      ensures m[k] == n[k]
    {
      assert m[k] == m[base..base + 0x1_0000][k - base];
      assert n[k] == n[base..base + 0x1_0000][k - base];
    }
  }
}
