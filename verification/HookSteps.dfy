/**
 What each step of a transaction does to the process: taking, filling and returning a trampoline, and
 writing to the code of a hook.
 */
module HookSteps {
  import opened Bytes
  import opened Options
  import opened Disasm
  import opened Relocation
  import opened Trampolines
  import opened HookList

  /** Every trampoline that is handed out belongs to a hook, except `spare`, which an attach is still
      filling in. */
  ghost predicate LiveHooked(regions: seq<Region>, hooks: seq<Hook>, spare: Dword)
  {
    && (forall a: Dword | IsLive(regions, a) :: a == spare || Find(hooks, a).Some?)
    && (spare != 0 ==> IsLive(regions, spare) && Find(hooks, spare).None?)
  }

  /** The process: `code` is its memory without any hook. */
  ghost predicate Sound(t: Tables, m: seq<Byte>, head: Dword, regions: seq<Region>, code: seq<Byte>, hooks: seq<Hook>,
                        spare: Dword)
    requires WellFormed(t)
  {
    && RegionList(m, head, regions) && DistinctBases(regions)
    && HooksOk(t, m, regions, code, hooks) && Holds(m, Patched(code, hooks), regions)
    && LiveHooked(regions, hooks, spare)
  }

  lemma SoundParts(t: Tables, m: seq<Byte>, head: Dword, regions: seq<Region>, code: seq<Byte>, hooks: seq<Hook>,
                   spare: Dword)
    requires WellFormed(t)
    ensures Sound(t, m, head, regions, code, hooks, spare) <==>
            && RegionList(m, head, regions) && DistinctBases(regions)
            && HooksOk(t, m, regions, code, hooks) && Holds(m, Patched(code, hooks), regions)
            && LiveHooked(regions, hooks, spare)
  {
  }

  // ---------------------------------------------------------------- the pool grows

  lemma SoundGrown(t: Tables, m: seq<Byte>, head: Dword, regions: seq<Region>, n: seq<Byte>, headAfter: Dword,
                   after: seq<Region>, grant: Dword, code: seq<Byte>, hooks: seq<Hook>)
    requires WellFormed(t) && Sound(t, m, head, regions, code, hooks, 0) && Grown(m, regions, n, after, grant)
    requires grant % 0x1_0000 == 0 && !HasBase(regions, grant) && GrantApart(hooks, grant)
    requires RegionList(n, headAfter, after) && DistinctBases(after)
    ensures Sound(t, n, headAfter, after, code, hooks, 0)
  {
    hide *;
    SoundParts(t, m, head, regions, code, hooks, 0);
    SoundParts(t, n, headAfter, after, code, hooks, 0);
    KeptByGrown(t, m, head, regions, n, after, grant, code, hooks);
    HooksFrame(t, m, n, regions, after, code, hooks);
    GrownOutside(m, head, regions, n, after, grant, Patched(code, hooks));
    GrownHooked(m, head, regions, n, after, grant, hooks);
  }

  lemma GrownOutside(m: seq<Byte>, head: Dword, regions: seq<Region>, n: seq<Byte>, after: seq<Region>, grant: Dword,
                     p: seq<Byte>)
    requires RegionList(m, head, regions) && Grown(m, regions, n, after, grant) && Holds(m, p, regions)
    requires grant % 0x1_0000 == 0 && !HasBase(regions, grant)
    ensures Holds(n, p, after)
  {
    hide RegionList, HasBase, Slots, OnlyRegion;
    GrownMeaning(m, head, regions, n, after, grant, 0);
    if after != regions {
      assert after[1..] == regions;
      forall i | 0 <= i < |n| && !InPool(after, i)
        ensures n[i] == p[i]
      {
        assert !InPool(regions, i);
      }
    }
  }

  lemma GrownHooked(m: seq<Byte>, head: Dword, regions: seq<Region>, n: seq<Byte>, after: seq<Region>, grant: Dword,
                    hooks: seq<Hook>)
    requires RegionList(m, head, regions) && Grown(m, regions, n, after, grant) && LiveHooked(regions, hooks, 0)
    requires grant % 0x1_0000 == 0 && !HasBase(regions, grant)
    ensures LiveHooked(after, hooks, 0)
  {
    hide RegionList, HasBase, Slots, OnlyRegion, Grown, IsLive;
    forall a: Dword | IsLive(after, a)
      ensures Find(hooks, a).Some?
    {
      GrownMeaning(m, head, regions, n, after, grant, a);
      LiveNotNull(regions, a);
    }
  }

  // ---------------------------------------------------------------- taking and returning a trampoline

  lemma SoundTake(t: Tables, m: seq<Byte>, head: Dword, regions: seq<Region>, code: seq<Byte>, hooks: seq<Hook>,
                  a: Dword)
    requires WellFormed(t) && Sound(t, m, head, regions, code, hooks, 0) && FreeAt(regions, Mask(a)) != []
    requires a % 32 == 0 && Inside(|m|, a) && a == FreeOf(m, Mask(a))
    requires RegionList(Taken(m, Mask(a)), head, AfterTake(regions, Mask(a)))
    requires DistinctBases(AfterTake(regions, Mask(a)))
    ensures Sound(t, Taken(m, Mask(a)), head, AfterTake(regions, Mask(a)), code, hooks, a)
    ensures Taken(m, Mask(a))[a..a + 32] == Brks(32)
    ensures IsLive(AfterTake(regions, Mask(a)), a) && Find(hooks, a).None?
  {
    hide RegionList, DistinctBases, FreeAt, IsLive, Taken, AfterTake, HooksOk, Holds, Patched, Sound, Mask, FreeOf,
      HooksKept, LiveHooked;
    var n, after := Taken(m, Mask(a)), AfterTake(regions, Mask(a));
    SoundParts(t, m, head, regions, code, hooks, 0);
    SoundParts(t, n, head, after, code, hooks, a);
    KeptByTake(t, m, head, regions, code, hooks, a);
    HooksFrame(t, m, n, regions, after, code, hooks);
    TakeMeaning(m, head, regions, a, a);
    SameOutside(m, n, regions, after, Mask(a), Patched(code, hooks));
    TakenHooked(m, head, regions, hooks, a);
  }

  /** Neither taking nor returning a slot shows outside the pool. */
  lemma SameOutside(m: seq<Byte>, n: seq<Byte>, regions: seq<Region>, after: seq<Region>, a: Dword, p: seq<Byte>)
    requires Holds(m, p, regions) && OutsideKept(m, n, regions)
    requires after == AfterFree(regions, a) || after == AfterTake(regions, a)
    ensures Holds(n, p, after)
  {
    hide AfterFree, AfterTake, InPool;
    forall i | 0 <= i < |n| && !InPool(after, i)
      ensures n[i] == p[i]
    {
      SameBases(regions, a, 0, i);
      assert n[i] == m[i];
    }
  }

  lemma TakenHooked(m: seq<Byte>, head: Dword, regions: seq<Region>, hooks: seq<Hook>, a: Dword)
    requires RegionList(m, head, regions) && DistinctBases(regions) && FreeAt(regions, Mask(a)) != []
    requires a % 32 == 0 && Inside(|m|, a) && a == FreeOf(m, Mask(a))
    requires LiveHooked(regions, hooks, 0) && Find(hooks, a).None?
    ensures LiveHooked(AfterTake(regions, Mask(a)), hooks, a)
  {
    hide RegionList, DistinctBases, FreeAt, IsLive, AfterTake, Mask, Inside, FreeOf, OutsideKept;
    TakeMeaning(m, head, regions, a, a);
    forall b: Dword | IsLive(AfterTake(regions, Mask(a)), b)
      ensures b == a || Find(hooks, b).Some?
    {
      TakeMeaning(m, head, regions, a, b);
      if b != a {
        LiveNotNull(regions, b);
      }
    }
  }

  /** No trampoline is at address 0. */
  lemma {:induction false} LiveNotNull(regions: seq<Region>, a: Dword)
    requires IsLive(regions, a)
    ensures a != 0
    decreases |regions|
  {
    if !LiveIn(regions[0], a) {
      LiveNotNull(regions[1..], a);
    }
  }

  /** Returning a trampoline that no hook uses any more. */
  lemma SoundFree(t: Tables, m: seq<Byte>, head: Dword, regions: seq<Region>, code: seq<Byte>, hooks: seq<Hook>,
                  a: Dword)
    requires WellFormed(t) && Sound(t, m, head, regions, code, hooks, a) && IsLive(regions, a)
    requires Inside(|m|, a)
    requires RegionList(Returned(m, Mask(a), a), head, AfterFree(regions, a)) && DistinctBases(AfterFree(regions, a))
    ensures Sound(t, Returned(m, Mask(a), a), head, AfterFree(regions, a), code, hooks, 0)
  {
    hide RegionList, DistinctBases, IsLive, Returned, AfterFree, HooksOk, Holds, Patched, Sound, Mask, HooksKept,
      OutsideKept, LiveHooked;
    var n, after := Returned(m, Mask(a), a), AfterFree(regions, a);
    SoundParts(t, m, head, regions, code, hooks, a);
    SoundParts(t, n, head, after, code, hooks, 0);
    SpareIsNone(regions, hooks, a);
    KeptByFree(t, m, head, regions, code, hooks, a);
    HooksFrame(t, m, n, regions, after, code, hooks);
    FreeMeaning(m, head, regions, a, a);
    SameOutside(m, n, regions, after, a, Patched(code, hooks));
    FreedHooked(m, head, regions, hooks, a);
  }

  lemma SpareIsNone(regions: seq<Region>, hooks: seq<Hook>, a: Dword)
    requires LiveHooked(regions, hooks, a) && IsLive(regions, a)
    ensures Find(hooks, a).None? && a != 0
  {
    LiveNotNull(regions, a);
  }

  lemma FreedHooked(m: seq<Byte>, head: Dword, regions: seq<Region>, hooks: seq<Hook>, a: Dword)
    requires RegionList(m, head, regions) && DistinctBases(regions) && IsLive(regions, a)
    requires LiveHooked(regions, hooks, a)
    ensures LiveHooked(AfterFree(regions, a), hooks, 0)
  {
    hide RegionList, DistinctBases, IsLive, AfterFree, Returned, OutsideKept;
    forall b: Dword | IsLive(AfterFree(regions, a), b)
      ensures Find(hooks, b).Some?
    {
      FreeMeaning(m, head, regions, a, b);
    }
  }

  // ---------------------------------------------------------------- hooks come and go

  lemma SoundAdd(t: Tables, m: seq<Byte>, head: Dword, regions: seq<Region>, code: seq<Byte>, hooks: seq<Hook>, h: Hook)
    requires WellFormed(t) && Sound(t, m, head, regions, code, hooks, h.trampoline)
    requires !h.on && HookOk(t, m, regions, code, h) && SeparateFrom(h, hooks)
    ensures Sound(t, m, head, regions, code, [h] + hooks, 0)
  {
    hide RegionList, DistinctBases, IsLive, HooksOk, Holds, Patched, Sound, HookOk;
    var more := [h] + hooks;
    assert more[0] == h && more[1..] == hooks;
    SoundParts(t, m, head, regions, code, hooks, h.trampoline);
    SoundParts(t, m, head, regions, code, more, 0);
    HooksStep(t, m, regions, code, more);
    PatchedStep(code, more);
    assert forall b: Dword :: Find(more, b) == if h.trampoline == b then Some(h) else Find(hooks, b);
  }

  /** A hook that is off is dropped; its trampoline remains to be returned. */
  lemma SoundDrop(t: Tables, m: seq<Byte>, head: Dword, regions: seq<Region>, code: seq<Byte>, hooks: seq<Hook>,
                  a: Dword)
    requires WellFormed(t) && Sound(t, m, head, regions, code, hooks, 0)
    requires Find(hooks, a).Some? && !Find(hooks, a).value.on
    ensures Sound(t, m, head, regions, code, Without(hooks, a), a) && IsLive(regions, a)
  {
    hide RegionList, DistinctBases, IsLive, HooksOk, Holds, Patched, Sound, HookOk, Without, Find;
    var less := Without(hooks, a);
    SoundParts(t, m, head, regions, code, hooks, 0);
    SoundParts(t, m, head, regions, code, less, a);
    WithoutOk(t, m, regions, code, hooks, a);
    PatchedWithout(code, hooks, a);
    FindOk(t, m, regions, code, hooks, a);
    HookLive(t, m, regions, code, Find(hooks, a).value);
    HooksDistinct(t, m, regions, code, hooks);
    FindWithout(hooks, a, a);
    forall b: Dword | IsLive(regions, b)
      ensures b == a || Find(less, b).Some?
    {
      FindWithout(hooks, a, b);
      LiveNotNull(regions, b);
    }
  }

  // ---------------------------------------------------------------- writing to code

  /** A write to the window of a hook leaves the pool as it is. */
  lemma {:induction false} CodeList(m: seq<Byte>, head: Dword, regions: seq<Region>, h: Hook, bytes: seq<Byte>)
    requires RegionList(m, head, regions) && WindowOutside(regions, h) && h.Size() > 0
    requires |bytes| == h.Size() && h.target + h.Size() <= |m|
    ensures RegionList(Overwrite(m, h.target, bytes), head, regions)
    decreases |regions|
  {
    hide RegionOk, Overwrite, NextOf;
    if |regions| > 0 {
      var n := Overwrite(m, h.target, bytes);
      ListStep(m, head, regions);
      ListStep(n, head, regions);
      var r := regions[0];
      Aligned(m, r);
      WindowTail(regions, h);
      OverwriteElsewhere(m, h.target, bytes, r.base, r.base + 0x1_0000);
      RegionFrame(m, n, r);
      CodeList(m, NextOf(m, head), regions[1..], h, bytes);
    }
  }

  lemma WindowTail(regions: seq<Region>, h: Hook)
    requires |regions| > 0 && WindowOutside(regions, h) && h.Size() > 0
    ensures WindowOutside(regions[1..], h)
    ensures h.target + h.Size() <= regions[0].base || regions[0].base + 0x1_0000 <= h.target
  {
    assert forall i | h.target <= i < h.target + h.Size() :: !InPool(regions, i) ==> !InPool(regions[1..], i);
    var r := regions[0];
    var first := if r.base >= h.target then r.base else h.target;
    var here := InPool(regions, first);
  }

  lemma WindowOf(t: Tables, m: seq<Byte>, head: Dword, regions: seq<Region>, code: seq<Byte>, hooks: seq<Hook>,
                 a: Dword)
    requires WellFormed(t) && Sound(t, m, head, regions, code, hooks, 0) && Find(hooks, a).Some?
    ensures var h := Find(hooks, a).value;
            && h.trampoline == a && HookOk(t, m, regions, code, h) && WindowOutside(regions, h)
            && 5 <= h.Size() <= 18 && h.target + h.Size() <= |code| == |m|
  {
    hide RegionList, DistinctBases, IsLive, HooksOk, Patched, HookOk, WindowOutside, TrampolineOk;
    FindOk(t, m, regions, code, hooks, a);
    HookSize(t, m, regions, code, Find(hooks, a).value);
    HookLive(t, m, regions, code, Find(hooks, a).value);
  }

  /** The window of `h` is rewritten, in memory and in what memory should hold. */
  lemma WindowWritten(m: seq<Byte>, p: seq<Byte>, regions: seq<Region>, at: nat, bytes: seq<Byte>)
    requires Holds(m, p, regions) && at + |bytes| <= |m|
    ensures Holds(Overwrite(m, at, bytes), Overwrite(p, at, bytes), regions)
  {
    hide InPool;
  }

  lemma SwitchHooked(regions: seq<Region>, hooks: seq<Hook>, a: Dword, on: bool)
    requires LiveHooked(regions, hooks, 0)
    ensures LiveHooked(regions, Switch(hooks, a, on), 0)
  {
    hide IsLive, Find, Switch;
    forall b: Dword | IsLive(regions, b)
      ensures Find(Switch(hooks, a, on), b).Some?
    {
      FindSwitch(hooks, a, on, b);
      LiveNotNull(regions, b);
    }
  }

  /** Writing the jump of a hook switches it on. */
  lemma SoundOn(t: Tables, m: seq<Byte>, head: Dword, regions: seq<Region>, code: seq<Byte>, hooks: seq<Hook>, a: Dword)
    requires WellFormed(t) && Sound(t, m, head, regions, code, hooks, 0) && Find(hooks, a).Some?
    ensures var h := Find(hooks, a).value;
            && 5 <= h.Size() && h.target + h.Size() <= |m|
            && Sound(t, Overwrite(m, h.target, Patch(h)), head, regions, code, Switch(hooks, a, true), 0)
  {
    hide *;
    WindowOf(t, m, head, regions, code, hooks, a);
    SoundParts(t, m, head, regions, code, hooks, 0);
    SwitchOn(t, m, regions, code, hooks, a);
    SoundWritten(t, m, head, regions, code, hooks, a, true, Patch(Find(hooks, a).value));
  }

  /** Writing the saved code of a hook back switches it off. */
  lemma SoundOff(t: Tables, m: seq<Byte>, head: Dword, regions: seq<Region>, code: seq<Byte>, hooks: seq<Hook>,
                 a: Dword)
    requires WellFormed(t) && Sound(t, m, head, regions, code, hooks, 0) && Find(hooks, a).Some?
    ensures var h := Find(hooks, a).value;
            && h.target + h.Size() <= |m|
            && Sound(t, Overwrite(m, h.target, h.saved), head, regions, code, Switch(hooks, a, false), 0)
  {
    hide Sound, HooksOk, HookOk, Patched, Find, Switch, Overwrite, WindowOutside, WellFormed;
    WindowOf(t, m, head, regions, code, hooks, a);
    SoundParts(t, m, head, regions, code, hooks, 0);
    SwitchOff(t, m, regions, code, hooks, a);
    SoundWritten(t, m, head, regions, code, hooks, a, false, Find(hooks, a).value.saved);
  }

  lemma SoundWritten(t: Tables, m: seq<Byte>, head: Dword, regions: seq<Region>, code: seq<Byte>, hooks: seq<Hook>,
                     a: Dword, on: bool, bytes: seq<Byte>)
    requires WellFormed(t) && Sound(t, m, head, regions, code, hooks, 0) && Find(hooks, a).Some?
    requires var h := Find(hooks, a).value;
             && |bytes| == h.Size() && h.target + h.Size() <= |code|
             && Patched(code, Switch(hooks, a, on)) == Overwrite(Patched(code, hooks), h.target, bytes)
    ensures Find(hooks, a).value.target + |bytes| <= |m|
    ensures Sound(t, Overwrite(m, Find(hooks, a).value.target, bytes), head, regions, code, Switch(hooks, a, on), 0)
  {
    hide RegionList, DistinctBases, HooksOk, HookOk, Patched, Sound, Find, Switch, Overwrite, HooksKept, LiveHooked,
      WindowOutside, InPool, Holds;
    var h := Find(hooks, a).value;
    WindowOf(t, m, head, regions, code, hooks, a);
    SoundParts(t, m, head, regions, code, hooks, 0);
    var n := Overwrite(m, h.target, bytes);
    SoundParts(t, n, head, regions, code, Switch(hooks, a, on), 0);
    CodeList(m, head, regions, h, bytes);
    KeptByCode(t, m, head, regions, code, hooks, h, bytes);
    HooksFrame(t, m, n, regions, regions, code, hooks);
    SwitchOk(t, n, regions, code, hooks, a, on);
    WindowWritten(m, Patched(code, hooks), regions, h.target, bytes);
    SwitchHooked(regions, hooks, a, on);
  }

  // ---------------------------------------------------------------- filling a trampoline

  /** A change inside a trampoline that is handed out does not touch the lists of the pool. */
  lemma {:induction false} SlotList(m: seq<Byte>, n: seq<Byte>, head: Dword, regions: seq<Region>, a: Dword)
    requires RegionList(m, head, regions) && OnlySlot(m, n, a)
    requires a % 32 == 0 && Inside(|m|, a) && !IsFree(regions, a)
    ensures RegionList(n, head, regions)
    decreases |regions|
  {
    hide RegionOk, NextOf, OnlySlot, LiveIn, Mask;
    if |regions| > 0 {
      ListStep(m, head, regions);
      ListStep(n, head, regions);
      var r := regions[0];
      Aligned(m, r);
      if r.base == Mask(a) {
        SlotRegion(m, n, r, a);
      } else {
        SlotIsOneRegion(m, n, a);
        OtherRegion(m, n, Mask(a), r.base);
        RegionFrame(m, n, r);
      }
      SlotList(m, n, NextOf(m, head), regions[1..], a);
    }
  }

  /** The slot at `a` is on a free list. */
  predicate IsFree(regions: seq<Region>, a: Dword)
  {
    |regions| > 0 && ((regions[0].base == Mask(a) && Slot(a) in regions[0].free) || IsFree(regions[1..], a))
  }

  lemma {:induction false} LiveNotFree(regions: seq<Region>, a: Dword)
    requires DistinctBases(regions) && IsLive(regions, a)
    ensures !IsFree(regions, a)
    decreases |regions|
  {
    LiveHasBase(regions, a);
    if LiveIn(regions[0], a) {
      NotThere(regions[1..], a);
    } else {
      LiveHasBase(regions[1..], a);
      LiveNotFree(regions[1..], a);
    }
  }

  lemma {:induction false} NotThere(regions: seq<Region>, a: Dword)
    requires !HasBase(regions, Mask(a))
    ensures !IsFree(regions, a)
    decreases |regions|
  {
    if |regions| > 0 {
      NotThere(regions[1..], a);
    }
  }

  lemma SlotIsOneRegion(m: seq<Byte>, n: seq<Byte>, a: Dword)
    requires OnlySlot(m, n, a) && Inside(|m|, a)
    ensures OnlyRegion(m, n, Mask(a)) && Mask(a) % 0x1_0000 == 0
  {
    var base := Mask(a);
    assert m[..base] == m[..a][..base] && n[..base] == n[..a][..base];
    var k := base + 0x1_0000 - a - 32;
    assert m[base + 0x1_0000..] == m[a + 32..][k..] && n[base + 0x1_0000..] == n[a + 32..][k..];
  }

  lemma SlotDword(m: seq<Byte>, n: seq<Byte>, a: Dword, at: nat)
    requires OnlySlot(m, n, a) && at + 4 <= |m| && (at + 4 <= a || a + 32 <= at)
    ensures DwordAt(n, at) == DwordAt(m, at)
  {
    hide OnlySlot;
    OnlySlotSize(m, n, a);
    OnlySlotElsewhere(m, n, a, at, at + 4);
    DwordFrame(m, n, at, at + 4, at);
  }

  lemma SlotRegion(m: seq<Byte>, n: seq<Byte>, r: Region, a: Dword)
    requires RegionOk(m, r) && OnlySlot(m, n, a) && r.base == Mask(a) && Slot(a) !in r.free
    requires a % 32 == 0 && Inside(|m|, a)
    ensures RegionOk(n, r) && NextOf(n, r.base) == NextOf(m, r.base)
  {
    hide OnlySlot, DwordAt, FreeChain;
    assert a + 32 <= |m| == |n| by { OnlySlotSize(m, n, a); }
    SlotDword(m, n, a, r.base + 4);
    SlotDword(m, n, a, r.base + 8);
    forall i | 0 <= i < |r.free|
      ensures DwordAt(n, SlotAt(r.base, r.free[i]) + 24) == DwordAt(m, SlotAt(r.base, r.free[i]) + 24)
    {
      MaskSlot(r.base, r.free[i]);
      SlotsApart(a, SlotAt(r.base, r.free[i]));
      SlotDword(m, n, a, SlotAt(r.base, r.free[i]) + 24);
    }
    FreeFrame(m, n, FreeOf(m, r.base), r.base, r.free);
  }

  /** Filling the spare trampoline. */
  lemma SoundSlot(t: Tables, m: seq<Byte>, n: seq<Byte>, head: Dword, regions: seq<Region>, code: seq<Byte>,
                  hooks: seq<Hook>, a: Dword)
    requires WellFormed(t) && Sound(t, m, head, regions, code, hooks, a) && IsLive(regions, a) && OnlySlot(m, n, a)
    ensures Sound(t, n, head, regions, code, hooks, a) && RegionList(n, head, regions)
  {
    hide RegionList, DistinctBases, IsLive, HooksOk, Holds, Patched, Sound, OnlySlot, HooksKept, LiveHooked, Inside,
      InPool;
    SoundParts(t, m, head, regions, code, hooks, a);
    SoundParts(t, n, head, regions, code, hooks, a);
    LiveBounds(m, head, regions, a);
    LiveNotFree(regions, a);
    SlotList(m, n, head, regions, a);
    SpareIsNone(regions, hooks, a);
    KeptBySlot(t, m, n, head, regions, code, hooks, a);
    HooksFrame(t, m, n, regions, regions, code, hooks);
    SlotOutside(m, n, head, regions, a, Patched(code, hooks));
  }

  lemma SlotOutside(m: seq<Byte>, n: seq<Byte>, head: Dword, regions: seq<Region>, a: Dword, p: seq<Byte>)
    requires RegionList(m, head, regions) && IsLive(regions, a) && OnlySlot(m, n, a) && Holds(m, p, regions)
    ensures Holds(n, p, regions)
  {
    hide RegionList, IsLive, InPool, OnlySlot;
    OnlySlotSize(m, n, a);
    LiveInPool(m, head, regions, a);
    forall i | 0 <= i < |n| && !InPool(regions, i)
      ensures n[i] == p[i]
    {
      OnlySlotElsewhere(m, n, a, i, i + 1);
      assert n[i] == n[i..i + 1][0] == m[i..i + 1][0] == m[i];
    }
  }
}
