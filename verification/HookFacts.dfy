/** Lemmas that the transaction code calls, one for each point where it reads or writes. */
module HookFacts {
  import opened Bytes
  import opened Options
  import opened Disasm
  import opened Relocation
  import opened Trampolines
  import opened HookList
  import opened HookSteps
  import opened Pending
  import opened Patching
  import opened DoubleFree
  import opened Rollback

  /** Two states with the same hooks have the same code. */
  lemma SameCode(t: Tables, m: seq<Byte>, h1: Dword, before: seq<Region>, n: seq<Byte>, h2: Dword, after: seq<Region>,
                 code: seq<Byte>, hooks: seq<Hook>, hooksAfter: seq<Hook>, a: Dword, grant: Dword)
    requires WellFormed(t) && Sound(t, m, h1, before, code, hooks, 0) && Sound(t, n, h2, after, code, hooksAfter, a)
    requires Covers(after, before, grant) && Patched(code, hooks) == Patched(code, hooksAfter)
    ensures OutsideKept(m, n, after)
  {
    hide InPool, Patched, HooksOk, RegionList, DistinctBases, LiveHooked, WellFormed;
    var p := Patched(code, hooks);
    forall i | 0 <= i < |m| && !InPool(after, i)
      ensures n[i] == m[i]
    {
      assert !InPool(before, i);
    }
  }

  /** What a commit may rely on when it comes to the hook at `a`. */
  lemma HookReady(t: Tables, m: seq<Byte>, head: Dword, regions: seq<Region>, code: seq<Byte>, hooks: seq<Hook>,
                  a: Dword)
    requires WellFormed(t) && Sound(t, m, head, regions, code, hooks, 0) && Find(hooks, a).Some?
    ensures var h := Find(hooks, a).value;
            && h.trampoline == a && a + 32 <= |m| && TrampolineOk(t, m[a..a + 32], h)
            && 5 <= h.Size() <= 18 && h.target + h.Size() <= |m| && (a + 32 <= h.target || h.target + h.Size() <= a)
            && m[a + 23] as int == h.Size()
            && DwordAt(m, a + 24) == h.target + h.Size() && DwordAt(m, a + 28) == h.detour
  {
    hide Sound, Patched, HooksOk, RegionList, DistinctBases, LiveHooked, WellFormed, IsLive, WindowOutside, Moved,
      AllKnown, Jmp, Fill;
    WindowOf(t, m, head, regions, code, hooks, a);
    SoundParts(t, m, head, regions, code, hooks, 0);
    var h := Find(hooks, a).value;
    HookLive(t, m, regions, code, h);
    SlotNotInWindow(m, head, regions, a, h);
    var slot := m[a..a + 32];
    assert slot[23] == m[a + 23];
    assert slot[24..28] == m[a + 24..a + 28] && slot[28..32] == m[a + 28..a + 32];
  }

  // ---------------------------------------------------------------- attaching

  /** The code at `target` does not meet the window of any hook. */
  predicate Clear(target: Dword, n: nat, hooks: seq<Hook>)
  {
    |hooks| > 0 ==>
      && (target + n <= hooks[0].target || hooks[0].target + hooks[0].Size() <= target)
      && Clear(target, n, hooks[1..])
  }

  lemma {:induction false} ClearSeparate(h: Hook, hooks: seq<Hook>)
    requires Clear(h.target, h.Size(), hooks) && Find(hooks, h.trampoline).None?
    ensures SeparateFrom(h, hooks)
    decreases |hooks|
  {
    if |hooks| > 0 {
      ClearSeparate(h, hooks[1..]);
    }
  }

  /** The code that an attach reads, as a window of its own. */
  function Ahead(target: Dword, w: seq<Byte>, tail: seq<Byte>): Hook
  {
    Hook(0, target, w + tail, 0, false)
  }

  /** The 32 bytes that a slot at `i` would have for its first byte. */
  function SlotStart(i: int): Dword { if 0 <= i < 0x1_0000_0000 then i - i % 32 else 0 }

  /** No byte from `lo` to `hi` is free memory of the pool: it is code or data outside it, or lies in a trampoline in
      use. */
  ghost predicate InUse(regions: seq<Region>, lo: nat, hi: nat)
  {
    forall i: int | lo <= i < hi && InPool(regions, i) :: 0 <= i < 0x1_0000_0000 && IsLive(regions, SlotStart(i))
  }

  /** What an attach needs of memory: whole instructions at `target`, with two bytes after them, none of it free pool
      memory, and fresh memory for a new region. */
  ghost predicate Attachable(t: Tables, m: seq<Byte>, regions: seq<Region>, target: Dword, w: seq<Byte>,
                             tail: seq<Byte>, grant: Dword)
    requires WellFormed(t)
  {
    && |tail| == 2 && Window(t, w, 0) && target + |w| < 0x1_0000_0000 && target + |w| + 2 <= |m|
    && m[target..target + |w| + 2] == w + tail && InUse(regions, target, target + |w| + 2)
    && Mappable(m, regions, target, target + |w| + 2, grant)
  }

  /** The system grants whole regions of free memory. */
  predicate Mappable(m: seq<Byte>, regions: seq<Region>, lo: nat, hi: nat, grant: Dword)
  {
    grant != 0 ==>
      && !HasBase(regions, grant) && grant <= 0xffff_0000 && grant % 0x1_0000 == 0 && grant + 0x1_0000 <= |m|
      && (hi <= grant || grant + 0x1_0000 <= lo)
  }

  /** The code that an attach would move is plain: the tables know its opcodes, and no hook and no trampoline touches
      it. */
  ghost predicate Plain(t: Tables, regions: seq<Region>, hooks: seq<Hook>, target: Dword, w: seq<Byte>, tail: seq<Byte>)
    requires WellFormed(t)
  {
    AllKnown(t, w) && WindowOutside(regions, Ahead(target, w, tail)) && Clear(target, |w|, hooks)
  }

  lemma AttachableParts(t: Tables, m: seq<Byte>, regions: seq<Region>, target: Dword, w: seq<Byte>, tail: seq<Byte>,
                        grant: Dword)
    requires WellFormed(t) && Attachable(t, m, regions, target, w, tail, grant)
    ensures |tail| == 2 && Window(t, w, 0) && target + |w| < 0x1_0000_0000 && target + |w| + 2 <= |m|
    ensures m[target..target + |w| + 2] == w + tail && InUse(regions, target, target + |w| + 2)
    ensures grant != 0 ==>
              && !HasBase(regions, grant) && grant <= 0xffff_0000 && grant % 0x1_0000 == 0 && grant + 0x1_0000 <= |m|
              && (target + |w| + 2 <= grant || grant + 0x1_0000 <= target)
  {
  }

  // ---------------------------------------------------------------- the trampoline of an attach

  /** Memory in use is not handed out, and is as it was. */
  lemma UseKept(m: seq<Byte>, head: Dword, regions: seq<Region>, grant: Dword, mid: seq<Byte>, midHead: Dword,
                midRegions: seq<Region>, t: Dword, n: seq<Byte>, lo: nat, hi: nat)
    requires RegionList(m, head, regions) && Grown(m, regions, mid, midRegions, grant)
    requires grant != 0 ==> grant % 0x1_0000 == 0 && !HasBase(regions, grant) && (hi <= grant || grant + 0x1_0000 <= lo)
    requires RegionList(mid, midHead, midRegions) && DistinctBases(midRegions) && FreeAt(midRegions, Mask(t)) != []
    requires t % 32 == 0 && Inside(|mid|, t) && t == FreeOf(mid, Mask(t)) && n == Taken(mid, Mask(t))
    requires lo < hi <= |m| && InUse(regions, lo, hi)
    ensures |n| == |m| && n[lo..hi] == m[lo..hi] && (hi <= t || t + 32 <= lo)
  {
    hide RegionList, Grown, DistinctBases, FreeAt, Taken, Inside, FreeOf, Mask, HasBase, IsLive, InPool, OutsideKept,
      InUse, SlotStart;
    CoversGrown(m, regions, mid, midRegions, grant);
    SameSizes(m, head, regions, mid, midRegions, grant, midHead, t, n);
    forall i | lo <= i < hi
      ensures n[i] == m[i] && !(t <= i < t + 32)
    {
      ByteKept(m, head, regions, grant, mid, midHead, midRegions, t, n, lo, hi, i);
    }
    var i := if lo <= t then t as int else lo;
    if i < hi {
      assert n[i] == m[i];
    }
  }

  lemma SameSizes(m: seq<Byte>, head: Dword, regions: seq<Region>, mid: seq<Byte>, midRegions: seq<Region>,
                  grant: Dword, midHead: Dword, t: Dword, n: seq<Byte>)
    requires Grown(m, regions, mid, midRegions, grant)
    requires RegionList(mid, midHead, midRegions) && DistinctBases(midRegions) && FreeAt(midRegions, Mask(t)) != []
    requires t % 32 == 0 && Inside(|mid|, t) && t == FreeOf(mid, Mask(t)) && n == Taken(mid, Mask(t))
    ensures |m| == |mid| == |n|
  {
    hide RegionList, DistinctBases, FreeAt, Taken, FreeOf, Mask, IsLive, InPool, Slots;
    TakeMeaning(mid, midHead, midRegions, t, t);
  }

  lemma ByteKept(m: seq<Byte>, head: Dword, regions: seq<Region>, grant: Dword, mid: seq<Byte>, midHead: Dword,
                 midRegions: seq<Region>, t: Dword, n: seq<Byte>, lo: nat, hi: nat, i: nat)
    requires RegionList(m, head, regions) && Grown(m, regions, mid, midRegions, grant)
    requires Covers(midRegions, regions, grant)
    requires grant != 0 ==> grant % 0x1_0000 == 0 && !HasBase(regions, grant) && (hi <= grant || grant + 0x1_0000 <= lo)
    requires RegionList(mid, midHead, midRegions) && DistinctBases(midRegions) && FreeAt(midRegions, Mask(t)) != []
    requires t % 32 == 0 && Inside(|mid|, t) && t == FreeOf(mid, Mask(t)) && n == Taken(mid, Mask(t))
    requires lo <= i < hi <= |m| == |n| && InUse(regions, lo, hi)
    ensures n[i] == m[i] && !(t <= i < t + 32)
  {
    hide RegionList, Grown, DistinctBases, FreeAt, Taken, Inside, FreeOf, Mask, HasBase, IsLive, InPool, SlotStart;
    TakeMeaning(mid, midHead, midRegions, t, t);
    TakenInPool(mid, midHead, midRegions, t);
    if InPool(regions, i) {
      var a := SlotStart(i);
      SlotOfByte(i, t);
      StillInUse(m, head, regions, mid, midRegions, grant, a);
      TakeMeaning(mid, midHead, midRegions, t, a);
      ByteOfSlot(m, mid, a, i);
      ByteOfSlot(mid, n, a, i);
    } else {
      assert !InPool(midRegions, i);
      OutsideGrown(m, head, regions, mid, midRegions, grant);
    }
  }

  lemma StillInUse(m: seq<Byte>, head: Dword, regions: seq<Region>, n: seq<Byte>, after: seq<Region>, grant: Dword,
                   a: Dword)
    requires RegionList(m, head, regions) && Grown(m, regions, n, after, grant) && IsLive(regions, a)
    requires grant != 0 ==> grant % 0x1_0000 == 0 && !HasBase(regions, grant)
    ensures IsLive(after, a) && a + 32 <= |m| == |n| && n[a..a + 32] == m[a..a + 32]
  {
    hide RegionList, Grown, IsLive, HasBase, InPool;
    if grant == 0 {
      NotGrown(m, regions, n, after);
      LiveBounds(m, head, regions, a);
    } else {
      GrownMeaning(m, head, regions, n, after, grant, a);
    }
  }

  lemma OutsideGrown(m: seq<Byte>, head: Dword, regions: seq<Region>, n: seq<Byte>, after: seq<Region>, grant: Dword)
    requires RegionList(m, head, regions) && Grown(m, regions, n, after, grant)
    requires grant != 0 ==> grant % 0x1_0000 == 0 && !HasBase(regions, grant)
    ensures OutsideKept(m, n, after)
  {
    hide RegionList, Grown, IsLive, HasBase, InPool;
    if grant == 0 {
      NotGrown(m, regions, n, after);
    } else {
      GrownMeaning(m, head, regions, n, after, grant, 0);
    }
  }

  lemma TakenInPool(m: seq<Byte>, head: Dword, regions: seq<Region>, t: Dword)
    requires RegionList(m, head, regions) && DistinctBases(regions) && FreeAt(regions, Mask(t)) != []
    requires t % 32 == 0 && Inside(|m|, t) && t == FreeOf(m, Mask(t))
    ensures forall i | t <= i < t + 32 :: InPool(regions, i)
  {
    hide RegionList, DistinctBases, FreeAt, FreeOf, InPool, HasBase;
    FreeHasBase(regions, Mask(t));
    BaseInPool(regions, Mask(t));
  }

  lemma SlotOfByte(i: nat, t: Dword)
    requires t % 32 == 0 && i < 0x1_0000_0000
    ensures t <= i < t + 32 ==> SlotStart(i) == t
  {
    assert t == 32 * (t / 32);
    if t <= i < t + 32 {
      assert i / 32 == t / 32;
    }
  }

  lemma ByteOfSlot(m: seq<Byte>, n: seq<Byte>, a: Dword, i: nat)
    requires a + 32 <= |m| == |n| && n[a..a + 32] == m[a..a + 32] && SlotStart(i) == a && i < 0x1_0000_0000
    ensures n[i] == m[i]
  {
    assert a <= i < a + 32;
    assert n[i] == n[a..a + 32][i - a] && m[i] == m[a..a + 32][i - a];
  }

  /** The pool after an allocation that failed. */
  lemma NotAllocated(t: Tables, m: seq<Byte>, head: Dword, regions: seq<Region>, n: seq<Byte>, headAfter: Dword,
                     after: seq<Region>, grant: Dword, code: seq<Byte>, hooks: seq<Hook>)
    requires WellFormed(t) && Sound(t, m, head, regions, code, hooks, 0) && Grown(m, regions, n, after, grant)
    requires grant != 0 ==> grant % 0x1_0000 == 0 && !HasBase(regions, grant) && GrantApart(hooks, grant)
    requires RegionList(n, headAfter, after) && DistinctBases(after)
    ensures Sound(t, n, headAfter, after, code, hooks, 0)
  {
    hide *;
    if grant != 0 {
      SoundGrown(t, m, head, regions, n, headAfter, after, grant, code, hooks);
    } else {
      NotGrown(m, regions, n, after);
      SoundParts(t, m, head, regions, code, hooks, 0);
      SoundParts(t, n, headAfter, after, code, hooks, 0);
    }
  }

  lemma StillOutside(m: seq<Byte>, regions: seq<Region>, n: seq<Byte>, after: seq<Region>, grant: Dword, h: Hook)
    requires Grown(m, regions, n, after, grant) && WindowOutside(regions, h)
    requires grant != 0 ==> h.target + h.Size() <= grant || grant + 0x1_0000 <= h.target
    ensures WindowOutside(after, h)
  {
    hide WindowOutside, OnlyRegion, Slots;
    if grant != 0 {
      WindowGrown(m, regions, n, after, grant, h);
    }
  }

  /** The pool after an allocation that gave the trampoline `a`: it was not in use, and nothing in use has changed. */
  lemma Allocated(t: Tables, m: seq<Byte>, head: Dword, regions: seq<Region>, mid: seq<Byte>, headAfter: Dword,
                  midRegions: seq<Region>, grant: Dword, op: Operation, target: Dword, w: seq<Byte>, tail: seq<Byte>,
                  n: seq<Byte>, after: seq<Region>)
    requires WellFormed(t) && RegionList(m, head, regions) && Grown(m, regions, mid, midRegions, grant)
    requires Attachable(t, m, regions, target, w, tail, grant)
    requires RegionList(mid, headAfter, midRegions) && DistinctBases(midRegions) && !op.isRemove
    requires FreeAt(midRegions, Mask(op.trampoline)) != [] && op.trampoline % 32 == 0
    requires Inside(|mid|, op.trampoline) && op.trampoline == FreeOf(mid, Mask(op.trampoline))
    requires n == Taken(mid, Mask(op.trampoline)) && after == AfterTake(midRegions, Mask(op.trampoline))
    ensures SinceBegin(m, regions, n, after, [op]) && Covers(after, regions, grant)
    ensures IsLive(after, op.trampoline) && !IsLive(regions, op.trampoline)
    ensures Placed(n, op.trampoline, target, w, tail) && n[op.trampoline..op.trampoline + 32] == Brks(32)
  {
    hide *;
    var a := op.trampoline;
    AttachableParts(t, m, regions, target, w, tail, grant);
    AtBegin(m, head, regions);
    SinceGrown(m, regions, m, head, regions, mid, midRegions, grant, []);
    NoneAttached();
    SinceTaken(m, regions, mid, headAfter, midRegions, op, [], a, n, after);
    assert [op] + [] == [op];
    CoversGrown(m, regions, mid, midRegions, grant);
    CoversFree(midRegions, Mask(a));
    CoversTrans(after, midRegions, regions, grant);
    UseKept(m, head, regions, grant, mid, headAfter, midRegions, a, n, target, target + |w| + 2);
    TakenRoom(mid, headAfter, midRegions, a, n);
    IsPlaced(n, a, target, w, tail);
    TakenWasFree(m, regions, n, after, op);
  }

  lemma NoneAttached()
    ensures DistinctAttaches([])
  {
  }

  lemma TakenRoom(m: seq<Byte>, head: Dword, regions: seq<Region>, a: Dword, n: seq<Byte>)
    requires RegionList(m, head, regions) && DistinctBases(regions) && FreeAt(regions, Mask(a)) != []
    requires a % 32 == 0 && Inside(|m|, a) && a == FreeOf(m, Mask(a)) && n == Taken(m, Mask(a))
    ensures a + 32 <= |n|
  {
    hide RegionList, DistinctBases, FreeAt, Taken, FreeOf, IsLive, InPool;
    TakeMeaning(m, head, regions, a, a);
  }

  lemma TakenWasFree(m: seq<Byte>, regions: seq<Region>, n: seq<Byte>, after: seq<Region>, op: Operation)
    requires SinceBegin(m, regions, n, after, [op]) && !op.isRemove
    ensures !IsLive(regions, op.trampoline)
  {
    hide IsLive, OutsideKept;
    assert Attached([op], op.trampoline);
  }

  /** The same allocation, in a sound process. */
  lemma AllocatedSound(t: Tables, m: seq<Byte>, head: Dword, regions: seq<Region>, mid: seq<Byte>, headAfter: Dword,
                       midRegions: seq<Region>, grant: Dword, code: seq<Byte>, hooks: seq<Hook>, a: Dword, n: seq<Byte>,
                       after: seq<Region>)
    requires WellFormed(t) && Sound(t, m, head, regions, code, hooks, 0) && Grown(m, regions, mid, midRegions, grant)
    requires grant != 0 ==> grant % 0x1_0000 == 0 && !HasBase(regions, grant) && GrantApart(hooks, grant)
    requires RegionList(mid, headAfter, midRegions) && DistinctBases(midRegions)
    requires FreeAt(midRegions, Mask(a)) != [] && a % 32 == 0 && Inside(|mid|, a) && a == FreeOf(mid, Mask(a))
    requires n == Taken(mid, Mask(a)) && after == AfterTake(midRegions, Mask(a))
    requires RegionList(n, headAfter, after) && DistinctBases(after)
    ensures Sound(t, n, headAfter, after, code, hooks, a) && Find(hooks, a).None?
  {
    hide *;
    NotAllocated(t, m, head, regions, mid, headAfter, midRegions, grant, code, hooks);
    SoundTake(t, mid, headAfter, midRegions, code, hooks, a);
  }

  /** A window outside the pool stays outside. */
  lemma AllocatedOutside(m: seq<Byte>, regions: seq<Region>, mid: seq<Byte>, midRegions: seq<Region>, grant: Dword,
                         a: Dword, h: Hook)
    requires Grown(m, regions, mid, midRegions, grant) && WindowOutside(regions, h)
    requires grant != 0 ==> h.target + h.Size() <= grant || grant + 0x1_0000 <= h.target
    ensures WindowOutside(AfterTake(midRegions, Mask(a)), h)
  {
    hide WindowOutside, Grown, AfterTake, Mask;
    StillOutside(m, regions, mid, midRegions, grant, h);
    WindowSame(midRegions, AfterTake(midRegions, Mask(a)), h, Mask(a));
  }

  lemma LiveRoom(m: seq<Byte>, head: Dword, regions: seq<Region>, a: Dword)
    requires RegionList(m, head, regions) && IsLive(regions, a)
    ensures a + 32 <= |m| && a + 32 <= 0x1_0000_0000
  {
    hide RegionList, IsLive;
    LiveBounds(m, head, regions, a);
    assert Mask(a) == 0x1_0000 * (a / 0x1_0000);
  }

  lemma IsPlaced(n: seq<Byte>, a: Dword, target: Dword, w: seq<Byte>, tail: seq<Byte>)
    requires |tail| == 2 && a + 32 <= |n| && target + |w| + 2 <= |n| && (a + 32 <= target || target + |w| + 2 <= a)
    requires n[target..target + |w| + 2] == w + tail
    ensures Placed(n, a, target, w, tail)
  {
  }

  /** The code under a new hook is unhooked code. */
  lemma OriginalCode(t: Tables, m: seq<Byte>, head: Dword, regions: seq<Region>, code: seq<Byte>, hooks: seq<Hook>,
                     h: Hook, tail: seq<Byte>)
    requires WellFormed(t) && Sound(t, m, head, regions, code, hooks, h.trampoline) && SeparateFrom(h, hooks)
    requires WindowOutside(regions, Ahead(h.target, h.saved, tail))
    requires h.target + h.Size() + |tail| <= |m| && m[h.target..h.target + h.Size() + |tail|] == h.saved + tail
    ensures WindowOutside(regions, h) && |m| == |code| && code[h.target..h.target + h.Size()] == h.saved
  {
    hide InPool, Patched, HooksOk, RegionList, DistinctBases, LiveHooked, WellFormed, SeparateFrom;
    PatchedElsewhere(t, m, regions, code, hooks, h);
    var p := Patched(code, hooks);
    forall i | h.target <= i < h.target + h.Size()
      ensures !InPool(regions, i) && m[i] == p[i]
    {
    }
    assert m[h.target..h.target + h.Size()] == m[h.target..h.target + h.Size() + |tail|][..h.Size()] == h.saved;
    assert m[h.target..h.target + h.Size()] == p[h.target..h.target + h.Size()];
  }

  /** The trampoline is filled: the new hook joins, still off. */
  lemma HookJoins(t: Tables, m: seq<Byte>, head: Dword, regions: seq<Region>, code: seq<Byte>, hooks: seq<Hook>,
                  h: Hook, tail: seq<Byte>)
    requires WellFormed(t) && Sound(t, m, head, regions, code, hooks, h.trampoline) && IsLive(regions, h.trampoline)
    requires Clear(h.target, h.Size(), hooks) && Find(hooks, h.trampoline).None? && !h.on
    requires h.trampoline + 32 <= |m| && TrampolineOk(t, m[h.trampoline..h.trampoline + 32], h)
    requires WindowOutside(regions, Ahead(h.target, h.saved, tail))
    requires h.target + h.Size() + |tail| <= |m| && m[h.target..h.target + h.Size() + |tail|] == h.saved + tail
    ensures Sound(t, m, head, regions, code, [h] + hooks, 0)
  {
    hide Sound, IsLive, Clear, WindowOutside, WellFormed, TrampolineOk, SeparateFrom, Find;
    ClearSeparate(h, hooks);
    OriginalCode(t, m, head, regions, code, hooks, h, tail);
    SoundAdd(t, m, head, regions, code, hooks, h);
  }

  /** Filling a trampoline that is handed out leaves the lists of the pool as they are. */
  lemma SlotKeepsLists(m: seq<Byte>, n: seq<Byte>, head: Dword, regions: seq<Region>, a: Dword)
    requires RegionList(m, head, regions) && DistinctBases(regions) && IsLive(regions, a) && OnlySlot(m, n, a)
    ensures RegionList(n, head, regions)
  {
    hide RegionList, DistinctBases, IsLive, OnlySlot, Inside, InPool;
    LiveBounds(m, head, regions, a);
    LiveNotFree(regions, a);
    SlotList(m, n, head, regions, a);
  }
}
