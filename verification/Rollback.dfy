/** What an unfinished transaction has done to memory, and that dropping its operations undoes it. */
module Rollback {
  import opened Bytes
  import opened Trampolines
  import opened HookList
  import opened Pending
  import opened DoubleFree

  /** `ops` has an attach with the trampoline `a`. */
  predicate Attached(ops: seq<Operation>, a: Dword)
  {
    |ops| > 0 && ((!ops[0].isRemove && ops[0].trampoline == a) || Attached(ops[1..], a))
  }

  /** No two attaches share a trampoline. */
  predicate DistinctAttaches(ops: seq<Operation>)
  {
    |ops| > 0 ==> (ops[0].isRemove || !Attached(ops[1..], ops[0].trampoline)) && DistinctAttaches(ops[1..])
  }

  /** The pool keeps its memory, and has gained at most the region `grant`. */
  ghost predicate Covers(after: seq<Region>, before: seq<Region>, grant: Dword)
  {
    forall i: int ::
      && (InPool(before, i) ==> InPool(after, i))
      && (InPool(after, i) ==> InPool(before, i) || (grant != 0 && grant <= i < grant + 0x1_0000))
  }

  /** The trampolines in use are those from before and those of `ops`, and the former are as they were. */
  ghost predicate LiveSince(m0: seq<Byte>, r0: seq<Region>, m: seq<Byte>, regions: seq<Region>, ops: seq<Operation>)
  {
    && (forall a: Dword :: IsLive(regions, a) <==> IsLive(r0, a) || Attached(ops, a))
    && (forall a: Dword | IsLive(r0, a) :: !Attached(ops, a) && a + 32 <= |m| == |m0| && m[a..a + 32] == m0[a..a + 32])
  }

  /** Since the transaction began, with memory `m0` and the regions `r0`, its operations `ops` have taken their
      trampolines, and nothing else outside free pool memory has changed. */
  ghost predicate SinceBegin(m0: seq<Byte>, r0: seq<Region>, m: seq<Byte>, regions: seq<Region>, ops: seq<Operation>)
  {
    OutsideKept(m0, m, regions) && LiveSince(m0, r0, m, regions, ops)
  }

  lemma AtBegin(m: seq<Byte>, head: Dword, regions: seq<Region>)
    requires RegionList(m, head, regions)
    ensures SinceBegin(m, regions, m, regions, [])
  {
    hide RegionList, IsLive, InPool;
    forall a: Dword | IsLive(regions, a)
      ensures a + 32 <= |m|
    {
      LiveBounds(m, head, regions, a);
    }
  }

  lemma OutsideTrans(m0: seq<Byte>, m: seq<Byte>, regions: seq<Region>, n: seq<Byte>, after: seq<Region>)
    requires OutsideKept(m0, m, regions) && OutsideKept(m, n, after)
    requires forall i: int :: InPool(regions, i) ==> InPool(after, i)
    ensures OutsideKept(m0, n, after)
  {
    hide InPool;
    forall i | 0 <= i < |m0| && !InPool(after, i)
      ensures n[i] == m0[i]
    {
      assert !InPool(regions, i);
    }
  }

  lemma FreeInPool(regions: seq<Region>, a: Dword)
    ensures forall i: int :: InPool(AfterFree(regions, a), i) == InPool(AfterTake(regions, a), i) == InPool(regions, i)
  {
    hide AfterFree, AfterTake, InPool;
    forall i: int
      ensures InPool(AfterFree(regions, a), i) == InPool(AfterTake(regions, a), i) == InPool(regions, i)
    {
      SameBases(regions, a, 0, i);
    }
  }

  lemma CoversFree(regions: seq<Region>, a: Dword)
    ensures Covers(AfterFree(regions, a), regions, 0) && Covers(AfterTake(regions, a), regions, 0)
  {
    hide AfterFree, AfterTake, InPool;
    FreeInPool(regions, a);
  }

  lemma CoversGrown(m: seq<Byte>, regions: seq<Region>, n: seq<Byte>, after: seq<Region>, grant: Dword)
    requires Grown(m, regions, n, after, grant)
    ensures Covers(after, regions, grant)
  {
    hide OnlyRegion, Slots;
    if after != regions {
      assert after[1..] == regions;
    }
  }

  lemma CoversTrans(a: seq<Region>, b: seq<Region>, c: seq<Region>, grant: Dword)
    requires Covers(a, b, 0) && Covers(b, c, grant)
    ensures Covers(a, c, grant)
  {
    hide InPool;
  }

  // ---------------------------------------------------------------- one operation more

  /** A region has been mapped for the pool, or not. */
  lemma SinceGrown(m0: seq<Byte>, r0: seq<Region>, m: seq<Byte>, head: Dword, regions: seq<Region>, n: seq<Byte>,
                   after: seq<Region>, grant: Dword, ops: seq<Operation>)
    requires SinceBegin(m0, r0, m, regions, ops) && RegionList(m, head, regions) && Grown(m, regions, n, after, grant)
    requires grant != 0 ==> grant % 0x1_0000 == 0 && !HasBase(regions, grant)
    ensures SinceBegin(m0, r0, n, after, ops)
  {
    hide RegionList, IsLive, InPool, Attached, HasBase, Grown, OutsideKept;
    if grant == 0 {
      NotGrown(m, regions, n, after);
    } else {
      GrownMeaning(m, head, regions, n, after, grant, 0);
      CoversGrown(m, regions, n, after, grant);
      OutsideTrans(m0, m, regions, n, after);
      forall a: Dword
        ensures IsLive(after, a) <==> IsLive(r0, a) || Attached(ops, a)
        ensures IsLive(r0, a) ==> a + 32 <= |n| == |m0| && n[a..a + 32] == m0[a..a + 32]
      {
        GrownMeaning(m, head, regions, n, after, grant, a);
      }
    }
  }

  /** Without a grant nothing is mapped. */
  lemma NotGrown(m: seq<Byte>, regions: seq<Region>, n: seq<Byte>, after: seq<Region>)
    requires Grown(m, regions, n, after, 0)
    ensures n == m && after == regions
  {
  }

  /** An attach has taken its trampoline. */
  lemma SinceTaken(m0: seq<Byte>, r0: seq<Region>, m: seq<Byte>, head: Dword, regions: seq<Region>, op: Operation,
                   ops: seq<Operation>, t: Dword, n: seq<Byte>, after: seq<Region>)
    requires SinceBegin(m0, r0, m, regions, ops) && DistinctAttaches(ops) && RegionList(m, head, regions)
    requires DistinctBases(regions)
    requires FreeAt(regions, Mask(t)) != [] && t % 32 == 0 && Inside(|m|, t) && t == FreeOf(m, Mask(t))
    requires n == Taken(m, Mask(t)) && after == AfterTake(regions, Mask(t)) && !op.isRemove && op.trampoline == t
    ensures SinceBegin(m0, r0, n, after, [op] + ops) && DistinctAttaches([op] + ops)
    ensures n[t..t + 32] == Brks(32) && IsLive(after, t) && !IsLive(regions, t)
  {
    hide RegionList, IsLive, InPool, DistinctBases, FreeAt, Taken, AfterTake, OutsideKept, Mask, FreeOf;
    assert ([op] + ops)[1..] == ops;
    TakeMeaning(m, head, regions, t, t);
    FreeInPool(regions, Mask(t));
    OutsideSame(m, n, regions, after);
    OutsideTrans(m0, m, regions, n, after);
    forall a: Dword
      ensures IsLive(after, a) <==> IsLive(r0, a) || Attached([op] + ops, a)
      ensures IsLive(r0, a) ==> !Attached([op] + ops, a) && a + 32 <= |n| && n[a..a + 32] == m0[a..a + 32]
    {
      TakeMeaning(m, head, regions, t, a);
    }
  }

  lemma OutsideSame(m: seq<Byte>, n: seq<Byte>, regions: seq<Region>, after: seq<Region>)
    requires OutsideKept(m, n, regions) && forall i: int :: InPool(after, i) == InPool(regions, i)
    ensures OutsideKept(m, n, after)
  {
    hide InPool;
  }

  /** An attach writes to its trampoline. */
  lemma SinceSlot(m0: seq<Byte>, r0: seq<Region>, m: seq<Byte>, head: Dword, regions: seq<Region>, n: seq<Byte>,
                  ops: seq<Operation>, t: Dword)
    requires SinceBegin(m0, r0, m, regions, ops) && RegionList(m, head, regions) && Attached(ops, t)
    requires OnlySlot(m, n, t)
    ensures SinceBegin(m0, r0, n, regions, ops)
  {
    hide RegionList, IsLive, InPool, Inside, OnlySlot;
    OnlySlotSize(m, n, t);
    LiveBounds(m, head, regions, t);
    LiveInPool(m, head, regions, t);
    forall i | 0 <= i < |n| && !InPool(regions, i)
      ensures n[i] == m0[i]
    {
      OnlySlotElsewhere(m, n, t, i, i + 1);
      assert n[i] == n[i..i + 1][0] == m[i..i + 1][0] == m[i];
    }
    forall a: Dword | IsLive(r0, a)
      ensures n[a..a + 32] == m0[a..a + 32]
    {
      LiveBounds(m, head, regions, a);
      SlotsApart(t, a);
      OnlySlotElsewhere(m, n, t, a, a + 32);
    }
  }

  /** A detach becomes pending: no trampoline is taken. */
  lemma SinceDetach(m0: seq<Byte>, r0: seq<Region>, m: seq<Byte>, regions: seq<Region>, op: Operation,
                    ops: seq<Operation>)
    requires SinceBegin(m0, r0, m, regions, ops) && DistinctAttaches(ops) && op.isRemove
    ensures SinceBegin(m0, r0, m, regions, [op] + ops) && DistinctAttaches([op] + ops)
  {
    hide IsLive, OutsideKept;
    assert ([op] + ops)[1..] == ops;
    assert forall a: Dword :: Attached([op] + ops, a) <==> Attached(ops, a);
  }

  // ---------------------------------------------------------------- one operation less

  /** The first operation is dropped, an attach with its trampoline. */
  lemma SinceDropped(m0: seq<Byte>, r0: seq<Region>, m: seq<Byte>, head: Dword, regions: seq<Region>,
                     ops: seq<Operation>, t: Dword)
    requires SinceBegin(m0, r0, m, regions, ops) && DistinctAttaches(ops) && RegionList(m, head, regions)
    requires DistinctBases(regions)
    requires |ops| > 0 && !ops[0].isRemove && ops[0].trampoline == t
    ensures IsLive(regions, t) && Inside(|m|, t) && SinceBegin(m0, r0, GivenBack(m, t), AfterFree(regions, t), ops[1..])
  {
    hide RegionList, IsLive, InPool, DistinctBases, AfterFree, OutsideKept, GivenBack, Returned, Mask, Inside;
    var n, after := GivenBack(m, t), AfterFree(regions, t);
    assert IsLive(regions, t);
    FreeMeaning(m, head, regions, t, t);
    GivenBackIs(m, t);
    FreeInPool(regions, t);
    OutsideSame(m, n, regions, after);
    OutsideTrans(m0, m, regions, n, after);
    forall a: Dword
      ensures IsLive(after, a) <==> IsLive(r0, a) || Attached(ops[1..], a)
      ensures IsLive(r0, a) ==> !Attached(ops[1..], a) && a + 32 <= |n| && n[a..a + 32] == m0[a..a + 32]
    {
      FreeMeaning(m, head, regions, t, a);
    }
  }

  lemma SinceSkipped(m0: seq<Byte>, r0: seq<Region>, m: seq<Byte>, regions: seq<Region>, ops: seq<Operation>)
    requires SinceBegin(m0, r0, m, regions, ops) && |ops| > 0 && ops[0].isRemove
    ensures SinceBegin(m0, r0, m, regions, ops[1..])
  {
    hide IsLive, OutsideKept;
    assert forall a: Dword :: Attached(ops, a) <==> Attached(ops[1..], a);
  }

  /** What has happened since the transaction began, and then one call more. */
  lemma SinceMore(m0: seq<Byte>, r0: seq<Region>, m: seq<Byte>, regions: seq<Region>, ops: seq<Operation>,
                  n: seq<Byte>, after: seq<Region>, more: seq<Operation>, grant: Dword)
    requires SinceBegin(m0, r0, m, regions, ops) && DistinctAttaches(ops)
    requires SinceBegin(m, regions, n, after, more) && Covers(after, regions, grant) && |more| <= 1
    requires forall op | op in more :: !op.isRemove
    ensures SinceBegin(m0, r0, n, after, more + ops) && DistinctAttaches(more + ops)
    ensures more == [] ==> more + ops == ops
  {
    hide IsLive, InPool, OutsideKept;
    OutsideTrans(m0, m, regions, n, after);
    if more == [] {
      assert more + ops == ops;
      assert forall a: Dword :: !Attached(more, a);
    } else {
      var t := more[0].trampoline;
      assert (more + ops)[0] == more[0] && (more + ops)[1..] == ops && more[0] in more;
      assert forall a: Dword :: Attached(more, a) <==> a == t;
      assert forall a: Dword :: Attached(more + ops, a) <==> a == t || Attached(ops, a);
    }
  }
}
