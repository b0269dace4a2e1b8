/** Transactions on code that may be hooked already: each attach puts its jump over what is there, each detach puts back
    what its attach had found. */
module HookLayers {
  import opened Bytes
  import opened Options
  import opened Disasm
  import opened Relocation
  import opened Trampolines
  import opened HookList
  import opened HookSteps
  import opened Pending
  import opened Patching
  import opened DoubleFree
  import opened Rollback
  import opened HookFacts
  import opened Carrying
  import opened Hooks
  import opened HookRoundTrip
  import opened HookStacks

  /** The trampoline of `h` is in use and serves it, and its code is known and outside the pool. */
  ghost predicate Serves(t: Tables, m: seq<Byte>, regions: seq<Region>, h: Hook)
    requires WellFormed(t)
  {
    && IsLive(regions, h.trampoline) && WindowOutside(regions, h) && h.target + h.Size() <= |m|
    && h.trampoline + 32 <= |m| && TrampolineOk(t, m[h.trampoline..h.trampoline + 32], h)
  }

  lemma ServesParts(t: Tables, m: seq<Byte>, head: Dword, regions: seq<Region>, h: Hook)
    requires WellFormed(t) && RegionList(m, head, regions) && Serves(t, m, regions, h)
    ensures IsLive(regions, h.trampoline) && WindowOutside(regions, h)
    ensures 5 <= h.Size() <= 18 && h.target + h.Size() <= |m| && h.target + h.Size() < 0x1_0000_0000
    ensures h.trampoline + 32 <= |m| && TrampolineOk(t, m[h.trampoline..h.trampoline + 32], h)
    ensures h.trampoline + 32 <= h.target || h.target + h.Size() <= h.trampoline
    ensures m[h.trampoline + 23] as int == h.Size()
    ensures DwordAt(m, h.trampoline + 24) == h.target + h.Size() && DwordAt(m, h.trampoline + 28) == h.detour
  {
    hide RegionList, IsLive, WindowOutside, Moved, AllKnown, Jmp, Fill, Window, WellFormed;
    SlotNotInWindow(m, head, regions, h.trampoline, h);
    var slot := m[h.trampoline..h.trampoline + 32];
    assert slot[23] == m[h.trampoline + 23];
    assert slot[24..28] == m[h.trampoline + 24..h.trampoline + 28]
      && slot[28..32] == m[h.trampoline + 28..h.trampoline + 32];
  }

  /** Fresh memory for the pool does not hold the code of `h`. */
  predicate GrantClear(grant: Dword, h: Hook)
  {
    grant != 0 ==> h.target + h.Size() <= grant || grant + 0x1_0000 <= h.target
  }

  // ---------------------------------------------------------------- what each step leaves alone

  lemma ServesSince(t: Tables, m0: seq<Byte>, r0: seq<Region>, m: seq<Byte>, regions: seq<Region>, ops: seq<Operation>,
                    grant: Dword, g: Hook)
    requires WellFormed(t) && Serves(t, m0, r0, g) && SinceBegin(m0, r0, m, regions, ops) && Covers(regions, r0, grant)
    requires GrantClear(grant, g)
    ensures Serves(t, m, regions, g)
  {
    hide IsLive, InPool, TrampolineOk, Attached, WellFormed;
    assert IsLive(r0, g.trampoline) && IsLive(regions, g.trampoline);
    forall i | g.target <= i < g.target + g.Size()
      ensures !InPool(regions, i)
    {
      assert !InPool(r0, i);
    }
  }

  lemma ServesWritten(t: Tables, m: seq<Byte>, head: Dword, regions: seq<Region>, h: Hook, bytes: seq<Byte>, g: Hook)
    requires WellFormed(t) && RegionList(m, head, regions) && WindowOutside(regions, h) && |bytes| == h.Size() > 0
    requires h.target + h.Size() <= |m| && Serves(t, m, regions, g)
    ensures Serves(t, Overwrite(m, h.target, bytes), regions, g)
  {
    hide RegionList, IsLive, WindowOutside, TrampolineOk, WellFormed, Overwrite;
    SlotNotInWindow(m, head, regions, g.trampoline, h);
    OverwriteElsewhere(m, h.target, bytes, g.trampoline, g.trampoline + 32);
  }

  lemma ServesFreed(t: Tables, m: seq<Byte>, head: Dword, regions: seq<Region>, a: Dword, g: Hook)
    requires WellFormed(t) && RegionList(m, head, regions) && DistinctBases(regions) && IsLive(regions, a)
    requires Serves(t, m, regions, g) && g.trampoline != a
    ensures Serves(t, GivenBack(m, a), AfterFree(regions, a), g)
  {
    hide RegionList, DistinctBases, IsLive, WindowOutside, TrampolineOk, WellFormed, GivenBack, AfterFree, Returned,
      Inside, Mask, OutsideKept;
    FreeMeaning(m, head, regions, a, g.trampoline);
    GivenBackIs(m, a);
    WindowSame(regions, AfterFree(regions, a), g, a);
  }

  /** Outside the pool, a write to a window shows as it would have on the code of before. */
  lemma OutsideWritten(m0: seq<Byte>, m: seq<Byte>, regions: seq<Region>, at: nat, bytes: seq<Byte>)
    requires OutsideKept(m0, m, regions) && at + |bytes| <= |m|
    ensures OutsideKept(Overwrite(m0, at, bytes), Overwrite(m, at, bytes), regions)
  {
    hide InPool;
  }

  // ---------------------------------------------------------------- a transaction with one operation

  lemma CarryTheOne(t: Tables, p: Progress, op: Operation)
    requires WellFormed(t)
    ensures CarryAll(t, p, [op]) == CarryOne(t, p, op) && (CanCarryAll(t, p, [op]) <==> CanCarry(t, p.m, op))
  {
    hide CarryOne, CanCarry, WellFormed;
    CarryNext(t, p, [op]);
    assert [op][1..] == [];
    CarryNone(t, CarryOne(t, p, op));
  }

  lemma RemovesOne(op: Operation)
    ensures Removes([op]) == (if op.isRemove then [op.trampoline] else []) && NoRepeats(Removes([op]))
  {
    assert [op][1..] == [];
  }

  /** The one attach can be committed; it writes its jump over the window. */
  lemma AttachCommits(d: Detours, h: Hook, op: Operation)
    requires d.Valid() && d.operations == [op] && !op.isRemove && op.trampoline == h.trampoline && op.target == h.target
    requires Serves(d.tables, d.mem[..], d.pool.regions, h)
    ensures h.Size() >= 5 && h.target + h.Size() <= d.mem.Length
    ensures d.CanCommit() && d.LeavesLists()
    ensures d.Carried() == Progress(Overwrite(d.mem[..], h.target, Patch(h)), d.error, d.failed)
    ensures Removes(d.operations) == [] && NoRepeats(Removes(d.operations))
  {
    hide RegionList, DistinctBases, HasBase, WellFormed, SinceBegin, DistinctAttaches, Balanced, Serves, CarryOne,
      CarryAll, CanCarry, CanCarryAll, Overwrite, Patch, DwordAt, TrampolineOk, IsLive, WindowOutside, Removes,
      NoRepeats;
    var m := d.mem[..];
    ServesParts(d.tables, m, d.pool.head, d.pool.regions, h);
    CarryTheOne(d.tables, Progress(m, d.error, d.failed), op);
    CarryAttach(d.tables, Progress(m, d.error, d.failed), op, h);
    CodeList(m, d.pool.head, d.pool.regions, h, Patch(h));
    RemovesOne(op);
  }

  /** The one detach can be committed; it writes the saved code back. */
  lemma DetachCommits(d: Detours, h: Hook, op: Operation)
    requires d.Valid() && d.operations == [op] && op.isRemove && op.trampoline == h.trampoline && op.target == h.target
    requires Serves(d.tables, d.mem[..], d.pool.regions, h)
    ensures h.Size() >= 5 && h.target + h.Size() <= d.mem.Length
    ensures d.CanCommit() && d.LeavesLists()
    ensures d.Carried() == Progress(Overwrite(d.mem[..], h.target, h.saved), d.error, d.failed)
    ensures Removes(d.operations) == [h.trampoline] && NoRepeats(Removes(d.operations))
  {
    hide RegionList, DistinctBases, HasBase, WellFormed, SinceBegin, DistinctAttaches, Balanced, Serves, CarryOne,
      CarryAll, CanCarry, CanCarryAll, Overwrite, Patch, DwordAt, TrampolineOk, IsLive, WindowOutside, Removes,
      NoRepeats, InPool, Inside;
    var m := d.mem[..];
    ServesParts(d.tables, m, d.pool.head, d.pool.regions, h);
    CarryTheOne(d.tables, Progress(m, d.error, d.failed), op);
    CarryRemove(d.tables, Progress(m, d.error, d.failed), op, h);
    CodeList(m, d.pool.head, d.pool.regions, h, h.saved);
    LiveBounds(m, d.pool.head, d.pool.regions, h.trampoline);
    RemovesOne(op);
    OneInUse(m, d.pool.regions, h.trampoline);
  }

  lemma OneInUse(m: seq<Byte>, regions: seq<Region>, a: Dword)
    requires IsLive(regions, a) && Inside(|m|, a)
    ensures AllLive(regions, [a]) && AllInside(|m|, [a])
  {
    hide IsLive, Inside;
    assert [a][1..] == [];
  }

  lemma NothingCommits(d: Detours)
    requires d.Valid() && d.operations == []
    ensures d.CanCommit() && d.LeavesLists() && d.Carried() == Progress(d.mem[..], d.error, d.failed)
    ensures Removes(d.operations) == [] && NoRepeats(Removes(d.operations)) && Attaches(d.operations) == []
  {
    hide RegionList, DistinctBases, HasBase, WellFormed, SinceBegin, DistinctAttaches, Balanced;
    CarryNone(d.tables, Progress(d.mem[..], d.error, d.failed));
  }

  lemma NoneReturned(m: seq<Byte>, regions: seq<Region>, pointers: map<int, Dword>)
    ensures ReturnedAll(m, []) == m && FreeAll(regions, []) == regions && Repointed(pointers, []) == pointers
  {
  }

  lemma OneReturned(m: seq<Byte>, regions: seq<Region>, a: Dword)
    ensures ReturnedAll(m, [a]) == GivenBack(m, a) && FreeAll(regions, [a]) == AfterFree(regions, a)
  {
    hide GivenBack, AfterFree;
    assert [a][1..] == [];
    NoneReturned(GivenBack(m, a), AfterFree(regions, a), map[]);
  }

  lemma OneRepointed(pointers: map<int, Dword>, op: Operation)
    ensures Repointed(pointers, [op]) == pointers[op.pointer := if op.isRemove then op.target else op.trampoline]
  {
    assert [op][1..] == [];
  }

  /** The trampoline of a new hook on known code serves it. */
  lemma NewServes(t: Tables, m0: seq<Byte>, r0: seq<Region>, m: seq<Byte>, regions: seq<Region>, grant: Dword, h: Hook,
                  op: Operation, tail: seq<Byte>)
    requires WellFormed(t) && SinceBegin(m0, r0, m, regions, [op]) && Covers(regions, r0, grant)
    requires !op.isRemove && op.trampoline == h.trampoline && h.trampoline + 32 <= |m|
    requires TrampolineFor(t, m[h.trampoline..h.trampoline + 32], h) && AllKnown(t, h.saved)
    requires WindowOutside(r0, Ahead(h.target, h.saved, tail)) && h.target + h.Size() <= |m| && GrantClear(grant, h)
    ensures Serves(t, m, regions, h) && !IsLive(r0, h.trampoline)
  {
    hide IsLive, InPool, TrampolineFor, WellFormed, AllKnown, OutsideKept;
    assert Attached([op], h.trampoline);
    forall i | h.target <= i < h.target + h.Size()
      ensures !InPool(regions, i)
    {
      assert !InPool(r0, i);
    }
  }

  /** The jump of a new hook has been written. */
  lemma HookWritten(t: Tables, m0: seq<Byte>, r0: seq<Region>, m: seq<Byte>, head: Dword, regions: seq<Region>,
                    ops: seq<Operation>, h: Hook, n: seq<Byte>)
    requires WellFormed(t) && RegionList(m, head, regions) && SinceBegin(m0, r0, m, regions, ops)
    requires Serves(t, m, regions, h)
    requires 5 <= h.Size() && h.target + h.Size() <= |m| && n == Overwrite(m, h.target, Patch(h))
    ensures OutsideKept(On(m0, h), n, regions) && Serves(t, n, regions, h)
  {
    hide RegionList, WellFormed, Serves, Overwrite, Patch, LiveSince, OutsideKept, WindowOutside, IsLive;
    SinceSizes(m0, r0, m, regions, ops);
    OutsideWritten(m0, m, regions, h.target, Patch(h));
    ServesParts(t, m, head, regions, h);
    ServesWritten(t, m, head, regions, h, Patch(h), h);
  }

  lemma SinceSizes(m0: seq<Byte>, r0: seq<Region>, m: seq<Byte>, regions: seq<Region>, ops: seq<Operation>)
    requires SinceBegin(m0, r0, m, regions, ops)
    ensures |m| == |m0| && OutsideKept(m0, m, regions)
  {
    hide LiveSince, InPool;
  }

  /** The other hooks after an attach, committed or not. */
  lemma OthersServe(t: Tables, m0: seq<Byte>, r0: seq<Region>, m: seq<Byte>, head: Dword, regions: seq<Region>,
                    ops: seq<Operation>, grant: Dword, h: Hook, n: seq<Byte>)
    requires WellFormed(t) && RegionList(m, head, regions) && SinceBegin(m0, r0, m, regions, ops)
    requires Covers(regions, r0, grant)
    requires n == m || (Serves(t, m, regions, h) && 5 <= h.Size() && h.target + h.Size() <= |m|
                        && n == Overwrite(m, h.target, Patch(h)))
    ensures forall g | Serves(t, m0, r0, g) && GrantClear(grant, g) :: Serves(t, n, regions, g)
  {
    hide RegionList, WellFormed, SinceBegin, Serves, Overwrite, Patch, Covers, GrantClear, WindowOutside, IsLive;
    forall g | Serves(t, m0, r0, g) && GrantClear(grant, g)
      ensures Serves(t, n, regions, g)
    {
      ServesSince(t, m0, r0, m, regions, ops, grant, g);
      if n != m {
        ServesParts(t, m, head, regions, h);
        ServesWritten(t, m, head, regions, h, Patch(h), g);
      }
    }
  }

  // ---------------------------------------------------------------- a transaction with any operations

  /** Each operation is about the hook in the same place, whose trampoline serves it; hooks may overlap and come
      again. */
  ghost predicate OpsServed(t: Tables, m: seq<Byte>, regions: seq<Region>, ops: seq<Operation>, hs: seq<Hook>)
    requires WellFormed(t)
  {
    && |ops| == |hs|
    && (|ops| > 0 ==>
          && ops[0].trampoline == hs[0].trampoline && ops[0].target == hs[0].target && Serves(t, m, regions, hs[0])
          && OpsServed(t, m, regions, ops[1..], hs[1..]))
  }

  /** What the operations write, in list order. */
  function WriteAll(c: seq<Byte>, ops: seq<Operation>, hs: seq<Hook>): (r: seq<Byte>)
    requires |ops| == |hs|
    ensures |r| == |c|
    decreases |ops|
  {
    if |ops| == 0 then c else WriteAll(if ops[0].isRemove then Off(c, hs[0]) else On(c, hs[0]), ops[1..], hs[1..])
  }

  lemma {:induction false} StillServed(t: Tables, m: seq<Byte>, head: Dword, regions: seq<Region>, h: Hook,
                                       bytes: seq<Byte>, ops: seq<Operation>, hs: seq<Hook>)
    requires WellFormed(t) && RegionList(m, head, regions) && WindowOutside(regions, h) && |bytes| == h.Size() > 0
    requires h.target + h.Size() <= |m| && OpsServed(t, m, regions, ops, hs)
    ensures OpsServed(t, Overwrite(m, h.target, bytes), regions, ops, hs)
    decreases |ops|
  {
    hide RegionList, WindowOutside, Serves, WellFormed, Overwrite;
    if |ops| > 0 {
      ServesWritten(t, m, head, regions, h, bytes, hs[0]);
      StillServed(t, m, head, regions, h, bytes, ops[1..], hs[1..]);
    }
  }

  /** One operation on known code writes the jump, or the saved code. */
  lemma ServedCarry(t: Tables, p: Progress, head: Dword, regions: seq<Region>, op: Operation, h: Hook, n: seq<Byte>)
    requires WellFormed(t) && RegionList(p.m, head, regions) && Serves(t, p.m, regions, h)
    requires op.trampoline == h.trampoline && op.target == h.target && n == if op.isRemove then Off(p.m, h)
               else On(p.m, h)
    ensures CanCarry(t, p.m, op) && CarryOne(t, p, op) == p.(m := n) && RegionList(n, head, regions)
    ensures 5 <= h.Size() && h.target + h.Size() <= |p.m| && WindowOutside(regions, h)
    ensures n == Overwrite(p.m, h.target, if op.isRemove then h.saved else Patch(h))
  {
    hide RegionList, WindowOutside, Serves, WellFormed, Overwrite, CanCarry, CarryOne, Patch, TrampolineOk, DwordAt;
    ServesParts(t, p.m, head, regions, h);
    CodeList(p.m, head, regions, h, if op.isRemove then h.saved else Patch(h));
    if op.isRemove {
      CarryRemove(t, p, op, h);
    } else {
      CarryAttach(t, p, op, h);
    }
  }

  /** On known code outside the pool, the first loop of a commit writes the jumps and the saved code in list order,
      without an error, however the hooks overlap; the lists of the pool stay sound. */
  lemma {:induction false} CarriedWrites(t: Tables, p: Progress, head: Dword, regions: seq<Region>, ops: seq<Operation>,
                                         hs: seq<Hook>)
    requires WellFormed(t) && RegionList(p.m, head, regions) && OpsServed(t, p.m, regions, ops, hs)
    ensures CanCarryAll(t, p, ops) && CarryAll(t, p, ops) == p.(m := WriteAll(p.m, ops, hs))
    ensures RegionList(CarryAll(t, p, ops).m, head, regions)
    decreases |ops|
  {
    hide RegionList, WindowOutside, Serves, WellFormed, Overwrite, CanCarry, CarryOne, CarryAll, CanCarryAll, Patch, On,
      Off;
    if |ops| > 0 {
      var op, h := ops[0], hs[0];
      var n := if op.isRemove then Off(p.m, h) else On(p.m, h);
      ServedCarry(t, p, head, regions, op, h, n);
      StillServed(t, p.m, head, regions, h, if op.isRemove then h.saved else Patch(h), ops[1..], hs[1..]);
      CarriedWrites(t, p.(m := n), head, regions, ops[1..], hs[1..]);
      CarryNext(t, p, ops);
    } else {
      assert ops == [] && hs == [];
      CarryNone(t, p);
    }
  }

  lemma {:induction false} OnlyAttaches(c: seq<Byte>, ops: seq<Operation>, hs: seq<Hook>)
    requires |ops| == |hs| && Removes(ops) == []
    ensures WriteAll(c, ops, hs) == OnAll(c, hs)
    decreases |ops|
  {
    hide On, Off;
    if |ops| > 0 {
      OnlyAttaches(On(c, hs[0]), ops[1..], hs[1..]);
    }
  }

  lemma NoRemoves(opA: Operation, opB: Operation)
    requires !opA.isRemove && !opB.isRemove
    ensures Removes([opB, opA]) == []
  {
    assert [opB, opA][1..] == [opA] && [opA][1..] == [];
    assert Removes([opA]) == [];
  }

  /** Two attaches to one function in one transaction, the second of them at the head of the list: both trampolines hold
      the original code, and the jump that stays is that of the first attach, which is written last. */
  lemma LastWrittenStays(t: Tables, p: Progress, head: Dword, regions: seq<Region>, opA: Operation, opB: Operation,
                         a: Hook, b: Hook)
    requires WellFormed(t) && RegionList(p.m, head, regions) && !opA.isRemove && !opB.isRemove
    requires OpsServed(t, p.m, regions, [opB, opA], [b, a]) && Together(p.m, [b, a])
    ensures CanCarryAll(t, p, [opB, opA]) && CarryAll(t, p, [opB, opA]).error == p.error
    ensures a.target + a.Size() <= |p.m| && 5 <= a.Size()
    ensures CarryAll(t, p, [opB, opA]).m[a.target..a.target + a.Size()] == Patch(a)
    ensures OffAll(CarryAll(t, p, [opB, opA]).m, [a, b]) == p.m && OffAll(CarryAll(t, p, [opB, opA]).m, [b, a]) == p.m
  {
    hide RegionList, WellFormed, OpsServed, CarryAll, CanCarryAll, Patch, On, Off, OnAll, OffAll, WriteAll, Together,
      LastOver;
    CarriedWrites(t, p, head, regions, [opB, opA], [b, a]);
    NoRemoves(opA, opB);
    OnlyAttaches(p.m, [opB, opA], [b, a]);
    TogetherRestores(p.m, [b, a], [b, a]);
    assert multiset([a, b]) == multiset([b, a]);
    TogetherRestores(p.m, [b, a], [a, b]);
    TogetherFit(p.m, [b, a]);
    FitsIn(p.m, [b, a], a);
    var r := OnAll(p.m, [b, a]);
    forall k | 0 <= k < a.Size()
      ensures r[a.target + k] == Patch(a)[k]
    {
      PairOver(b, a, a.target + k);
    }
  }

  // ---------------------------------------------------------------- hooking and unhooking

  /** The regions after `h` has been given its trampoline. */
  function Taking(regions: seq<Region>, grant: Dword, h: Hook): seq<Region>
  {
    AfterTake(Mapped(regions, h.target, grant), Mask(h.trampoline))
  }

  /** Attach and commit, on any known code outside the pool, hooked already or not: the jump goes over what is there,
      and every other hook keeps its trampoline. */
  method HookOnce(d: Detours, caller: int, pointer: int, detour: Dword, sys: Answers, ghost w: seq<Byte>,
                  ghost tail: seq<Byte>)
    returns (ok: bool, ghost h: Hook)
    requires d.Valid() && d.owner == 0 && caller != 0 && d.CanAttach(Some(pointer), detour, sys, w, tail)
    requires pointer in d.pointers && d.pointers[pointer] != 0 && AllKnown(d.tables, w)
    requires WindowOutside(d.pool.regions, Ahead(SkipJmp(d.mem[..], d.pointers[pointer], sys.targetImported), w, tail))
    modifies d, d.mem, d.pool
    ensures d.Valid() && d.owner == 0 && Covers(d.pool.regions, old(d.pool.regions), sys.grant)
    ensures h.target == SkipJmp(old(d.mem[..]), old(d.pointers)[pointer], sys.targetImported)
    ensures h.detour == SkipJmp(old(d.mem[..]), detour, sys.detourImported) && h.saved == w
    ensures TrampolineGiven(old(d.pool.regions), h.target, h.detour, sys, h.trampoline)
    ensures |tail| == 2 && ok == d.Succeeds(h.target, h.detour, sys, w, tail, h.trampoline)
    ensures ok ==> d.pool.regions == Taking(old(d.pool.regions), sys.grant, h)
    ensures OutsideKept(if ok then On(old(d.mem[..]), h) else old(d.mem[..]), d.mem[..], d.pool.regions)
    ensures d.pointers == if ok then old(d.pointers)[pointer := h.trampoline] else old(d.pointers)
    ensures ok ==> Serves(d.tables, d.mem[..], d.pool.regions, h) && !IsLive(old(d.pool.regions), h.trampoline)
    ensures ok ==>
              && Leads(d.tables, d.mem[..], h.target, h.detour)
              && Leads(d.tables, d.mem[..], h.trampoline + h.Size(), h.target + h.Size())
    ensures forall x: Dword ::
              IsLive(d.pool.regions, x) <==> IsLive(old(d.pool.regions), x) || (ok && x == h.trampoline)
    ensures forall g | Serves(d.tables, old(d.mem[..]), old(d.pool.regions), g) && GrantClear(sys.grant, g) ::
              Serves(d.tables, d.mem[..], d.pool.regions, g)
  {
    hide Sound, RegionList, DistinctBases, HasBase, WellFormed, Attachable, CanSkip, SkipJmp, Movable, TrampolineGiven,
      Taking, Covers, Detours.Valid, IsLive, Serves, WindowOutside, On, OutsideKept, AllKnown, GrantClear, Leads;
    Idle(d);
    ghost var m := d.mem[..];
    ok, h := HookAndCommit(d, caller, pointer, detour, sys, w, tail);
    if ok {
      ServedLeads(d.tables, m, d.mem[..], d.pool.regions, h);
    }
  }

  /** The transaction itself. */
  method HookAndCommit(d: Detours, caller: int, pointer: int, detour: Dword, sys: Answers, ghost w: seq<Byte>,
                       ghost tail: seq<Byte>)
    returns (ok: bool, ghost h: Hook)
    requires d.Valid() && d.owner == 0 && caller != 0 && d.CanAttach(Some(pointer), detour, sys, w, tail)
    requires pointer in d.pointers && d.pointers[pointer] != 0 && AllKnown(d.tables, w)
    requires WindowOutside(d.pool.regions, Ahead(SkipJmp(d.mem[..], d.pointers[pointer], sys.targetImported), w, tail))
    modifies d, d.mem, d.pool
    ensures d.Valid() && d.owner == 0 && Covers(d.pool.regions, old(d.pool.regions), sys.grant)
    ensures h.target == SkipJmp(old(d.mem[..]), old(d.pointers)[pointer], sys.targetImported)
    ensures h.detour == SkipJmp(old(d.mem[..]), detour, sys.detourImported) && h.saved == w
    ensures TrampolineGiven(old(d.pool.regions), h.target, h.detour, sys, h.trampoline)
    ensures |tail| == 2 && ok == d.Succeeds(h.target, h.detour, sys, w, tail, h.trampoline)
    ensures ok ==> d.pool.regions == Taking(old(d.pool.regions), sys.grant, h)
    ensures OutsideKept(if ok then On(old(d.mem[..]), h) else old(d.mem[..]), d.mem[..], d.pool.regions)
    ensures d.pointers == if ok then old(d.pointers)[pointer := h.trampoline] else old(d.pointers)
    ensures ok ==> Serves(d.tables, d.mem[..], d.pool.regions, h) && !IsLive(old(d.pool.regions), h.trampoline)
    ensures forall x: Dword ::
              IsLive(d.pool.regions, x) <==> IsLive(old(d.pool.regions), x) || (ok && x == h.trampoline)
    ensures forall g | Serves(d.tables, old(d.mem[..]), old(d.pool.regions), g) && GrantClear(sys.grant, g) ::
              Serves(d.tables, d.mem[..], d.pool.regions, g)
  {
    hide Sound, RegionList, DistinctBases, HasBase, WellFormed, OpsFound, DistinctOps, Attachable, CanSkip, SkipJmp,
      Movable, TrampolineGiven, Taking, Covers, Committed, Repointed, Matched, SinceBegin, Detours.Valid,
      Detours.CanCommit, Detours.LeavesLists, Detours.Carried, IsLive, Serves, WindowOutside, On, Overwrite,
      OutsideKept, AllKnown,
      TrampolineFor, TrampolineOk, GrantClear, ReturnedAll, FreeAll, Removes, Attaches, NoRepeats, Patch;
    Idle(d);
    ghost var m, regions, pointers := d.mem[..], d.pool.regions, d.pointers;
    AttachableParts(d.tables, m, regions, SkipJmp(m, pointers[pointer], sys.targetImported), w, tail, sys.grant);
    ok, h := AttachFirst(d, caller, pointer, detour, sys, w, tail);
    IsGrantClear(sys.grant, h, |tail|);
    ghost var more := d.Carried().m;
    AboutToHook(d, m, regions, pointer, sys.grant, h, ok, tail, more);
    NoneReturned(more, d.pool.regions, pointers);
    var r, where := d.Commit(caller);
  }

  /** A hook that has been put on leads to its detour, and its trampoline back behind the code. */
  lemma ServedLeads(t: Tables, m0: seq<Byte>, m: seq<Byte>, regions: seq<Region>, h: Hook)
    requires WellFormed(t) && Serves(t, m, regions, h) && OutsideKept(On(m0, h), m, regions)
    ensures Leads(t, m, h.target, h.detour) && Leads(t, m, h.trampoline + h.Size(), h.target + h.Size())
  {
    hide WellFormed, IsLive, InPool, Leads, Moved, Window, AllKnown, Jmp, Fill, DwordAt, Overwrite;
    BackLeads(t, m, h);
    OverwriteParts(m0, h.target, Patch(h));
    forall i | 0 <= i < h.Size()
      ensures m[h.target + i] == Patch(h)[i]
    {
      assert !InPool(regions, h.target + i);
      WriteAt(m0, h, Patch(h), h.target + i);
    }
    assert m[h.target..h.target + h.Size()] == Patch(h);
    HookLeads(t, m, h);
  }

  /** The first half of it: a transaction with one attach, or none. */
  method AttachFirst(d: Detours, caller: int, pointer: int, detour: Dword, sys: Answers, ghost w: seq<Byte>,
                     ghost tail: seq<Byte>)
    returns (ok: bool, ghost h: Hook)
    requires d.Valid() && d.owner == 0 && caller != 0 && d.CanAttach(Some(pointer), detour, sys, w, tail)
    requires pointer in d.pointers && d.pointers[pointer] != 0
    modifies d, d.mem, d.pool
    ensures d.Valid() && d.owner == caller && d.pointers == old(d.pointers)
    ensures Covers(d.pool.regions, old(d.pool.regions), sys.grant)
    ensures h.target == SkipJmp(old(d.mem[..]), old(d.pointers)[pointer], sys.targetImported)
    ensures h.detour == SkipJmp(old(d.mem[..]), detour, sys.detourImported) && h.saved == w
    ensures TrampolineGiven(old(d.pool.regions), h.target, h.detour, sys, h.trampoline)
    ensures |tail| == 2 && ok == d.Succeeds(h.target, h.detour, sys, w, tail, h.trampoline)
    ensures ok ==> d.pool.regions == Taking(old(d.pool.regions), sys.grant, h)
    ensures SinceBegin(old(d.mem[..]), old(d.pool.regions), d.mem[..], d.pool.regions, d.operations)
    ensures d.operations == if ok then [Operation(false, pointer, h.target, h.trampoline)] else []
    ensures ok ==>
              && d.error == NO_ERROR && h.trampoline + 32 <= d.mem.Length
              && TrampolineFor(d.tables, d.mem[h.trampoline..h.trampoline + 32], h)
  {
    hide Sound, RegionList, DistinctBases, HasBase, WellFormed, OpsFound, DistinctOps, Attachable, CanSkip, SkipJmp,
      Movable, TrampolineGiven, AfterTake, Mapped, Mask, Covers, Matched, SinceBegin, Detours.Valid, IsLive,
      TrampolineFor, GrantClear, Detours.Succeeds, Detours.Verdict, Detours.Orderly, Detours.Tidy;
    Idle(d);
    ghost var m, regions, pointers := d.mem[..], d.pool.regions, d.pointers;
    var r := d.Begin(caller);
    ghost var a;
    r, a := d.Attach(caller, Some(pointer), detour, sys, w, tail);
    h := Hook(a, SkipJmp(m, pointers[pointer], sys.targetImported), w, SkipJmp(m, detour, sys.detourImported), false);
    ok := d.operations != [];
    assert d.operations == if ok then [Operation(false, pointer, h.target, a)] else [];
  }

  /** What committing an attach, or none, will do. */
  lemma AboutToHook(d: Detours, m: seq<Byte>, regions: seq<Region>, pointer: int, grant: Dword, h: Hook, ok: bool,
                    tail: seq<Byte>, n: seq<Byte>)
    requires d.Valid() && SinceBegin(m, regions, d.mem[..], d.pool.regions, d.operations)
    requires Covers(d.pool.regions, regions, grant) && n == d.Carried().m
    requires d.operations == if ok then [Operation(false, pointer, h.target, h.trampoline)] else []
    requires ok ==>
               && h.trampoline + 32 <= d.mem.Length && AllKnown(d.tables, h.saved) && GrantClear(grant, h)
               && TrampolineFor(d.tables, d.mem[h.trampoline..h.trampoline + 32], h)
               && WindowOutside(regions, Ahead(h.target, h.saved, tail)) && h.target + h.Size() <= d.mem.Length
    ensures d.CanCommit() && d.LeavesLists() && d.Carried() == Progress(n, d.error, d.failed)
    ensures Removes(d.operations) == [] && NoRepeats(Removes(d.operations)) && (!ok ==> n == d.mem[..])
    ensures !ok ==> Attaches(d.operations) == []
    ensures OutsideKept(if ok then On(m, h) else m, n, d.pool.regions)
    ensures ok ==> Serves(d.tables, n, d.pool.regions, h) && !IsLive(regions, h.trampoline)
    ensures forall x: Dword :: IsLive(d.pool.regions, x) <==> IsLive(regions, x) || (ok && x == h.trampoline)
    ensures forall g | Serves(d.tables, m, regions, g) && GrantClear(grant, g) :: Serves(d.tables, n, d.pool.regions, g)
    ensures Repointed(d.pointers, d.operations) == if ok then d.pointers[pointer := h.trampoline] else d.pointers
  {
    hide RegionList, DistinctBases, HasBase, WellFormed, Covers, Repointed, SinceBegin, Detours.Valid,
      Detours.CanCommit, Detours.LeavesLists, Detours.Carried, IsLive, Serves, WindowOutside, On, Overwrite,
      OutsideKept, AllKnown, TrampolineFor, TrampolineOk, GrantClear, Removes, Attaches, NoRepeats, Patch;
    PoolOf(d);
    var m1, r1, ops := d.mem[..], d.pool.regions, d.operations;
    if ok {
      NewServes(d.tables, m, regions, m1, r1, grant, h, ops[0], tail);
      AttachCommits(d, h, ops[0]);
      HookWritten(d.tables, m, regions, m1, d.pool.head, r1, ops, h, n);
      OneRepointed(d.pointers, ops[0]);
    } else {
      NothingCommits(d);
      SinceSizes(m, regions, m1, r1, []);
      NoneReturned(n, r1, d.pointers);
    }
    OthersServe(d.tables, m, regions, m1, d.pool.head, r1, ops, grant, h, n);
    LiveNow(m, regions, m1, r1, ops, ok, h.trampoline);
  }

  lemma LiveNow(m0: seq<Byte>, r0: seq<Region>, m: seq<Byte>, regions: seq<Region>, ops: seq<Operation>, ok: bool,
                a: Dword)
    requires SinceBegin(m0, r0, m, regions, ops)
    requires if ok then |ops| == 1 && !ops[0].isRemove && ops[0].trampoline == a else ops == []
    ensures forall x: Dword :: IsLive(regions, x) <==> IsLive(r0, x) || (ok && x == a)
  {
    hide IsLive, OutsideKept;
    assert ok ==> ops[1..] == [];
    assert forall x: Dword :: Attached(ops, x) <==> ok && x == a;
  }

  lemma IsGrantClear(grant: Dword, h: Hook, n: nat)
    requires grant != 0 ==> h.target + h.Size() + n <= grant || grant + 0x1_0000 <= h.target
    ensures GrantClear(grant, h)
  {
  }

  lemma PoolOf(d: Detours)
    requires d.Valid()
    ensures RegionList(d.mem[..], d.pool.head, d.pool.regions) && DistinctBases(d.pool.regions) && d.pool.mem == d.mem
    ensures WellFormed(d.tables)
  {
    hide RegionList, DistinctBases, HasBase, WellFormed, SinceBegin, Balanced;
  }

  /** Detach and commit, in any order: what the attach had found is written back, whatever is there now, and every other
      hook keeps its trampoline. */
  method UnhookOnce(d: Detours, caller: int, pointer: int, detour: Dword, ghost h: Hook)
    requires d.Valid() && d.owner == 0 && caller != 0 && Serves(d.tables, d.mem[..], d.pool.regions, h)
    requires pointer in d.pointers && d.pointers[pointer] == h.trampoline != 0
    requires CanSkip(d.mem[..], detour, false) && SkipJmp(d.mem[..], detour, false) == h.detour
    modifies d, d.mem, d.pool
    ensures d.Valid() && d.owner == 0 && Covers(d.pool.regions, old(d.pool.regions), 0)
    ensures OutsideKept(Off(old(d.mem[..]), h), d.mem[..], d.pool.regions)
    ensures d.pointers == old(d.pointers)[pointer := h.target]
    ensures d.pool.regions == AfterFree(old(d.pool.regions), h.trampoline)
    ensures forall x: Dword :: IsLive(d.pool.regions, x) <==> IsLive(old(d.pool.regions), x) && x != h.trampoline
    ensures forall g | Serves(d.tables, old(d.mem[..]), old(d.pool.regions), g) && g.trampoline != h.trampoline ::
              Serves(d.tables, d.mem[..], d.pool.regions, g)
  {
    hide Sound, RegionList, DistinctBases, HasBase, WellFormed, OpsFound, DistinctOps, CanSkip, SkipJmp, Covers,
      Committed, Repointed, Matched, SinceBegin, Detours.Valid, Detours.CanCommit, Detours.LeavesLists, Detours.Carried,
      IsLive, Serves, WindowOutside, Off, Overwrite, OutsideKept, TrampolineFor, TrampolineOk, ReturnedAll, FreeAll,
      Removes, Attaches, NoRepeats, DwordAt, GivenBack, AfterFree;
    Idle(d);
    PoolOf(d);
    ghost var m, regions, pointers, head := d.mem[..], d.pool.regions, d.pointers, d.pool.head;
    ServesParts(d.tables, m, head, regions, h);
    var r := d.Begin(caller);
    r := d.Detach(caller, Some(pointer), detour, false, true, true, 0);
    ghost var ops := d.operations;
    assert ops == [Operation(true, pointer, h.target, h.trampoline)];
    DetachCommits(d, h, ops[0]);
    OneRepointed(pointers, ops[0]);
    ghost var more := Overwrite(m, h.target, h.saved);
    OneReturned(more, regions, h.trampoline);
    Unhooked(d.tables, m, head, regions, h, more);
    var where;
    r, where := d.Commit(caller);
  }

  /** The saved code of `h` has been written back, and its trampoline returned. */
  lemma Unhooked(t: Tables, m: seq<Byte>, head: Dword, regions: seq<Region>, h: Hook, n: seq<Byte>)
    requires WellFormed(t) && RegionList(m, head, regions) && DistinctBases(regions) && Serves(t, m, regions, h)
    requires 5 <= h.Size() && h.target + h.Size() <= |m| && n == Overwrite(m, h.target, h.saved)
    ensures OutsideKept(Off(m, h), GivenBack(n, h.trampoline), AfterFree(regions, h.trampoline))
    ensures Covers(AfterFree(regions, h.trampoline), regions, 0)
    ensures forall x: Dword :: IsLive(AfterFree(regions, h.trampoline), x) <==> IsLive(regions, x) && x != h.trampoline
    ensures forall g | Serves(t, m, regions, g) && g.trampoline != h.trampoline ::
              Serves(t, GivenBack(n, h.trampoline), AfterFree(regions, h.trampoline), g)
  {
    hide RegionList, DistinctBases, WellFormed, Serves, Overwrite, WindowOutside, IsLive, GivenBack, AfterFree,
      Returned, Mask, Inside, OutsideKept, InPool;
    ServesParts(t, m, head, regions, h);
    CodeList(m, head, regions, h, h.saved);
    FreeMeaning(n, head, regions, h.trampoline, h.trampoline);
    GivenBackIs(n, h.trampoline);
    CoversFree(regions, h.trampoline);
    FreeInPool(regions, h.trampoline);
    OutsideSame(n, GivenBack(n, h.trampoline), regions, AfterFree(regions, h.trampoline));
    forall x: Dword
      ensures IsLive(AfterFree(regions, h.trampoline), x) <==> IsLive(regions, x) && x != h.trampoline
    {
      FreeMeaning(n, head, regions, h.trampoline, x);
    }
    forall g | Serves(t, m, regions, g) && g.trampoline != h.trampoline
      ensures Serves(t, GivenBack(n, h.trampoline), AfterFree(regions, h.trampoline), g)
    {
      ServesWritten(t, m, head, regions, h, h.saved, g);
      ServesFreed(t, n, head, regions, h.trampoline, g);
    }
  }

  // ---------------------------------------------------------------- two hooks on one function

  /** What is kept outside the pool, after one more write. */
  lemma KeptOn(m0: seq<Byte>, m: seq<Byte>, regions: seq<Region>, h: Hook, n: seq<Byte>, after: seq<Region>)
    requires OutsideKept(m0, m, regions) && OutsideKept(On(m, h), n, after) && forall i: int :: InPool(regions, i) ==>
               InPool(after, i)
    ensures OutsideKept(On(m0, h), n, after)
  {
    hide InPool, Patch, Overwrite;
    forall i | 0 <= i < |n| && !InPool(after, i)
      ensures n[i] == On(m0, h)[i]
    {
      assert !InPool(regions, i);
      if Fits(m, h) {
        WriteAt(m, h, Patch(h), i);
        WriteAt(m0, h, Patch(h), i);
      }
    }
  }

  lemma KeptOff(m0: seq<Byte>, m: seq<Byte>, regions: seq<Region>, h: Hook, n: seq<Byte>, after: seq<Region>)
    requires OutsideKept(m0, m, regions) && OutsideKept(Off(m, h), n, after) && forall i: int :: InPool(regions, i) ==>
               InPool(after, i)
    ensures OutsideKept(Off(m0, h), n, after)
  {
    hide InPool, Overwrite;
    forall i | 0 <= i < |n| && !InPool(after, i)
      ensures n[i] == Off(m0, h)[i]
    {
      assert !InPool(regions, i);
      if Fits(m, h) {
        WriteAt(m, h, h.saved, i);
        WriteAt(m0, h, h.saved, i);
      }
    }
  }

  /** A long jump is a window of its own, of a known opcode. */
  lemma JumpWindow(t: Tables, at: Dword, to: Dword)
    requires WellFormed(t) && KnowsJumps(t)
    ensures Window(t, Jmp(at, to), 0) && AllKnown(t, Jmp(at, to))
  {
    hide WellFormed, Window, AllKnown, DwordBytes;
    var code := Jmp(at, to);
    assert First(t, code) == Some(Shape(5, 1, 4, false, Relative, true));
    assert code[5..] == [];
    NextWindow(t, [], 5);
    NextWindow(t, code, 0);
    NothingUnknown(t, []);
    KnownStep(t, code);
  }

  /** The code of a long jump is moved as a whole, wherever it goes. */
  lemma JumpMovable(t: Tables, at: Dword, to: Dword, tail: seq<Byte>)
    requires WellFormed(t) && KnowsJumps(t) && |tail| == 2
    ensures forall delta: int :: Movable(t, Jmp(at, to), tail, delta, 0) == 5
  {
    hide WellFormed, DwordBytes;
    forall delta: int
      ensures Movable(t, Jmp(at, to), tail, delta, 0) == 5
    {
      var code := Jmp(at, to);
      assert First(t, code) == Some(Shape(5, 1, 4, false, Relative, true));
      assert (code + tail)[0] == 0xe9;
      MovableStep(t, code, tail, delta, 0, Shape(5, 1, 4, false, Relative, true));
    }
  }

  lemma GivenOr(regions: seq<Region>, target: Dword, detour: Dword, sys: Answers, a: Dword)
    requires TrampolineGiven(regions, target, detour, sys, a)
    ensures a != 0 ==> target != detour && sys.newOk
  {
    hide IsLive, InReach, HasRoom;
  }

  lemma GivenWhen(regions: seq<Region>, target: Dword, detour: Dword, sys: Answers, a: Dword)
    requires TrampolineGiven(regions, target, detour, sys, a) && target != detour && sys.grant == 0
    ensures a != 0 <==> sys.newOk && HasRoom(regions, target, 0)
  {
    hide IsLive, InReach, HasRoom;
  }

  lemma NotAtTarget(m: seq<Byte>, regions: seq<Region>, detour: Dword, lo: nat, hi: nat)
    requires Aside(m, regions, 0, detour, lo, hi) && lo < hi
    ensures detour != lo
  {
    hide InPool;
  }

  /** The code of a detour is out of the way of hooks at `lo` to `hi`, of the pool, and of a new region. */
  ghost predicate Aside(m: seq<Byte>, regions: seq<Region>, grant: Dword, detour: Dword, lo: nat, hi: nat)
  {
    && detour != 0 && detour + 6 <= |m| && m[detour] != 0xeb && !InPool(regions, detour)
    && (detour < lo || hi <= detour)
    && (grant != 0 ==> detour < grant || grant + 0x1_0000 <= detour)
  }

  lemma AsideSkips(m: seq<Byte>, regions: seq<Region>, grant: Dword, detour: Dword, lo: nat, hi: nat)
    requires Aside(m, regions, grant, detour, lo, hi)
    ensures CanSkip(m, detour, false) && SkipJmp(m, detour, false) == detour
  {
    hide InPool;
  }

  lemma StillAside(m0: seq<Byte>, r0: seq<Region>, grant: Dword, m: seq<Byte>, regions: seq<Region>, h: Hook,
                   detour: Dword, lo: nat, hi: nat, on: bool)
    requires Aside(m0, r0, grant, detour, lo, hi) && Covers(regions, r0, grant) && lo <= h.target
    requires h.target + h.Size() <= hi
    requires OutsideKept(if on then On(m0, h) else Off(m0, h), m, regions)
    ensures Aside(m, regions, 0, detour, lo, hi)
  {
    hide InPool, Patch, Overwrite;
    if Fits(m0, h) {
      WriteAt(m0, h, if on then Patch(h) else h.saved, detour);
    }
  }

  /** The jump of the first hook can be hooked like any code. */
  lemma SecondAttach(d: Detours, q: int, target: Dword, detour: Dword, sys: Answers, to: Dword, w: seq<Byte>,
                     tail: seq<Byte>)
    requires d.Valid() && KnowsJumps(d.tables) && q in d.pointers && d.pointers[q] == target != 0
    requires target + 5 < 0x1_0000_0000
    requires w == Jmp(target, to) && |tail| == 2 && target + 7 <= d.mem.Length
    requires d.mem[..][target..target + 7] == w + tail
    requires WindowOutside(d.pool.regions, Ahead(target, w, tail)) && CanSkip(d.mem[..], detour, false)
    requires !sys.targetImported && !sys.detourImported && sys.grant == 0
    ensures d.CanAttach(Some(q), detour, sys, w, tail) && SkipJmp(d.mem[..], target, false) == target
    ensures AllKnown(d.tables, w)
  {
    hide RegionList, DistinctBases, HasBase, WellFormed, SinceBegin, DistinctAttaches, Balanced, Jmp, Window, AllKnown,
      InPool, IsLive;
    JumpWindow(d.tables, target, to);
    StartsWithE9(target, to);
    var m := d.mem[..];
    assert m[target] == m[target..target + 7][0] == 0xe9;
    forall i: int | target <= i < target + 7
      ensures !InPool(d.pool.regions, i)
    {
    }
  }

  /** The window of a first hook, where a second one will go: its jump and two bytes after it. */
  lemma JumpThere(m0: seq<Byte>, m: seq<Byte>, before: seq<Region>, regions: seq<Region>, grant: Dword, h: Hook,
                  tail: seq<Byte>)
    requires Fits(m0, h) && |tail| == 2 && h.target + h.Size() + 2 <= |m0| && OutsideKept(On(m0, h), m, regions)
    requires WindowOutside(before, Ahead(h.target, h.saved, tail)) && Covers(regions, before, grant)
    requires grant != 0 ==> h.target + h.Size() + 2 <= grant || grant + 0x1_0000 <= h.target
    ensures forall i | h.target <= i < h.target + 7 :: !InPool(regions, i)
    ensures m[h.target..h.target + 5] == Jmp(h.target, h.detour)
  {
    hide InPool, Jmp, Overwrite, Brks;
    forall i | h.target <= i < h.target + 7
      ensures !InPool(regions, i)
    {
      assert !InPool(before, i);
    }
    forall k | 0 <= k < 5
      ensures m[h.target + k] == Jmp(h.target, h.detour)[k]
    {
      WriteAt(m0, h, Patch(h), h.target + k);
      assert !InPool(regions, h.target + k);
    }
  }

  /** What two hooks that are taken back in the order in which they came leave outside the pool. */
  lemma StaleIn(m0: seq<Byte>, m: seq<Byte>, regions: seq<Region>, a: Hook, b: Hook)
    requires Stacked(m0, [a, b]) && a != b && a.target == b.target && b.Size() == 5
    requires OutsideKept(OffAll(OnAll(m0, [a, b]), [a, b]), m, regions)
    requires forall i | a.target <= i < a.target + 5 :: !InPool(regions, i)
    ensures a.target + 5 <= |m| && m[a.target..a.target + 5] == Jmp(a.target, a.detour)
  {
    hide InPool, Jmp, Stacked, OnAll, OffAll, Brks;
    StackedFit(m0, [a, b]);
    FitsIn(m0, [a, b], a);
    forall k | 0 <= k < 5
      ensures m[a.target + k] == Jmp(a.target, a.detour)[k]
    {
      assert !InPool(regions, a.target + k);
      FirstJumpAt(m0, a, b, a.target + k);
    }
  }

  lemma TwoSteps(c: seq<Byte>, a: Hook, b: Hook)
    ensures OnAll(c, [a, b]) == On(On(c, a), b) && OffAll(c, [a, b]) == Off(Off(c, a), b)
  {
    hide On, Off;
    assert [a, b][1..] == [b] && [b][1..] == [];
    assert OnAll(On(c, a), [b]) == On(On(c, a), b) && OffAll(Off(c, a), [b]) == Off(Off(c, a), b);
  }

  lemma TwoStacked(c: seq<Byte>, a: Hook, b: Hook)
    requires Fits(c, a) && Fits(c, b) && c[a.target..a.target + a.Size()] == a.saved
    requires On(c, a)[b.target..b.target + b.Size()] == b.saved
    ensures Stacked(c, [a, b])
  {
    hide On;
    assert [a, b][1..] == [b] && [b][1..] == [];
    assert Stacked(On(c, a), [b]);
  }

  /** Two hooks on one function, through two pointers that lead to it: the second one saves the jump of the first. */
  method HookBoth(d: Detours, caller: int, p: int, q: int, detourA: Dword, detourB: Dword, sysA: Answers, sysB: Answers,
                  ghost w: seq<Byte>, ghost tail: seq<Byte>) returns (ok: bool, ghost a: Hook, ghost b: Hook)
    requires CanHookBoth(d, p, q, detourA, detourB, sysA, sysB, w, tail) && caller != 0
    modifies d, d.mem, d.pool
    ensures d.Valid() && d.owner == 0
    ensures |tail| == 2 && TrampolineGiven(old(d.pool.regions), a.target, detourA, sysA, a.trampoline)
    ensures a.target == old(d.pointers)[p]
    ensures ok <==>
              && d.Succeeds(a.target, detourA, sysA, w, tail, a.trampoline) && sysB.newOk && sysB.protectOk
              && HasRoom(Taking(old(d.pool.regions), sysA.grant, a), a.target, 0)
    ensures ok ==>
              && a.target == b.target == old(d.pointers)[p] && a.saved == w && b.saved == Jmp(a.target, a.detour)
              && a.detour == detourA && b.detour == detourB && a.trampoline != b.trampoline
              && d.pointers == old(d.pointers)[p := a.trampoline][q := b.trampoline]
              && Serves(d.tables, d.mem[..], d.pool.regions, a) && Serves(d.tables, d.mem[..], d.pool.regions, b)
              && Stacked(old(d.mem[..]), [a, b])
              && OutsideKept(OnAll(old(d.mem[..]), [a, b]), d.mem[..], d.pool.regions)
              && Aside(d.mem[..], d.pool.regions, 0, detourA, a.target, a.target + |w|)
              && Aside(d.mem[..], d.pool.regions, 0, detourB, a.target, a.target + |w|)
  {
    hide Leads, TrampolineGiven, Taking, HasRoom, Sound, RegionList, DistinctBases, HasBase, WellFormed, Attachable,
      CanSkip, SkipJmp, Movable, Covers, Detours.Valid, IsLive, Serves, WindowOutside, OutsideKept, AllKnown, Patch,
      Overwrite, Jmp, Brks, Aside, Stacked, On, Off, OnAll, InPool, KnowsJumps, Fits;
    ghost var m0 := d.mem[..];
    ok, a := HookFirst(d, caller, p, q, detourA, detourB, sysA, sysB, w, tail);
    b := a;
    if !ok {
      return;
    }
    ghost var m1, r1 := d.mem[..], d.pool.regions;
    NotAtTarget(m1, r1, detourB, a.target, a.target + |w|);
    ok, b := HookJump(d, caller, q, detourB, sysB, a);
    GivenWhen(r1, a.target, detourB, sysB, b.trampoline);
    if !ok {
      return;
    }
    BothAside(m1, r1, 0, d.mem[..], d.pool.regions, b, detourA, detourB, a.target, a.target + |w|);
    BothWritten(m0, a, m1, r1, b, d.mem[..], d.pool.regions);
  }

  /** The first of two hooks: its jump can be hooked in turn. */
  method HookFirst(d: Detours, caller: int, p: int, q: int, detourA: Dword, detourB: Dword, sysA: Answers,
                   sysB: Answers, ghost w: seq<Byte>, ghost tail: seq<Byte>) returns (ok: bool, ghost a: Hook)
    requires CanHookBoth(d, p, q, detourA, detourB, sysA, sysB, w, tail) && caller != 0
    modifies d, d.mem, d.pool
    ensures d.Valid() && d.owner == 0
    ensures |tail| == 2 && TrampolineGiven(old(d.pool.regions), a.target, detourA, sysA, a.trampoline)
    ensures a.target == old(d.pointers)[p]
    ensures ok == d.Succeeds(a.target, detourA, sysA, w, tail, a.trampoline)
    ensures ok ==> d.pool.regions == Taking(old(d.pool.regions), sysA.grant, a)
    ensures ok ==>
              && a.target == old(d.pointers)[p] && a.saved == w && a.detour == detourA && 5 <= |w|
              && d.pointers == old(d.pointers)[p := a.trampoline] && Serves(d.tables, d.mem[..], d.pool.regions, a)
              && Fits(old(d.mem[..]), a) && old(d.mem[..])[a.target..a.target + |w|] == w
              && OutsideKept(On(old(d.mem[..]), a), d.mem[..], d.pool.regions)
              && a.target + 7 <= d.mem.Length && a.target + 5 < 0x1_0000_0000
              && d.mem[a.target..a.target + 5] == Jmp(a.target, detourA)
              && (forall i | a.target <= i < a.target + 7 :: !InPool(d.pool.regions, i))
              && Aside(d.mem[..], d.pool.regions, 0, detourA, a.target, a.target + |w|)
              && Aside(d.mem[..], d.pool.regions, 0, detourB, a.target, a.target + |w|)
              && CanSkip(d.mem[..], detourB, false) && SkipJmp(d.mem[..], detourB, false) == detourB
  {
    hide Leads, TrampolineGiven, Taking, HasRoom, Sound, RegionList, DistinctBases, HasBase, WellFormed, Attachable,
      CanSkip, SkipJmp, Movable, Covers, Detours.Valid, IsLive, Serves, WindowOutside, OutsideKept, AllKnown, Patch,
      Overwrite, Jmp, Brks, Aside, Stacked, On, Off, OnAll, InPool, KnowsJumps;
    Idle(d);
    ghost var m0, r0 := d.mem[..], d.pool.regions;
    var target := d.pointers[p];
    AttachableParts(d.tables, m0, r0, target, w, tail, sysA.grant);
    AsideSkips(m0, r0, sysA.grant, detourA, target, target + |w|);
    ok, a := HookAndCommit(d, caller, p, detourA, sysA, w, tail);
    if !ok {
      return;
    }
    PoolOf(d);
    ghost var m1, r1 := d.mem[..], d.pool.regions;
    ServesParts(d.tables, m1, d.pool.head, r1, a);
    SizeKept(On(m0, a), m1, r1);
    FitsHere(m0, a);
    JumpThere(m0, m1, r0, r1, sysA.grant, a, tail);
    BothAside(m0, r0, sysA.grant, m1, r1, a, detourA, detourB, target, target + |w|);
    FrontOf(m0, target, w, tail);
  }

  lemma BothAside(m0: seq<Byte>, r0: seq<Region>, grant: Dword, m: seq<Byte>, regions: seq<Region>, h: Hook,
                  detourA: Dword, detourB: Dword, lo: nat, hi: nat)
    requires Aside(m0, r0, grant, detourA, lo, hi) && Aside(m0, r0, grant, detourB, lo, hi)
    requires Covers(regions, r0, grant)
    requires lo <= h.target && h.target + h.Size() <= hi && OutsideKept(On(m0, h), m, regions)
    ensures Aside(m, regions, 0, detourA, lo, hi) && Aside(m, regions, 0, detourB, lo, hi)
    ensures CanSkip(m, detourB, false) && SkipJmp(m, detourB, false) == detourB
  {
    hide Aside, OutsideKept, On, Covers, CanSkip, SkipJmp;
    StillAside(m0, r0, grant, m, regions, h, detourA, lo, hi, true);
    StillAside(m0, r0, grant, m, regions, h, detourB, lo, hi, true);
    AsideSkips(m, regions, 0, detourB, lo, hi);
  }

  lemma FrontOf(m: seq<Byte>, at: nat, w: seq<Byte>, tail: seq<Byte>)
    requires at + |w| + |tail| <= |m| && m[at..at + |w| + |tail|] == w + tail
    ensures m[at..at + |w|] == w
  {
    assert m[at..at + |w|] == m[at..at + |w| + |tail|][..|w|];
  }

  /** A hook on the jump of the hook `a`. */
  method HookJump(d: Detours, caller: int, q: int, detour: Dword, sys: Answers, ghost a: Hook)
    returns (ok: bool, ghost b: Hook)
    requires d.Valid() && d.owner == 0 && caller != 0 && KnowsJumps(d.tables) && q in d.pointers
    requires d.pointers[q] == a.target != 0
    requires !sys.targetImported && !sys.detourImported && sys.grant == 0 && CanSkip(d.mem[..], detour, false)
    requires SkipJmp(d.mem[..], detour, false) == detour && Serves(d.tables, d.mem[..], d.pool.regions, a)
    requires a.target + 7 <= d.mem.Length && a.target + 5 < 0x1_0000_0000
    requires d.mem[a.target..a.target + 5] == Jmp(a.target, a.detour)
    requires forall i | a.target <= i < a.target + 7 :: !InPool(d.pool.regions, i)
    modifies d, d.mem, d.pool
    ensures d.Valid() && d.owner == 0 && Covers(d.pool.regions, old(d.pool.regions), 0)
    ensures TrampolineGiven(old(d.pool.regions), a.target, detour, sys, b.trampoline)
    ensures ok == (b.trampoline != 0 && sys.protectOk)
    ensures ok ==>
              && b.target == a.target && b.detour == detour && b.saved == Jmp(a.target, a.detour)
              && b.trampoline != a.trampoline
              && OutsideKept(On(old(d.mem[..]), b), d.mem[..], d.pool.regions)
              && d.pointers == old(d.pointers)[q := b.trampoline]
              && Serves(d.tables, d.mem[..], d.pool.regions, a) && Serves(d.tables, d.mem[..], d.pool.regions, b)
  {
    hide Leads, TrampolineGiven, Taking, HasRoom, Sound, RegionList, DistinctBases, HasBase, WellFormed, Attachable,
      CanSkip, SkipJmp, Movable, Covers, Detours.Valid, IsLive, Serves, WindowOutside, OutsideKept, AllKnown, Patch,
      Overwrite, Jmp, On, InPool, KnowsJumps;
    Idle(d);
    PoolOf(d);
    ghost var m, regions, target := d.mem[..], d.pool.regions, a.target;
    ghost var jump, after := Jmp(target, a.detour), m[target + 5..target + 7];
    JumpOutside(regions, target, jump, after);
    assert m[target..target + 7] == jump + after;
    SecondAttach(d, q, target, detour, sys, a.detour, jump, after);
    JumpMovable(d.tables, target, a.detour, after);
    ServesParts(d.tables, m, d.pool.head, regions, a);
    IsGrantClear(0, a, 0);
    ok, b := HookAndCommit(d, caller, q, detour, sys, jump, after);
    GivenOr(regions, target, detour, sys, b.trampoline);
    assert IsLive(regions, a.trampoline);
  }

  /** What two hooks on one function need: its code is known and plain, and the code of both detours lies aside. */
  ghost predicate CanHookBoth(d: Detours, p: int, q: int, detourA: Dword, detourB: Dword, sysA: Answers, sysB: Answers,
                              w: seq<Byte>, tail: seq<Byte>)
    reads d, d.mem, d.pool
  {
    && d.Valid() && d.owner == 0 && KnowsJumps(d.tables) && d.CanAttach(Some(p), detourA, sysA, w, tail)
    && p != q && p in d.pointers && q in d.pointers && d.pointers[p] == d.pointers[q] != 0
    && !sysA.targetImported && !sysA.detourImported && !sysB.targetImported && !sysB.detourImported && sysB.grant == 0
    && SkipJmp(d.mem[..], d.pointers[p], false) == d.pointers[p] && AllKnown(d.tables, w)
    && WindowOutside(d.pool.regions, Ahead(d.pointers[p], w, tail))
    && Aside(d.mem[..], d.pool.regions, sysA.grant, detourA, d.pointers[p], d.pointers[p] + |w|)
    && Aside(d.mem[..], d.pool.regions, sysA.grant, detourB, d.pointers[p], d.pointers[p] + |w|)
  }

  lemma SizeKept(m0: seq<Byte>, m: seq<Byte>, regions: seq<Region>)
    requires OutsideKept(m0, m, regions)
    ensures |m| == |m0|
  {
  }

  lemma FitsHere(m: seq<Byte>, h: Hook)
    requires 5 <= h.Size() && h.target + h.Size() <= |m|
    ensures Fits(m, h)
  {
  }

  lemma JumpOutside(regions: seq<Region>, target: Dword, w: seq<Byte>, tail: seq<Byte>)
    requires |w| == 5 && |tail| == 2 && forall i | target <= i < target + 7 :: !InPool(regions, i)
    ensures WindowOutside(regions, Ahead(target, w, tail))
  {
    hide InPool;
  }

  /** The second hook has saved the jump of the first. */
  lemma BothWritten(m0: seq<Byte>, a: Hook, m1: seq<Byte>, r1: seq<Region>, b: Hook, m2: seq<Byte>, r2: seq<Region>)
    requires OutsideKept(On(m0, a), m1, r1) && OutsideKept(On(m1, b), m2, r2) && Covers(r2, r1, 0) && Fits(m0, a)
    requires m0[a.target..a.target + a.Size()] == a.saved && b.target == a.target && b.saved == Jmp(a.target, a.detour)
    ensures Stacked(m0, [a, b]) && OutsideKept(OnAll(m0, [a, b]), m2, r2)
  {
    hide OutsideKept, InPool, Jmp, Overwrite;
    SizeKept(On(m0, a), m1, r1);
    KeptOn(On(m0, a), m1, r1, b, m2, r2);
    TwoSteps(m0, a, b);
    PatchStart(m0, a);
    TwoStacked(m0, a, b);
  }

  lemma PatchStart(c: seq<Byte>, h: Hook)
    requires Fits(c, h)
    ensures On(c, h)[h.target..h.target + 5] == Jmp(h.target, h.detour)
  {
    hide Jmp, Brks;
    OverwriteParts(c, h.target, Patch(h));
    assert On(c, h)[h.target..h.target + 5] == On(c, h)[h.target..h.target + h.Size()][..5];
  }

  /** Two hooks on one function, taken back in the order in which they came: everything succeeds, no trampoline is left,
      and the function still jumps to the detour of the first hook. */
  method HookTwice(d: Detours, caller: int, p: int, q: int, detourA: Dword, detourB: Dword, sysA: Answers,
                   sysB: Answers, ghost w: seq<Byte>, ghost tail: seq<Byte>)
    returns (ok: bool, ghost a: Hook, ghost b: Hook)
    requires CanHookBoth(d, p, q, detourA, detourB, sysA, sysB, w, tail) && caller != 0
    modifies d, d.mem, d.pool
    ensures d.Valid() && d.owner == 0
    ensures |tail| == 2 && TrampolineGiven(old(d.pool.regions), a.target, detourA, sysA, a.trampoline)
    ensures a.target == old(d.pointers)[p]
    ensures ok <==>
              && d.Succeeds(a.target, detourA, sysA, w, tail, a.trampoline) && sysB.newOk && sysB.protectOk
              && HasRoom(Taking(old(d.pool.regions), sysA.grant, a), a.target, 0)
    ensures ok ==>
              && a.target == b.target == old(d.pointers)[p] && d.pointers == old(d.pointers)
              && !IsLive(d.pool.regions, a.trampoline) && !IsLive(d.pool.regions, b.trampoline)
              && Stacked(old(d.mem[..]), [a, b])
              && OutsideKept(OffAll(OnAll(old(d.mem[..]), [a, b]), [a, b]), d.mem[..], d.pool.regions)
              && a.target + 5 <= d.mem.Length && d.mem[a.target..a.target + 5] == Jmp(a.target, detourA)
              && Leads(d.tables, d.mem[..], a.target, detourA)
  {
    hide Leads, TrampolineGiven, Taking, HasRoom, Sound, RegionList, DistinctBases, HasBase, WellFormed, Attachable,
      CanSkip, SkipJmp, Movable, Covers, Detours.Valid, IsLive, Serves, WindowOutside, OutsideKept, AllKnown, Patch,
      Overwrite, Jmp, Brks, Aside, Stacked, On, Off, OnAll, OffAll, InPool, KnowsJumps;
    Idle(d);
    ghost var m0 := d.mem[..];
    ok, a, b := HookBoth(d, caller, p, q, detourA, detourB, sysA, sysB, w, tail);
    if !ok {
      return;
    }
    Idle(d);
    PoolOf(d);
    ghost var m2, r2, hi := d.mem[..], d.pool.regions, a.target + |w|;
    ServesParts(d.tables, m2, d.pool.head, r2, a);
    AsideSkips(m2, r2, 0, detourA, a.target, hi);
    Unnulled(r2, a, b, m2, d.tables);
    UnhookOnce(d, caller, p, detourA, a);
    Idle(d);
    ghost var m3, r3 := d.mem[..], d.pool.regions;
    StillAside(m2, r2, 0, m3, r3, a, detourB, a.target, hi, false);
    AsideSkips(m3, r3, 0, detourB, a.target, hi);
    UnhookOnce(d, caller, q, detourB, b);
    Idle(d);
    BothBack(m0, a, b, m2, r2, m3, r3, d.mem[..], d.pool.regions);
    OutsideStill(m2, r2, r3, d.pool.regions, a, d.tables);
    StaleIn(m0, d.mem[..], d.pool.regions, a, b);
    LeadsBy(d.tables, d.mem[..], a.target, detourA);
  }

  lemma Unnulled(regions: seq<Region>, a: Hook, b: Hook, m: seq<Byte>, t: Tables)
    requires WellFormed(t) && Serves(t, m, regions, a) && Serves(t, m, regions, b)
    ensures a.trampoline != 0 && b.trampoline != 0
  {
    hide IsLive, WindowOutside, TrampolineOk, WellFormed;
    LiveNotNull(regions, a.trampoline);
    LiveNotNull(regions, b.trampoline);
  }

  lemma BothBack(m0: seq<Byte>, a: Hook, b: Hook, m2: seq<Byte>, r2: seq<Region>, m3: seq<Byte>, r3: seq<Region>,
                 m4: seq<Byte>, r4: seq<Region>)
    requires OutsideKept(OnAll(m0, [a, b]), m2, r2) && OutsideKept(Off(m2, a), m3, r3)
    requires OutsideKept(Off(m3, b), m4, r4)
    requires Covers(r3, r2, 0) && Covers(r4, r3, 0)
    ensures OutsideKept(OffAll(OnAll(m0, [a, b]), [a, b]), m4, r4)
  {
    hide OutsideKept, InPool, OnAll, OffAll, Off;
    var c := OnAll(m0, [a, b]);
    KeptOff(c, m2, r2, a, m3, r3);
    KeptOff(Off(c, a), m3, r3, b, m4, r4);
    TwoSteps(c, a, b);
  }

  lemma OutsideStill(m: seq<Byte>, r2: seq<Region>, r3: seq<Region>, r4: seq<Region>, a: Hook, t: Tables)
    requires WellFormed(t) && Serves(t, m, r2, a) && 5 <= a.Size() && Covers(r3, r2, 0) && Covers(r4, r3, 0)
    ensures forall i | a.target <= i < a.target + 5 :: !InPool(r4, i)
  {
    hide InPool, IsLive, TrampolineOk, WellFormed;
    forall i | a.target <= i < a.target + 5
      ensures !InPool(r4, i)
    {
      assert !InPool(r2, i);
      assert !InPool(r3, i);
    }
  }
}
