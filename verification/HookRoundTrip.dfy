/** What hooks look like from outside, and a hook that comes and goes. */
module HookRoundTrip {
  import opened Bytes
  import opened Options
  import opened Disasm
  import opened Relocation
  import opened Trampolines
  import opened HookList
  import opened HookSteps
  import opened Pending
  import opened Patching
  import opened DoubleFree
  import opened Rollback
  import opened HookFacts
  import opened Carrying
  import opened Hooks

  /** The patched code shows, at the target of each hook, its jump or its own code. */
  lemma {:induction false} PatchedAt(t: Tables, m: seq<Byte>, regions: seq<Region>, code: seq<Byte>, hooks: seq<Hook>,
                                     a: Dword)
    requires WellFormed(t) && HooksOk(t, m, regions, code, hooks) && Find(hooks, a).Some?
    ensures var h := Find(hooks, a).value;
            && 5 <= h.Size() && h.target + h.Size() <= |code|
            && Patched(code, hooks)[h.target..h.target + h.Size()] == if h.on then Patch(h) else h.saved
    decreases |hooks|
  {
    hide HooksOk, HookOk, Patched, Patch, Overwrite;
    HooksStep(t, m, regions, code, hooks);
    PatchedStep(code, hooks);
    var g := hooks[0];
    HookSize(t, m, regions, code, g);
    var rest := Patched(code, hooks[1..]);
    if g.trampoline == a {
      PatchedElsewhere(t, m, regions, code, hooks[1..], g);
      OverwriteParts(rest, g.target, Patch(g));
    } else {
      PatchedAt(t, m, regions, code, hooks[1..], a);
      SeparateFound(g, hooks[1..], a);
      var h := Find(hooks[1..], a).value;
      OverwriteElsewhere(rest, g.target, Patch(g), h.target, h.target + h.Size());
    }
  }

  /** In a sound process the target of a hook leads to the detour once the attach has been committed, and holds the
      original code until then.  Its trampoline holds the moved code, whose end leads behind the hooked code. */
  lemma HookVisible(t: Tables, m: seq<Byte>, head: Dword, regions: seq<Region>, code: seq<Byte>, hooks: seq<Hook>,
                    a: Dword)
    requires WellFormed(t) && Sound(t, m, head, regions, code, hooks, 0) && Find(hooks, a).Some?
    ensures var h := Find(hooks, a).value;
            && h.target + h.Size() <= |m| == |code| && 5 <= h.Size()
            && m[h.target..h.target + h.Size()] == (if h.on then Patch(h) else code[h.target..h.target + h.Size()])
            && (h.on ==>
                  && Leads(t, m, h.target, h.detour)
                  && forall i | h.target + 5 <= i < h.target + h.Size() :: m[i] == 0xcc)
            && a + 32 <= |m| && Moved(t, h.saved, m[a..a + 32], a - h.target)
            && Leads(t, m, a + h.Size(), h.target + h.Size())
  {
    hide HooksOk, HookOk, RegionList, Patched, Patch, DistinctBases, LiveHooked, WellFormed, InPool, Find, Leads, Moved,
      Sound, TrampolineFor;
    SoundParts(t, m, head, regions, code, hooks, 0);
    HookReady(t, m, head, regions, code, hooks, a);
    BackLeads(t, m, Find(hooks, a).value);
    HookMoved(t, m[a..a + 32], Find(hooks, a).value);
    HookShows(t, m, head, regions, code, hooks, a);
    if Find(hooks, a).value.on {
      HookLeads(t, m, Find(hooks, a).value);
    }
  }

  lemma HookMoved(t: Tables, slot: seq<Byte>, h: Hook)
    requires WellFormed(t) && |slot| == 32 && TrampolineFor(t, slot, h)
    ensures Moved(t, h.saved, slot, h.trampoline - h.target)
  {
    hide Moved, WellFormed, Window, Jmp, Fill, DwordAt;
  }

  lemma HookShows(t: Tables, m: seq<Byte>, head: Dword, regions: seq<Region>, code: seq<Byte>, hooks: seq<Hook>,
                  a: Dword)
    requires WellFormed(t) && Sound(t, m, head, regions, code, hooks, 0) && Find(hooks, a).Some?
    ensures var h := Find(hooks, a).value;
            && h.target + h.Size() <= |m| == |code| && 5 <= h.Size()
            && m[h.target..h.target + h.Size()] == if h.on then Patch(h) else code[h.target..h.target + h.Size()]
  {
    hide HooksOk, HookOk, RegionList, Patched, Patch, DistinctBases, LiveHooked, WellFormed, InPool, Find;
    PatchedAt(t, m, regions, code, hooks, a);
    FindOk(t, m, regions, code, hooks, a);
    var h := Find(hooks, a).value;
    HookSize(t, m, regions, code, h);
    HookLive(t, m, regions, code, h);
    var p := Patched(code, hooks);
    forall i | h.target <= i < h.target + h.Size()
      ensures m[i] == p[i]
    {
      assert !InPool(regions, i);
    }
    assert m[h.target..h.target + h.Size()] == p[h.target..h.target + h.Size()];
  }

  /** Without hooks, memory outside the pool is as it was before the first one, and no trampoline is in use. */
  lemma NoHooks(t: Tables, m: seq<Byte>, head: Dword, regions: seq<Region>, code: seq<Byte>, hooks: seq<Hook>, a: Dword)
    requires WellFormed(t) && Sound(t, m, head, regions, code, hooks, 0) && hooks == []
    ensures OutsideKept(code, m, regions) && !IsLive(regions, a)
  {
    hide RegionList, DistinctBases, InPool, IsLive;
    NotPatched(code, hooks);
    if IsLive(regions, a) {
      LiveNotNull(regions, a);
    }
  }

  /** Trampolines in use are those of the hooks. */
  lemma LiveIsHooked(t: Tables, m: seq<Byte>, head: Dword, regions: seq<Region>, code: seq<Byte>, hooks: seq<Hook>,
                     a: Dword)
    requires WellFormed(t) && Sound(t, m, head, regions, code, hooks, 0)
    ensures IsLive(regions, a) <==> Find(hooks, a).Some?
  {
    hide HooksOk, HookOk, RegionList, Patched, DistinctBases, InPool, Find, IsLive, WellFormed;
    if IsLive(regions, a) {
      LiveNotNull(regions, a);
    } else if Find(hooks, a).Some? {
      FindOk(t, m, regions, code, hooks, a);
      HookLive(t, m, regions, code, Find(hooks, a).value);
    }
  }

  /** The code of a detour: it starts with no short jump, and lies apart from the pool and from the code to be
      hooked. */
  ghost predicate PlainDetour(m: seq<Byte>, regions: seq<Region>, detour: Dword, target: Dword, n: nat)
  {
    && detour != 0 && detour + 6 <= |m| && m[detour] != 0xeb
    && !InPool(regions, detour) && (detour < target || target + n <= detour)
  }

  /** A new hook does not change the detour. */
  lemma DetourKept(t: Tables, m: seq<Byte>, h1: Dword, before: seq<Region>, n: seq<Byte>, h2: Dword, after: seq<Region>,
                   code: seq<Byte>, hooks: seq<Hook>, h: Hook, detour: Dword)
    requires WellFormed(t) && Sound(t, m, h1, before, code, hooks, 0) && Sound(t, n, h2, after, code, [h] + hooks, 0)
    requires PlainDetour(m, before, detour, h.target, h.Size()) && !InPool(after, detour)
    ensures CanSkip(n, detour, false) && SkipJmp(n, detour, false) == detour
  {
    hide HooksOk, HookOk, RegionList, Patched, DistinctBases, LiveHooked, InPool, Patch, WellFormed, Overwrite;
    var more := [h] + hooks;
    assert more[0] == h && more[1..] == hooks;
    PatchedStep(code, more);
    var p := Patched(code, hooks);
    assert m[detour] == p[detour];
    if h.on && h.Size() >= 5 && h.target + h.Size() <= |code| {
      OverwriteElsewhere(p, h.target, Patch(h), detour, detour + 1);
      assert Overwrite(p, h.target, Patch(h))[detour] == Overwrite(p, h.target, Patch(h))[detour..detour + 1][0] ==
        p[detour..detour + 1][0];
    }
  }

  /** An attach to plain code, in an orderly process. */
  ghost predicate CanHook(d: Detours, pointer: int, detour: Dword, sys: Answers, w: seq<Byte>, tail: seq<Byte>)
    reads d, d.mem, d.pool
  {
    && d.Valid() && d.Orderly() && d.owner == 0
    && d.CanAttach(Some(pointer), detour, sys, w, tail) && pointer in d.pointers && d.pointers[pointer] != 0
    && d.GrantFine(sys.grant)
    && Plain(d.tables, d.pool.regions, d.hooks, SkipJmp(d.mem[..], d.pointers[pointer], sys.targetImported), w, tail)
  }

  /** A transaction with one attach.  It is given a trampoline exactly when there is one in reach. */
  method AttachOne(d: Detours, caller: int, pointer: int, detour: Dword, sys: Answers, ghost w: seq<Byte>,
                   ghost tail: seq<Byte>)
    returns (ok: bool, ghost a: Dword)
    requires CanHook(d, pointer, detour, sys, w, tail) && caller != 0
    modifies d, d.mem, d.pool
    ensures d.Valid() && d.Orderly() && d.owner == 0 && d.operations == [] && AllOn(old(d.hooks))
    ensures Covers(d.pool.regions, old(d.pool.regions), sys.grant)
    ensures ok ==> Find(old(d.hooks), a).None?
    ensures var target := SkipJmp(old(d.mem[..]), old(d.pointers)[pointer], sys.targetImported);
            var to := SkipJmp(old(d.mem[..]), detour, sys.detourImported);
            && TrampolineGiven(old(d.pool.regions), target, to, sys, a)
            && |tail| == 2 && ok == d.Succeeds(target, to, sys, w, tail, a)
            && d.pointers == (if ok then old(d.pointers)[pointer := a] else old(d.pointers))
            && d.hooks == (if ok then [Hook(a, target, w, to, true)] + old(d.hooks) else old(d.hooks))
            && (ok ==> Leads(d.tables, d.mem[..], target, to) && Leads(d.tables, d.mem[..], a + |w|, target + |w|))
  {
    hide Sound, RegionList, DistinctBases, HasBase, WellFormed, OpsFound, DistinctOps, Attachable, CanSkip, SkipJmp,
      AllOn, Movable, Find, Covers, Matched, SinceBegin, Plain, GrantApart, TrampolineGiven, Detours.Valid, IsLive,
      Leads;
    ok, a := AttachAndCommit(d, caller, pointer, detour, sys, w, tail);
    if ok {
      FirstLeads(d, d.hooks[0]);
    }
  }

  /** The transaction itself. */
  method AttachAndCommit(d: Detours, caller: int, pointer: int, detour: Dword, sys: Answers, ghost w: seq<Byte>,
                         ghost tail: seq<Byte>)
    returns (ok: bool, ghost a: Dword)
    requires CanHook(d, pointer, detour, sys, w, tail) && caller != 0
    modifies d, d.mem, d.pool
    ensures d.Valid() && d.Orderly() && d.owner == 0 && d.operations == [] && AllOn(old(d.hooks))
    ensures Covers(d.pool.regions, old(d.pool.regions), sys.grant)
    ensures ok ==> Find(old(d.hooks), a).None?
    ensures var target := SkipJmp(old(d.mem[..]), old(d.pointers)[pointer], sys.targetImported);
            var to := SkipJmp(old(d.mem[..]), detour, sys.detourImported);
            && TrampolineGiven(old(d.pool.regions), target, to, sys, a)
            && |tail| == 2 && ok == d.Succeeds(target, to, sys, w, tail, a)
            && d.pointers == (if ok then old(d.pointers)[pointer := a] else old(d.pointers))
            && d.hooks == (if ok then [Hook(a, target, w, to, true)] + old(d.hooks) else old(d.hooks))
  {
    hide Sound, RegionList, DistinctBases, HasBase, WellFormed, OpsFound, DistinctOps, Attachable, CanSkip, SkipJmp,
      OnOnly, AllOn, Movable, Find, Covers, Committed, Repointed, Matched, SinceBegin, Plain, GrantApart,
      TrampolineGiven, Detours.Valid, IsLive, FreeAll, ReturnedAll;
    ok, a := AttachPending(d, caller, pointer, detour, sys, w, tail);
    ghost var regions, hooks, ops := d.pool.regions, d.hooks, d.operations;
    OneOrNone(old(d.hooks), hooks, ops, d.pointers);
    d.TidyCommits();
    var r, where := d.Commit(caller);
    CoversFreed(regions, Removes(ops));
    CoversTrans(d.pool.regions, regions, old(d.pool.regions), sys.grant);
  }

  /** The latest hook leads to its detour and back. */
  lemma FirstLeads(d: Detours, h: Hook)
    requires d.Valid() && d.Orderly() && |d.hooks| > 0 && d.hooks[0] == h && h.on
    ensures WellFormed(d.tables) && Leads(d.tables, d.mem[..], h.target, h.detour)
    ensures Leads(d.tables, d.mem[..], h.trampoline + h.Size(), h.target + h.Size())
  {
    hide RegionList, DistinctBases, HasBase, WellFormed, OpsFound, DistinctOps, Matched, SinceBegin, Sound,
      DistinctAttaches, Balanced, Leads, Moved;
    HookVisible(d.tables, d.mem[..], d.pool.head, d.pool.regions, d.code, d.hooks, h.trampoline);
  }

  /** The first half of it. */
  method AttachPending(d: Detours, caller: int, pointer: int, detour: Dword, sys: Answers, ghost w: seq<Byte>,
                       ghost tail: seq<Byte>)
    returns (ok: bool, ghost a: Dword)
    requires CanHook(d, pointer, detour, sys, w, tail) && caller != 0
    modifies d, d.mem, d.pool
    ensures d.Valid() && d.Orderly() && d.owner == caller && d.pointers == old(d.pointers) && AllOn(old(d.hooks))
    ensures Covers(d.pool.regions, old(d.pool.regions), sys.grant)
    ensures ok ==> d.error == NO_ERROR && Find(old(d.hooks), a).None?
    ensures var target := SkipJmp(old(d.mem[..]), old(d.pointers)[pointer], sys.targetImported);
            var to := SkipJmp(old(d.mem[..]), detour, sys.detourImported);
            && TrampolineGiven(old(d.pool.regions), target, to, sys, a)
            && |tail| == 2 && ok == d.Succeeds(target, to, sys, w, tail, a)
            && d.operations == (if ok then [Operation(false, pointer, target, a)] else [])
            && d.hooks == if ok then [Hook(a, target, w, to, false)] + old(d.hooks) else old(d.hooks)
  {
    hide Sound, RegionList, DistinctBases, HasBase, WellFormed, OpsFound, DistinctOps, Attachable, CanSkip, SkipJmp,
      AllOn, Movable, Find, Covers, Matched, SinceBegin, Plain, GrantApart, TrampolineGiven, Detours.Valid, IsLive,
      AfterTake, Mapped, TrampolineFor;
    ghost var hooks := d.hooks;
    Idle(d);
    MatchedNone(hooks);
    var r := d.Begin(caller);
    r, a := d.Attach(caller, Some(pointer), detour, sys, w, tail);
    ok := d.operations != [];
    NewHook(d, hooks, a);
  }

  /** Between two transactions nothing is pending. */
  lemma Idle(d: Detours)
    requires d.Valid() && d.owner == 0
    ensures d.operations == [] && d.pool.mem == d.mem && WellFormed(d.tables)
  {
    hide RegionList, DistinctBases, HasBase, WellFormed, SinceBegin;
  }

  /** The trampoline of a new hook is no other's. */
  lemma NewHook(d: Detours, before: seq<Hook>, a: Dword)
    requires d.Valid() && d.Orderly()
    requires d.hooks == before || (|d.hooks| > 0 && d.hooks[1..] == before && d.hooks[0].trampoline == a)
    ensures d.hooks != before ==> Find(before, a).None?
  {
    hide RegionList, DistinctBases, HasBase, WellFormed, OpsFound, DistinctOps, Matched, SinceBegin, IsLive, Sound;
    DistinctAll(d.tables, d.mem[..], d.pool.head, d.pool.regions, d.code, d.hooks, 0);
  }

  lemma {:induction false} CoversFreed(regions: seq<Region>, ts: seq<Dword>)
    ensures Covers(FreeAll(regions, ts), regions, 0)
    decreases |ts|
  {
    hide AfterFree, InPool;
    if |ts| > 0 {
      CoversFree(regions, ts[0]);
      CoversFreed(AfterFree(regions, ts[0]), ts[1..]);
      CoversTrans(FreeAll(regions, ts), AfterFree(regions, ts[0]), regions, 0);
    }
  }

  /** What committing makes of one new attach, or of none. */
  lemma OneOrNone(before: seq<Hook>, hooks: seq<Hook>, ops: seq<Operation>, pointers: map<int, Dword>)
    requires AllOn(before)
    requires (ops == [] && hooks == before)
             || (|ops| == 1 && |hooks| > 0 && hooks == [hooks[0]] + before && Find(before, hooks[0].trampoline).None?
                 && !ops[0].isRemove && ops[0].trampoline == hooks[0].trampoline)
    ensures ops == [] ==>
              Committed(hooks, ops) == before && Repointed(pointers, ops) == pointers && OnOnly(before) == before
    ensures ops != [] ==>
              && Committed(hooks, ops) == [hooks[0].(on := true)] + before
              && Repointed(pointers, ops) == pointers[ops[0].pointer := ops[0].trampoline]
  {
    hide Committed, Repointed, Find;
    if ops == [] {
      CommitNothing(hooks, pointers);
      AllOnSame(before);
    } else {
      assert ops == [ops[0]];
      OneAttach(before, hooks[0], ops[0], pointers);
    }
  }

  lemma CommitNothing(hooks: seq<Hook>, pointers: map<int, Dword>)
    ensures Committed(hooks, []) == hooks && Repointed(pointers, []) == pointers
  {
    TurnedNone(hooks);
  }

  lemma OneAttach(hooks: seq<Hook>, h: Hook, op: Operation, pointers: map<int, Dword>)
    requires AllOn(hooks) && Find(hooks, h.trampoline).None? && !op.isRemove && op.trampoline == h.trampoline
    ensures Committed([h] + hooks, [op]) == [h.(on := true)] + hooks
    ensures Repointed(pointers, [op]) == pointers[op.pointer := op.trampoline]
  {
    CommitAttach(hooks, h, op);
    RepointedLast(pointers, [], op);
    assert [] + [op] == [op];
  }

  lemma OneDetach(hooks: seq<Hook>, h: Hook, op: Operation, pointers: map<int, Dword>)
    requires AllOn(hooks) && Find(hooks, h.trampoline).None? && op.isRemove && op.trampoline == h.trampoline
    ensures Committed([h] + hooks, [op]) == hooks
    ensures Repointed(pointers, [op]) == pointers[op.pointer := op.target]
  {
    CommitDetach(hooks, h, op);
    RepointedLast(pointers, [], op);
    assert [] + [op] == [op];
  }

  /** A transaction with one detach, of the latest hook. */
  method DetachOne(d: Detours, caller: int, pointer: int, detour: Dword, ghost rest: seq<Hook>, ghost h: Hook)
    requires d.Valid() && d.Orderly() && d.owner == 0 && caller != 0 && d.operations == []
    requires d.hooks == [h] + rest && h.on && AllOn(rest) && Find(rest, h.trampoline).None?
    requires pointer in d.pointers && d.pointers[pointer] == h.trampoline != 0
    requires CanSkip(d.mem[..], detour, false) && SkipJmp(d.mem[..], detour, false) == h.detour
    modifies d, d.mem, d.pool
    ensures d.Valid() && d.Orderly() && d.owner == 0 && d.operations == []
    ensures Covers(d.pool.regions, old(d.pool.regions), 0)
    ensures d.hooks == rest && d.pointers == old(d.pointers)[pointer := h.target]
  {
    hide Sound, RegionList, DistinctBases, HasBase, WellFormed, OpsFound, DistinctOps, CanSkip, SkipJmp, OnOnly, AllOn,
      Covers, Committed, Repointed, Matched, SinceBegin, Detours.Valid, Detours.LooksLike, Detours.TargetOf, FreeAll,
      ReturnedAll, Find, Removes;
    DetachPending(d, caller, pointer, detour, rest, h);
    ghost var ops := d.operations;
    OneDetach(rest, h, ops[0], d.pointers);
    d.TidyCommits();
    var r, where := d.Commit(caller);
    CoversFreed(old(d.pool.regions), Removes(ops));
  }

  /** The first half of it. */
  method DetachPending(d: Detours, caller: int, pointer: int, detour: Dword, ghost rest: seq<Hook>, ghost h: Hook)
    requires d.Valid() && d.Orderly() && d.owner == 0 && caller != 0 && d.operations == []
    requires d.hooks == [h] + rest && h.on && AllOn(rest) && Find(rest, h.trampoline).None?
    requires pointer in d.pointers && d.pointers[pointer] == h.trampoline != 0
    requires CanSkip(d.mem[..], detour, false) && SkipJmp(d.mem[..], detour, false) == h.detour
    modifies d
    ensures d.Valid() && d.Orderly() && d.owner == caller && d.error == NO_ERROR && d.hooks == old(d.hooks)
    ensures d.pointers == old(d.pointers) && d.operations == [Operation(true, pointer, h.target, h.trampoline)]
  {
    hide Sound, RegionList, DistinctBases, HasBase, WellFormed, OpsFound, DistinctOps, CanSkip, SkipJmp, OnOnly, AllOn,
      Matched, SinceBegin, Detours.Valid, Detours.LooksLike, Detours.TargetOf;
    FirstHook(d, h);
    var r := d.Begin(caller);
    r := d.Detach(caller, Some(pointer), detour, false, true, true, 0);
  }

  /** The fields of the trampoline of the latest hook. */
  lemma FirstHook(d: Detours, h: Hook)
    requires d.Valid() && d.Orderly() && |d.hooks| > 0 && d.hooks[0] == h
    ensures h.trampoline + 32 <= d.mem.Length && d.LooksLike(h.trampoline, h.detour)
    ensures d.TargetOf(h.trampoline) == h.target
    ensures Find(d.hooks, h.trampoline) == Some(h)
  {
    hide RegionList, DistinctBases, HasBase, WellFormed, OpsFound, DistinctOps, Matched, SinceBegin, Sound, DwordAt,
      TrampolineOk, DistinctAttaches, Balanced;
    HookReady(d.tables, d.mem[..], d.pool.head, d.pool.regions, d.code, d.hooks, h.trampoline);
  }

  lemma NotInGrant(after: seq<Region>, before: seq<Region>, grant: Dword, i: int)
    requires Covers(after, before, grant) && !InPool(before, i) && (grant != 0 ==> i < grant || grant + 0x1_0000 <= i)
    ensures !InPool(after, i)
  {
    hide InPool;
  }

  /** The same trampolines are in use when the hooks are the same. */
  lemma SameLive(t: Tables, m: seq<Byte>, h1: Dword, before: seq<Region>, n: seq<Byte>, h2: Dword, after: seq<Region>,
                 code: seq<Byte>, hooks: seq<Hook>)
    requires WellFormed(t) && Sound(t, m, h1, before, code, hooks, 0) && Sound(t, n, h2, after, code, hooks, 0)
    ensures forall x: Dword :: IsLive(after, x) <==> IsLive(before, x)
  {
    hide Sound, IsLive, WellFormed;
    forall x: Dword
      ensures IsLive(after, x) <==> IsLive(before, x)
    {
      LiveIsHooked(t, m, h1, before, code, hooks, x);
      LiveIsHooked(t, n, h2, after, code, hooks, x);
    }
  }

  /** Attach, commit, detach, commit.  Whether or not the attach succeeds, all code ends as it was and the
      trampolines in use are those from before; the pointer of a hook that came and went leads to the
      resolved target. */
  method AttachAndDetach(d: Detours, caller: int, pointer: int, detour: Dword, sys: Answers, ghost w: seq<Byte>,
                         ghost tail: seq<Byte>)
    returns (ok: bool, ghost a: Dword)
    requires CanHook(d, pointer, detour, sys, w, tail) && caller != 0
    requires var target := SkipJmp(d.mem[..], d.pointers[pointer], sys.targetImported);
             PlainDetour(d.mem[..], d.pool.regions, detour, target, |w|)
    requires !sys.detourImported && (sys.grant != 0 ==> detour < sys.grant || sys.grant + 0x1_0000 <= detour)
    modifies d, d.mem, d.pool
    ensures d.Valid() && d.Orderly() && d.owner == 0 && d.hooks == old(d.hooks)
    ensures OutsideKept(old(d.mem[..]), d.mem[..], d.pool.regions)
    ensures forall x: Dword :: IsLive(d.pool.regions, x) <==> IsLive(old(d.pool.regions), x)
    ensures var target := SkipJmp(old(d.mem[..]), old(d.pointers)[pointer], sys.targetImported);
            && TrampolineGiven(old(d.pool.regions), target, detour, sys, a)
            && |tail| == 2 && ok == d.Succeeds(target, detour, sys, w, tail, a)
            && d.pointers == if ok then old(d.pointers)[pointer := target] else old(d.pointers)
  {
    hide Sound, RegionList, DistinctBases, HasBase, WellFormed, OpsFound, DistinctOps, Matched, Attachable, CanSkip,
      SkipJmp, OnOnly, AllOn, OutsideKept, Movable, TrampolineGiven, Find, Covers, InPool, IsLive, PlainDetour, Plain,
      GrantApart, Detours.Valid;
    ghost var m, head, regions, hooks := d.mem[..], d.pool.head, d.pool.regions, d.hooks;
    PlainParts(m, regions, detour, SkipJmp(m, d.pointers[pointer], sys.targetImported), |w|);
    ok, a := AttachOne(d, caller, pointer, detour, sys, w, tail);
    Idle(d);
    if ok {
      ghost var mid := d.pool.regions;
      NotInGrant(mid, regions, sys.grant, detour);
      DetourKept(d.tables, m, head, regions, d.mem[..], d.pool.head, mid, d.code, hooks, d.hooks[0], detour);
      DetachOne(d, caller, pointer, detour, hooks, d.hooks[0]);
      CoversTrans(d.pool.regions, mid, regions, sys.grant);
    }
    Idle(d);
    SameCode(d.tables, m, head, regions, d.mem[..], d.pool.head, d.pool.regions, d.code, hooks, hooks, 0, sys.grant);
    SameLive(d.tables, m, head, regions, d.mem[..], d.pool.head, d.pool.regions, d.code, hooks);
  }

  lemma PlainParts(m: seq<Byte>, regions: seq<Region>, detour: Dword, target: Dword, n: nat)
    requires PlainDetour(m, regions, detour, target, n)
    ensures detour + 6 <= |m| && !InPool(regions, detour) && CanSkip(m, detour, false)
    ensures SkipJmp(m, detour, false) == detour
  {
    hide InPool;
  }
}
