/** Where suspended threads go on after a commit in an orderly process. */
module HookThreads {
  import opened Bytes
  import opened Options
  import opened Disasm
  import opened Relocation
  import opened Trampolines
  import opened HookList
  import opened HookSteps
  import opened Pending
  import opened HookFacts
  import opened Carrying
  import opened ThreadFix
  import opened Hooks

  /** Different hooks use different code. */
  lemma {:induction false} FoundSeparate(t: Tables, m: seq<Byte>, regions: seq<Region>, code: seq<Byte>,
                                         hooks: seq<Hook>, a: Dword, b: Dword)
    requires WellFormed(t) && HooksOk(t, m, regions, code, hooks) && Find(hooks, a).Some? && Find(hooks, b).Some?
    requires a != b
    ensures var g, h := Find(hooks, a).value, Find(hooks, b).value;
            g.target + g.Size() <= h.target || h.target + h.Size() <= g.target
    decreases |hooks|
  {
    hide HooksOk, HookOk, WellFormed;
    HooksStep(t, m, regions, code, hooks);
    if hooks[0].trampoline == a {
      SeparateFound(hooks[0], hooks[1..], b);
    } else if hooks[0].trampoline == b {
      SeparateFound(hooks[0], hooks[1..], a);
    } else {
      FoundSeparate(t, m, regions, code, hooks[1..], a, b);
    }
  }

  /** The places of a hook, without wrap-around. */
  lemma Places(t: Tables, m: seq<Byte>, head: Dword, regions: seq<Region>, code: seq<Byte>, hooks: seq<Hook>, a: Dword)
    requires WellFormed(t) && Sound(t, m, head, regions, code, hooks, 0) && Find(hooks, a).Some?
    ensures var h := Find(hooks, a).value;
            && h.target + h.Size() < 0x1_0000_0000 && a + 32 <= 0x1_0000_0000 && 5 <= h.Size() <= 18
            && Covered(m, a) == h.Size()
            && a % 32 == 0 && WindowOutside(regions, h) && IsLive(regions, a)
            && (forall i | a <= i < a + 32 :: InPool(regions, i))
  {
    hide HooksOk, HookOk, RegionList, Patched, DistinctBases, LiveHooked, InPool, Find, IsLive, WellFormed,
      WindowOutside, Sound, TrampolineFor, Inside;
    HookReady(t, m, head, regions, code, hooks, a);
    SoundParts(t, m, head, regions, code, hooks, 0);
    FindOk(t, m, regions, code, hooks, a);
    HookLive(t, m, regions, code, Find(hooks, a).value);
    LiveRoom(m, head, regions, a);
    LiveBounds(m, head, regions, a);
    LiveInPool(m, head, regions, a);
    RoomOf(t, m[a..a + 32], Find(hooks, a).value);
  }

  lemma RoomOf(t: Tables, slot: seq<Byte>, h: Hook)
    requires WellFormed(t) && |slot| == 32 && TrampolineOk(t, slot, h)
    ensures h.target + h.Size() < 0x1_0000_0000
  {
    hide WellFormed, Window, Moved, AllKnown, Jmp, DwordAt, Fill;
  }

  /** An operation about another hook does not move a thread that is in the trampoline of the hook at `a`. */
  lemma MissesTrampoline(t: Tables, m: seq<Byte>, head: Dword, regions: seq<Region>, code: seq<Byte>, hooks: seq<Hook>,
                         op: Operation, a: Dword, k: nat)
    requires WellFormed(t) && Sound(t, m, head, regions, code, hooks, 0) && Find(hooks, a).Some? && k < 32
    requires Find(hooks, op.trampoline).Some? && Find(hooks, op.trampoline).value.target == op.target
    requires op.trampoline != a || !op.isRemove
    ensures a + k < 0x1_0000_0000 && FixOne(m, op, a + k) == a + k
  {
    hide Sound, WellFormed, InPool, Find, IsLive, Covered;
    Places(t, m, head, regions, code, hooks, a);
    Places(t, m, head, regions, code, hooks, op.trampoline);
    if op.isRemove {
      SlotsApart(op.trampoline, a);
    } else {
      assert InPool(regions, a + k);
    }
  }

  /** Nor one that is in the code of that hook. */
  lemma MissesWindow(t: Tables, m: seq<Byte>, head: Dword, regions: seq<Region>, code: seq<Byte>, hooks: seq<Hook>,
                     op: Operation, a: Dword, k: nat)
    requires WellFormed(t) && Sound(t, m, head, regions, code, hooks, 0) && Find(hooks, a).Some?
    requires k < Find(hooks, a).value.Size()
    requires Find(hooks, op.trampoline).Some? && Find(hooks, op.trampoline).value.target == op.target
    requires op.trampoline != a
    ensures var x := Find(hooks, a).value.target + k; x < 0x1_0000_0000 && FixOne(m, op, x) == x
  {
    hide Sound, WellFormed, InPool, Find, IsLive, Covered, HooksOk, RegionList;
    Places(t, m, head, regions, code, hooks, a);
    Places(t, m, head, regions, code, hooks, op.trampoline);
    var x: int := Find(hooks, a).value.target + k;
    assert !InPool(regions, x);
    if !op.isRemove {
      SoundParts(t, m, head, regions, code, hooks, 0);
      FoundSeparate(t, m, regions, code, hooks, a, op.trampoline);
    }
  }

  lemma {:induction false} StaysInTrampoline(t: Tables, m: seq<Byte>, head: Dword, regions: seq<Region>,
                                             code: seq<Byte>, hooks: seq<Hook>, ops: seq<Operation>, a: Dword, k: nat)
    requires WellFormed(t) && Sound(t, m, head, regions, code, hooks, 0) && Find(hooks, a).Some? && k < 32
    requires OpsFound(ops, hooks) && OpOf(ops, a).None?
    ensures a + k < 0x1_0000_0000 && FixAll(m, ops, a + k) == a + k
    decreases |ops|
  {
    hide Sound, WellFormed, Find, FixOne;
    if |ops| > 0 {
      MissesTrampoline(t, m, head, regions, code, hooks, ops[0], a, k);
      StaysInTrampoline(t, m, head, regions, code, hooks, ops[1..], a, k);
    } else {
      Places(t, m, head, regions, code, hooks, a);
    }
  }

  lemma {:induction false} StaysInWindow(t: Tables, m: seq<Byte>, head: Dword, regions: seq<Region>, code: seq<Byte>,
                                         hooks: seq<Hook>, ops: seq<Operation>, a: Dword, k: nat)
    requires WellFormed(t) && Sound(t, m, head, regions, code, hooks, 0) && Find(hooks, a).Some?
    requires k < Find(hooks, a).value.Size()
    requires OpsFound(ops, hooks) && OpOf(ops, a).None?
    ensures var x := Find(hooks, a).value.target + k; x < 0x1_0000_0000 && FixAll(m, ops, x) == x
    decreases |ops|
  {
    hide Sound, WellFormed, Find, FixOne;
    if |ops| > 0 {
      MissesWindow(t, m, head, regions, code, hooks, ops[0], a, k);
      StaysInWindow(t, m, head, regions, code, hooks, ops[1..], a, k);
    } else {
      Places(t, m, head, regions, code, hooks, a);
    }
  }

  /** What the hook's own operation does. */
  lemma OwnMove(t: Tables, m: seq<Byte>, head: Dword, regions: seq<Region>, code: seq<Byte>, hooks: seq<Hook>,
                op: Operation, a: Dword, k: nat)
    requires WellFormed(t) && Sound(t, m, head, regions, code, hooks, 0) && op.trampoline == a && Find(hooks, a).Some?
    requires Find(hooks, a).value.target == op.target && k < Find(hooks, a).value.Size()
    ensures a + k < 0x1_0000_0000 && op.target + k < 0x1_0000_0000
    ensures !op.isRemove ==> FixOne(m, op, op.target + k) == a + k
    ensures op.isRemove ==> FixOne(m, op, a + k) == if k < SIZE_OF_POINTER then op.target + k else a + k
    ensures op.isRemove ==> FixOne(m, op, op.target + k) == op.target + k
  {
    hide Sound, WellFormed, InPool, Find, IsLive, Covered;
    Places(t, m, head, regions, code, hooks, a);
    assert !InPool(regions, op.target + k);
  }

  /** A thread in code that is being hooked goes on at the same place of the trampoline.  A thread in a trampoline that
      is being returned goes on at the same place of the function if and only if it is among the first four bytes;
      further on it stays in memory that is cleared. */
  lemma {:induction false} ThreadMoves(t: Tables, m: seq<Byte>, head: Dword, regions: seq<Region>, code: seq<Byte>,
                                       hooks: seq<Hook>, ops: seq<Operation>, a: Dword, k: nat)
    requires WellFormed(t) && Sound(t, m, head, regions, code, hooks, 0) && Find(hooks, a).Some?
    requires k < Find(hooks, a).value.Size()
    requires OpsFound(ops, hooks) && DistinctOps(ops) && OpOf(ops, a).Some?
    ensures a + k < 0x1_0000_0000 && Find(hooks, a).value.target + k < 0x1_0000_0000
    ensures !OpOf(ops, a).value.isRemove ==> FixAll(m, ops, Find(hooks, a).value.target + k) == a + k
    ensures OpOf(ops, a).value.isRemove ==>
              FixAll(m, ops, a + k) == if k < SIZE_OF_POINTER then Find(hooks, a).value.target + k else a + k
    decreases |ops|
  {
    hide Sound, WellFormed, Find, FixOne;
    var op := ops[0];
    Places(t, m, head, regions, code, hooks, a);
    if op.trampoline == a {
      OwnMove(t, m, head, regions, code, hooks, op, a, k);
      StaysInTrampoline(t, m, head, regions, code, hooks, ops[1..], a, k);
      StaysInWindow(t, m, head, regions, code, hooks, ops[1..], a, k);
    } else {
      MissesTrampoline(t, m, head, regions, code, hooks, op, a, k);
      MissesWindow(t, m, head, regions, code, hooks, op, a, k);
      ThreadMoves(t, m, head, regions, code, hooks, ops[1..], a, k);
    }
  }

  /** A thread that has been moved is not moved any further. */
  lemma {:induction false} StaysMoved(t: Tables, m: seq<Byte>, head: Dword, regions: seq<Region>, code: seq<Byte>,
                                      hooks: seq<Hook>, ops: seq<Operation>, a: Dword, k: nat)
    requires WellFormed(t) && Sound(t, m, head, regions, code, hooks, 0) && Find(hooks, a).Some?
    requires k < Find(hooks, a).value.Size()
    requires OpsFound(ops, hooks) && DistinctOps(ops) && OpOf(ops, a).Some?
    ensures a + k < 0x1_0000_0000 && Find(hooks, a).value.target + k < 0x1_0000_0000
    ensures !OpOf(ops, a).value.isRemove ==> FixAll(m, ops, a + k) == a + k
    ensures OpOf(ops, a).value.isRemove ==>
              FixAll(m, ops, Find(hooks, a).value.target + k) == Find(hooks, a).value.target + k
    decreases |ops|
  {
    hide Sound, WellFormed, Find, FixOne;
    var op := ops[0];
    Places(t, m, head, regions, code, hooks, a);
    if op.trampoline == a {
      OwnMove(t, m, head, regions, code, hooks, op, a, k);
      if !op.isRemove {
        MissesTrampoline(t, m, head, regions, code, hooks, op, a, k);
      }
      StaysInTrampoline(t, m, head, regions, code, hooks, ops[1..], a, k);
      StaysInWindow(t, m, head, regions, code, hooks, ops[1..], a, k);
    } else {
      MissesTrampoline(t, m, head, regions, code, hooks, op, a, k);
      MissesWindow(t, m, head, regions, code, hooks, op, a, k);
      StaysMoved(t, m, head, regions, code, hooks, ops[1..], a, k);
    }
  }

  lemma {:induction false} SwitchedHook(hooks: seq<Hook>, ops: seq<Operation>, all: seq<Operation>, a: Dword)
    requires OpsFound(all, hooks)
    ensures Find(hooks, a).Some? <==> Find(SwitchAll(hooks, ops), a).Some?
    ensures Find(hooks, a).Some? ==>
              && Find(SwitchAll(hooks, ops), a).value.target == Find(hooks, a).value.target
              && Find(SwitchAll(hooks, ops), a).value.Size() == Find(hooks, a).value.Size()
    ensures OpsFound(all, SwitchAll(hooks, ops))
    decreases |ops|
  {
    if |ops| > 0 {
      var op := ops[0];
      FindSwitch(hooks, op.trampoline, !op.isRemove, a);
      FoundSwitched(all, hooks, op.trampoline, !op.isRemove);
      SwitchedHook(Switch(hooks, op.trampoline, !op.isRemove), ops[1..], all, a);
    }
  }

  /** What a commit in an orderly process does to a thread in the code or in the trampoline of the hook at `a`. */
  lemma CommitMoves(d: Detours, a: Dword, k: nat, x: Dword)
    requires d.Valid() && d.Orderly() && OpOf(d.operations, a).Some? && Find(d.hooks, a).Some?
    requires k < Find(d.hooks, a).value.Size()
    requires x == (if OpOf(d.operations, a).value.isRemove then a else Find(d.hooks, a).value.target) + k
    ensures FixAll(d.Carried().m, d.operations, x) ==
            if !OpOf(d.operations, a).value.isRemove then a + k
            else if k < SIZE_OF_POINTER then Find(d.hooks, a).value.target + k else a + k
  {
    hide Sound, WellFormed, Find, FixOne, OpsFound, DistinctOps, Matched, Detours.Valid, Detours.CanCommit,
      Detours.LeavesLists, Detours.Carried, OpOf, SwitchAll, FixAll;
    d.ValidPool();
    d.TidyCommits();
    SwitchedHook(d.hooks, d.operations, d.operations, a);
    ThreadMoves(d.tables, d.Carried().m, d.pool.head, d.pool.regions, d.code, SwitchAll(d.hooks, d.operations),
                d.operations, a, k);
  }

  /** No operation is about the place `x`: it is in no code that is being hooked, and not among the first four bytes of
      a trampoline that is being returned. */
  predicate Untouched(ops: seq<Operation>, hooks: seq<Hook>, x: int)
  {
    |ops| > 0 ==>
      && Untouched(ops[1..], hooks, x)
      && match Find(hooks, ops[0].trampoline)
         case None => false
         case Some(h) =>
           if ops[0].isRemove then x < h.trampoline || h.trampoline + 4 <= x
           else x < h.target || h.target + h.Size() <= x
  }

  lemma {:induction false} UntouchedStays(t: Tables, m: seq<Byte>, head: Dword, regions: seq<Region>, code: seq<Byte>,
                                          hooks: seq<Hook>, ops: seq<Operation>, x: Dword)
    requires WellFormed(t) && Sound(t, m, head, regions, code, hooks, 0) && OpsFound(ops, hooks)
    requires Untouched(ops, hooks, x)
    ensures FixAll(m, ops, x) == x
    decreases |ops|
  {
    hide Sound, WellFormed, Find, InPool, IsLive, WindowOutside, Covered;
    if |ops| > 0 {
      Places(t, m, head, regions, code, hooks, ops[0].trampoline);
      FindIs(hooks, ops[0].trampoline);
      assert FixOne(m, ops[0], x) == x;
      UntouchedStays(t, m, head, regions, code, hooks, ops[1..], x);
    }
  }

  lemma {:induction false} FindIs(hooks: seq<Hook>, a: Dword)
    ensures Find(hooks, a).Some? ==> Find(hooks, a).value.trampoline == a
  {
    if |hooks| > 0 {
      FindIs(hooks[1..], a);
    }
  }

  /** Any other thread goes on where it is. */
  lemma CommitLeaves(d: Detours, x: Dword)
    requires d.Valid() && d.Orderly() && Untouched(d.operations, d.hooks, x)
    ensures FixAll(d.Carried().m, d.operations, x) == x
  {
    hide Sound, WellFormed, Find, FixOne, OpsFound, DistinctOps, Matched, Detours.Valid, Detours.CanCommit,
      Detours.LeavesLists, Detours.Carried, OpOf, SwitchAll, FixAll, Untouched;
    d.ValidPool();
    d.TidyCommits();
    SwitchedHooks(d.hooks, d.operations, d.operations);
    SwitchedUntouched(d.hooks, d.operations, d.operations, x);
    UntouchedStays(d.tables, d.Carried().m, d.pool.head, d.pool.regions, d.code, SwitchAll(d.hooks, d.operations),
                   d.operations, x);
  }

  lemma SwitchedHooks(hooks: seq<Hook>, ops: seq<Operation>, all: seq<Operation>)
    requires OpsFound(all, hooks)
    ensures OpsFound(all, SwitchAll(hooks, ops))
  {
    hide OpsFound, SwitchAll, Find;
    SwitchedHook(hooks, ops, all, 0);
  }

  lemma {:induction false} SwitchedUntouched(hooks: seq<Hook>, ops: seq<Operation>, all: seq<Operation>, x: int)
    requires OpsFound(ops, hooks) && Untouched(ops, hooks, x)
    ensures Untouched(ops, SwitchAll(hooks, all), x)
    decreases |ops|
  {
    hide SwitchAll, Find;
    if |ops| > 0 {
      SwitchedHook(hooks, all, ops, ops[0].trampoline);
      FindIs(hooks, ops[0].trampoline);
      FindIs(SwitchAll(hooks, all), ops[0].trampoline);
      SwitchedUntouched(hooks, ops[1..], all, x);
    }
  }

  /** A thread that is listed more than once goes on where it would if it were listed once. */
  lemma CommitMovesOnce(d: Detours, a: Dword, k: nat, x: Dword, n: nat)
    requires d.Valid() && d.Orderly() && OpOf(d.operations, a).Some? && Find(d.hooks, a).Some?
    requires k < Find(d.hooks, a).value.Size() && n > 0
    requires x == (if OpOf(d.operations, a).value.isRemove then a else Find(d.hooks, a).value.target) + k
    ensures Times(d.Carried().m, d.operations, n, x) == FixAll(d.Carried().m, d.operations, x)
  {
    hide Sound, WellFormed, Find, FixOne, OpsFound, DistinctOps, Matched, Detours.Valid, Detours.CanCommit,
      Detours.LeavesLists, Detours.Carried, OpOf, SwitchAll, FixAll;
    d.ValidPool();
    d.TidyCommits();
    SwitchedHook(d.hooks, d.operations, d.operations, a);
    var m, hooks := d.Carried().m, SwitchAll(d.hooks, d.operations);
    ThreadMoves(d.tables, m, d.pool.head, d.pool.regions, d.code, hooks, d.operations, a, k);
    StaysMoved(d.tables, m, d.pool.head, d.pool.regions, d.code, hooks, d.operations, a, k);
    TimesStay(m, d.operations, n - 1, FixAll(m, d.operations, x));
  }

  lemma {:induction false} TimesStay(m: seq<Byte>, ops: seq<Operation>, n: nat, x: Dword)
    requires FixAll(m, ops, x) == x
    ensures Times(m, ops, n, x) == x
  {
    hide FixAll;
    if n > 0 {
      TimesStay(m, ops, n - 1, x);
    }
  }

  /** A thread is moved as often as it is listed, and no other is. */
  lemma {:induction false} ThreadsFixed(m: seq<Byte>, ops: seq<Operation>, threads: seq<int>, contexts: map<int, Dword>,
                                        thread: int)
    ensures thread in FixThreads(m, ops, threads, contexts) <==> thread in contexts
    ensures thread in contexts ==>
              FixThreads(m, ops, threads, contexts)[thread] ==
              Times(m, ops, multiset(threads)[thread], contexts[thread])
    decreases |threads|
  {
    hide FixAll;
    if |threads| > 0 {
      var now := if threads[0] in contexts then contexts[threads[0] := FixAll(m, ops, contexts[threads[0]])]
        else contexts;
      assert threads == [threads[0]] + threads[1..];
      ThreadsFixed(m, ops, threads[1..], now, thread);
    }
  }

  /** The trampoline at 0x20060 of the function at 0x401000 is returned: a thread at its fourth byte is moved to the
      function, one at its fifth byte goes on in the trampoline. */
  lemma FifthByteStays(m: seq<Byte>, pointer: int)
    ensures var ops := [Operation(true, pointer, 0x401000, 0x20060)];
            FixAll(m, ops, 0x20063) == 0x401003 && FixAll(m, ops, 0x20064) == 0x20064
  {
    var ops := [Operation(true, pointer, 0x401000, 0x20060)];
    assert ops[1..] == [];
    assert FixOne(m, ops[0], 0x20063) == 0x401003 && FixOne(m, ops[0], 0x20064) == 0x20064;
  }
}
