/** The hook transactions of loader_dll/detours/detours.cpp. */
module Hooks {
  import opened Bytes
  import opened Options
  import opened Disasm
  import opened Relocation
  import opened Trampolines
  import opened HookList
  import opened HookSteps
  import opened Pending
  import opened Patching
  import opened DoubleFree
  import opened Rollback
  import opened HookFacts
  import opened Carrying
  import opened ThreadFix

  const ERROR_INVALID_HANDLE := 6
  const ERROR_NOT_ENOUGH_MEMORY := 8
  const ERROR_INVALID_BLOCK := 9
  const ERROR_INVALID_OPERATION := 4317

  /** What the system answers while a hook is attached: whether there is memory for the operation,
      whether the jumps at the target and at the detour are imports, the region it can map (or 0), and
      whether the page of the target can be made writable. */
  datatype Answers = Answers(newOk: bool, targetImported: bool, detourImported: bool, grant: Dword, protectOk: bool,
                             protectError: int)

  /** An attach to `target` is given a trampoline exactly when there is one in reach; it was not in use. */
  ghost predicate TrampolineGiven(regions: seq<Region>, target: Dword, detour: Dword, sys: Answers, a: Dword)
  {
    && (a != 0 <==> target != detour && sys.newOk && HasRoom(regions, target, sys.grant))
    && (a != 0 ==> InReach(target, a) && !IsLive(regions, a))
  }

  class Detours {
    const tables: Tables
    const mem: array<Byte>
    const pool: TrampolinePool
    var ignoreTooSmall: bool          // s_fIgnoreTooSmall
    var owner: int                    // s_nPendingThreadId
    var error: int                    // s_nPendingError
    var failed: Option<int>           // s_ppPendingError
    var threads: seq<int>             // s_pPendingThreads
    var operations: seq<Operation>    // s_pPendingOperations
    var suspended: multiset<int>      // how often the system has suspended each thread
    var contexts: map<int, Dword>     // the instruction pointers of the threads whose context the system gives
    var pointers: map<int, Dword>     // the client's function pointers

    // What there was when the pending transaction began.
    ghost var began: seq<Byte>
    ghost var beganRegions: seq<Region>
    ghost var beganPointers: map<int, Dword>
    ghost var beganSuspended: multiset<int>

    ghost const code: seq<Byte>       // memory without any hook
    ghost var hooks: seq<Hook>

    constructor (tables: Tables, mem: array<Byte>, pointers: map<int, Dword>, contexts: map<int, Dword>)
      requires WellFormed(tables)
      ensures Valid() && Orderly()
      ensures this.tables == tables && this.mem == mem && this.pointers == pointers && this.contexts == contexts
      ensures hooks == [] && code == mem[..] && owner == 0 && operations == [] && fresh(pool) && pool.regions == []
      ensures suspended == multiset{}
    {
      this.tables, this.mem, this.pointers, this.contexts := tables, mem, pointers, contexts;
      pool := new TrampolinePool(mem);
      ignoreTooSmall, owner, error, failed := false, 0, NO_ERROR, None;
      threads, operations, suspended := [], [], multiset{};
      code, hooks := mem[..], [];
      beganSuspended := multiset{};
    }

    /** Whatever has been attached and detached: the lists of the pool are sound, and while a transaction is pending,
        nothing but the trampolines of its attaches has been taken, and nothing else has changed. */
    ghost predicate Valid()
      reads this, mem, pool
    {
      && pool.mem == mem && pool.Valid() && WellFormed(tables) && Balanced(beganSuspended, suspended, threads)
      && if owner == 0 then operations == [] else Pending(operations)
    }

    /** Since the transaction began, `ops` have become pending. */
    ghost predicate Pending(ops: seq<Operation>)
      reads this, mem, pool
    {
      && SinceBegin(began, beganRegions, mem[..], pool.regions, ops) && DistinctAttaches(ops)
      && pointers == beganPointers
    }

    /** The process is sound, with `spare` the trampoline that is being filled (0 when there is none). */
    ghost predicate Running(spare: Dword)
      reads this, mem, pool
      requires WellFormed(tables)
    {
      Sound(tables, mem[..], pool.head, pool.regions, code, hooks, spare)
    }

    /** All hooks are on plain code, and all operations are about hooks; an operation may be repeated. */
    ghost predicate Tidy()
      reads this, mem, pool
      requires WellFormed(tables)
    {
      Running(0) && OpsFound(operations, hooks)
    }

    /** No two operations are about the same hook, and each is due. */
    ghost predicate Orderly()
      reads this, mem, pool
      requires WellFormed(tables)
    {
      Tidy() && Matched(hooks, operations) && DistinctOps(operations)
    }

    // ---------------------------------------------------------------- beginning

    /** DetourTransactionBegin. */
    method Begin(caller: int) returns (r: int)
      requires Valid() && caller != 0
      modifies this`ignoreTooSmall, this`owner, this`error, this`failed, this`threads, this`operations, this`began,
               this`beganRegions, this`beganPointers, this`beganSuspended
      ensures Valid()
      ensures r == if old(owner) != 0 then ERROR_INVALID_OPERATION else NO_ERROR
      ensures r != NO_ERROR ==>
                && owner == old(owner) && error == old(error) && failed == old(failed) && threads == old(threads)
                && operations == old(operations) && ignoreTooSmall == old(ignoreTooSmall)
                && began == old(began) && beganRegions == old(beganRegions) && beganPointers == old(beganPointers)
                && beganSuspended == old(beganSuspended)
      ensures r == NO_ERROR ==>
                && owner == caller && error == NO_ERROR && failed == None && threads == [] && operations == []
                && !ignoreTooSmall
                && began == mem[..] && beganRegions == pool.regions && beganPointers == pointers
                && beganSuspended == suspended
    {
      hide Sound, RegionList, DistinctBases, HasBase, WellFormed, SinceBegin, DistinctAttaches, Balanced,
        TrampolinePool.Valid, Valid, Pending;
      if owner != 0 {
        return ERROR_INVALID_OPERATION;
      }
      ValidPool();
      owner := caller;
      ignoreTooSmall, operations, threads, error, failed := false, [], [], NO_ERROR, None;
      began, beganRegions, beganPointers, beganSuspended := mem[..], pool.regions, pointers, suspended;
      NothingPending();
      return NO_ERROR;
    }

    lemma ValidPool()
      requires Valid()
      ensures pool.mem == mem && pool.Valid() && WellFormed(tables)
    {
      hide RegionList, DistinctBases, HasBase, WellFormed, Pending, Balanced;
    }

    /** A transaction that has just begun. */
    lemma NothingPending()
      requires pool.mem == mem && pool.Valid() && WellFormed(tables) && owner != 0 && operations == [] && threads == []
      requires began == mem[..] && beganRegions == pool.regions && beganPointers == pointers
      requires beganSuspended == suspended
      ensures Valid()
    {
      hide RegionList, DistinctBases, HasBase, WellFormed, SinceBegin;
      AtBegin(mem[..], pool.head, pool.regions);
    }

    /** DetourSetIgnoreTooSmall. */
    method SetIgnoreTooSmall(ignore: bool)
      requires Valid()
      modifies this`ignoreTooSmall
      ensures Valid() && ignoreTooSmall == ignore
    {
      hide Sound, RegionList, DistinctBases, HasBase, WellFormed, SinceBegin;
      ignoreTooSmall := ignore;
    }

    /** DetourUpdateThread; `self` tells whether the thread is the caller's own. */
    method UpdateThread(thread: int, self: bool, newOk: bool, suspendOk: bool, suspendError: int) returns (r: int)
      requires Valid()
      modifies this`error, this`failed, this`threads, this`suspended
      ensures Valid()
      ensures r == if old(error) != NO_ERROR then old(error) else if self then NO_ERROR
                   else if !newOk then ERROR_NOT_ENOUGH_MEMORY else if !suspendOk then suspendError else NO_ERROR
      ensures old(error) != NO_ERROR || self ==> error == old(error) && failed == old(failed)
      ensures old(error) == NO_ERROR && !self ==>
                error == r && failed == if newOk && suspendOk then old(failed) else None
      ensures if old(error) == NO_ERROR && !self && newOk && suspendOk
              then threads == [thread] + old(threads) && suspended == old(suspended) + multiset{thread}
              else threads == old(threads) && suspended == old(suspended)
    {
      hide Sound, RegionList, DistinctBases, HasBase, WellFormed, SinceBegin, DistinctAttaches, Balanced;
      if error != NO_ERROR {
        return error;
      }
      if self {
        return NO_ERROR;
      }
      if !newOk {
        error, failed := ERROR_NOT_ENOUGH_MEMORY, None;
        return error;
      }
      if !suspendOk {
        error, failed := suspendError, None;
        return error;
      }
      OneSuspended(beganSuspended, suspended, threads, thread);
      suspended, threads := suspended + multiset{thread}, [thread] + threads;
      return NO_ERROR;
    }

    /** The end of a transaction: every thread in the list runs again. */
    method ResumeThreads()
      requires Balanced(beganSuspended, suspended, threads)
      modifies this`threads, this`suspended
      ensures threads == [] && suspended == beganSuspended && Balanced(beganSuspended, suspended, threads)
    {
      while threads != []
        invariant Balanced(beganSuspended, suspended, threads)
        decreases |threads|
      {
        var thread := threads[0];
        assert threads == [thread] + threads[1..];
        suspended := suspended - multiset{thread};
        threads := threads[1..];
      }
    }

    // ---------------------------------------------------------------- aborting

    /** DetourTransactionAbort: the pending attaches are undone, the pending detaches forgotten.  Whatever was attached
        and detached, all is as it was when the transaction began. */
    method Abort(caller: int) returns (r: int)
      requires Valid() && caller != 0
      modifies this`owner, this`operations, this`threads, this`suspended, this`hooks, mem, pool`regions
      ensures Valid()
      ensures r == if caller != old(owner) then ERROR_INVALID_OPERATION else NO_ERROR
      ensures r != NO_ERROR ==>
                && owner == old(owner) && operations == old(operations) && threads == old(threads)
                && suspended == old(suspended)
                && hooks == old(hooks) && mem[..] == old(mem[..]) && pool.regions == old(pool.regions)
      ensures r == NO_ERROR ==>
                && owner == 0 && operations == [] && threads == [] && suspended == beganSuspended
                && pointers == beganPointers
                && SinceBegin(began, beganRegions, mem[..], pool.regions, [])
                && mem[..] == ReturnedAll(old(mem[..]), Attaches(old(operations)))
                && pool.regions == FreeAll(old(pool.regions), Attaches(old(operations)))
      ensures r == NO_ERROR && old(Orderly()) ==> Orderly() && hooks == OnOnly(old(hooks))
    {
      hide Sound, RegionList, DistinctBases, HasBase, WellFormed, Matched, OpsFound, DistinctOps, OnOnly, SinceBegin,
        ReturnedAll, FreeAll, Attaches, Balanced, DistinctAttaches, WithoutAll;
      if owner != caller {
        return ERROR_INVALID_OPERATION;
      }
      ghost var m, regions, all, ops := mem[..], pool.regions, hooks, operations;
      DropOperations();
      hooks := WithoutAll(hooks, Attaches(ops));
      if old(Orderly()) {
        OrderlyAborted(tables, m, pool.head, regions, code, all, ops);
      }
      ResumeThreads();
      owner := 0;
      return NO_ERROR;
    }

    /** The loop of an abort over the pending operations. */
    method DropOperations()
      requires Valid() && owner != 0
      modifies this`operations, mem, pool`regions
      ensures pool.Valid() && operations == [] && SinceBegin(began, beganRegions, mem[..], pool.regions, [])
      ensures mem[..] == ReturnedAll(old(mem[..]), Attaches(old(operations)))
      ensures pool.regions == FreeAll(old(pool.regions), Attaches(old(operations)))
    {
      hide RegionList, DistinctBases, HasBase, WellFormed, SinceBegin, GivenBack, AfterFree, IsLive, Inside, Mask;
      ghost var m, regions, ops := mem[..], pool.regions, operations;
      while operations != []
        invariant pool.Valid() && SinceBegin(began, beganRegions, mem[..], pool.regions, operations)
        invariant DistinctAttaches(operations)
        invariant ReturnedAll(mem[..], Attaches(operations)) == ReturnedAll(m, Attaches(ops))
        invariant FreeAll(pool.regions, Attaches(operations)) == FreeAll(regions, Attaches(ops))
        decreases |operations|
      {
        var op := operations[0];
        if !op.isRemove {
          SinceDropped(began, beganRegions, mem[..], pool.head, pool.regions, operations, op.trampoline);
          GivenBackIs(mem[..], op.trampoline);
          FirstAttach(operations);
          pool.Free(op.trampoline);
        } else {
          SinceSkipped(began, beganRegions, mem[..], pool.regions, operations);
          FirstRemove(operations);
        }
        operations := operations[1..];
      }
      assert operations == [];
    }

    // ---------------------------------------------------------------- committing

    /** The operations that are about to be carried out stay in memory, and the trampolines of detaches lie in
        regions. */
    ghost predicate CanCommit()
      reads this, mem
      requires WellFormed(tables)
    {
      CanCarryAll(tables, Progress(mem[..], error, failed), operations) && AllInside(mem.Length, Removes(operations))
    }

    /** The first loop of a commit as it would go now. */
    ghost function Carried(): Progress
      reads this, mem
      requires WellFormed(tables)
    {
      CarryAll(tables, Progress(mem[..], error, failed), operations)
    }

    /** The first loop leaves the lists of the pool alone, and the detaches are of trampolines in use. */
    ghost predicate LeavesLists()
      reads this, mem, pool
      requires WellFormed(tables)
    {
      RegionList(Carried().m, pool.head, pool.regions) && AllLive(pool.regions, Removes(operations))
    }

    /** Operations about hooks can be committed, and the writes to their code leave the pool alone. */
    lemma TidyCommits()
      requires Valid() && Tidy()
      ensures CanCommit() && LeavesLists() && Carried().error == error && Carried().failed == failed
      ensures Sound(tables, Carried().m, pool.head, pool.regions, code, SwitchAll(hooks, operations), 0)
    {
      hide Sound, RegionList, DistinctBases, HasBase, WellFormed, OpsFound, SinceBegin, CarryAll, CanCarryAll, AllLive,
        AllInside, SwitchAll;
      var p := Progress(mem[..], error, failed);
      SoundCarryAll(tables, p, pool.head, pool.regions, code, hooks, operations);
      FoundLive(tables, mem[..], pool.head, pool.regions, code, hooks, operations);
      SoundParts(tables, Carried().m, pool.head, pool.regions, code, SwitchAll(hooks, operations), 0);
    }

    /** DetourTransactionCommitEx.  `where` is *pppFailedPointer.  With a pending error it is an abort; otherwise every
        operation is carried out, and the pool is sound afterwards if and only if no trampoline was detached twice. */
    method Commit(caller: int) returns (r: int, where: Option<int>)
      requires Valid() && caller != 0 && (caller == owner && error == NO_ERROR ==> CanCommit())
      modifies this`owner, this`operations, this`threads, this`suspended, this`contexts, this`pointers, this`hooks,
               this`error, this`failed, mem, pool`regions
      ensures caller != old(owner) ==>
                && r == ERROR_INVALID_OPERATION && where == old(failed) && Valid()
                && owner == old(owner) && operations == old(operations) && threads == old(threads)
                && suspended == old(suspended)
                && hooks == old(hooks) && pointers == old(pointers) && mem[..] == old(mem[..])
                && pool.regions == old(pool.regions)
                && contexts == old(contexts) && error == old(error) && failed == old(failed)
      ensures caller == old(owner) ==> owner == 0 && operations == [] && threads == [] && suspended == beganSuspended
      ensures caller == old(owner) && old(error) != NO_ERROR ==>
                && r == error == old(error) && where == failed == old(failed) && Valid()
                && pointers == old(pointers) == beganPointers && contexts == old(contexts)
                && SinceBegin(began, beganRegions, mem[..], pool.regions, [])
                && mem[..] == ReturnedAll(old(mem[..]), Attaches(old(operations)))
                && pool.regions == FreeAll(old(pool.regions), Attaches(old(operations)))
                && (old(Orderly()) ==> Orderly() && hooks == OnOnly(old(hooks)))
      ensures caller == old(owner) && old(error) == NO_ERROR ==> r == error && where == failed && CarriedOut()
      ensures caller == old(owner) && old(error) == NO_ERROR && old(LeavesLists()) ==>
                && (NoRepeats(Removes(old(operations))) <==> Valid())
                && (NoRepeats(Removes(old(operations))) <==> exists rs :: RegionList(mem[..], pool.head, rs))
      ensures caller == old(owner) && old(error) == NO_ERROR && old(Orderly()) ==>
                && Valid() && Orderly() && r == NO_ERROR && where == old(failed)
                && hooks == Committed(old(hooks), old(operations)) && AllOn(hooks)
    {
      hide Sound, RegionList, DistinctBases, HasBase, WellFormed, Matched, OpsFound, DistinctOps, OnOnly, SinceBegin,
        ReturnedAll, FreeAll, Attaches, DistinctAttaches, Removes, AllLive, AllInside, NoRepeats, CarryAll, CanCarryAll,
        Committed, AllOn, Balanced, LeavesLists, CarriedOut;
      where := failed;
      if owner != caller {
        return ERROR_INVALID_OPERATION, where;
      }
      if error != NO_ERROR {
        var _ := Abort(caller);
        return error, where;
      }
      CommitOperations();
      return error, failed;
    }

    /** The operations have been carried out, the threads moved, the trampolines of the detaches returned. */
    twostate predicate CarriedOut()
      requires WellFormed(tables)
      reads this, mem, pool
    {
      && error == old(Carried()).error && failed == old(Carried()).failed
      && mem[..] == ReturnedAll(old(Carried()).m, Removes(old(operations)))
      && pool.regions == FreeAll(old(pool.regions), Removes(old(operations)))
      && pointers == Repointed(old(pointers), old(operations))
      && contexts == FixThreads(old(Carried()).m, old(operations), old(threads), old(contexts))
    }

    /** A commit without a pending error. */
    method CommitOperations()
      requires Valid() && owner != 0 && error == NO_ERROR && CanCommit()
      modifies this`owner, this`operations, this`threads, this`suspended, this`contexts, this`pointers, this`hooks,
               this`error, this`failed, mem, pool`regions
      ensures owner == 0 && operations == [] && threads == [] && suspended == beganSuspended && CarriedOut()
      ensures old(LeavesLists()) ==>
                && (NoRepeats(Removes(old(operations))) <==> Valid())
                && (NoRepeats(Removes(old(operations))) <==> exists rs :: RegionList(mem[..], pool.head, rs))
      ensures old(Orderly()) ==>
                && Valid() && Orderly() && error == NO_ERROR && failed == old(failed)
                && hooks == Committed(old(hooks), old(operations)) && AllOn(hooks)
    {
      hide Sound, RegionList, DistinctBases, HasBase, WellFormed, Matched, OpsFound, DistinctOps, SinceBegin,
        ReturnedAll, FreeAll, DistinctAttaches, Removes, AllLive, AllInside, NoRepeats, CarryAll, CanCarryAll,
        Committed, AllOn, Repointed, FixThreads, SwitchAll, Balanced;
      ghost var m, regions, ops, all := mem[..], pool.regions, operations, hooks;
      ghost var p := Carried();
      if Tidy() {
        TidyCommits();
      }
      CarryOut();
      hooks := Committed(all, ops);
      if old(LeavesLists()) {
        PoolIffNoRepeats(p.m, mem[..], pool.head, regions, Removes(ops), pool.current);
      }
      if old(Orderly()) {
        OrderlyCommitted(tables, m, p.m, pool.head, regions, code, all, ops);
      }
      ResumeThreads();
      owner := 0;
    }

    /** The loops of a commit over the operations and the threads. */
    method CarryOut()
      requires pool.mem == mem && WellFormed(tables) && CanCommit()
      modifies this`operations, this`contexts, this`pointers, this`error, this`failed, mem, pool`regions
      ensures CarriedOut() && operations == []
    {
      hide WellFormed, ReturnedAll, FreeAll, Removes, AllInside, CarryAll, CanCarryAll, Repointed, FixThreads;
      WriteOperations();
      MoveThreads();
      FreeRemoved();
    }

    /** The first loop of a commit: write the jumps of the attaches, and copy the code of the detaches back. */
    method WriteOperations()
      requires WellFormed(tables) && CanCarryAll(tables, Progress(mem[..], error, failed), operations)
      modifies this`pointers, this`error, this`failed, mem
      ensures Progress(mem[..], error, failed) ==
                CarryAll(tables, Progress(old(mem[..]), old(error), old(failed)), operations)
      ensures pointers == Repointed(old(pointers), operations)
    {
      hide WellFormed, CanCarry, CarryOne, CanCarryAll, CarryAll;
      ghost var p := Progress(mem[..], error, failed);
      var rest := operations;
      while rest != []
        invariant CanCarryAll(tables, Progress(mem[..], error, failed), rest)
        invariant CarryAll(tables, Progress(mem[..], error, failed), rest) == CarryAll(tables, p, operations)
        invariant Repointed(pointers, rest) == Repointed(old(pointers), operations)
        decreases |rest|
      {
        var op := rest[0];
        CarryNext(tables, Progress(mem[..], error, failed), rest);
        if op.isRemove {
          WriteBack(op);
        } else {
          WriteOver(op);
        }
        rest := rest[1..];
      }
      assert rest == [];
      CarryNone(tables, Progress(mem[..], error, failed));
    }

    /** A commit comes to a detach. */
    method WriteBack(op: Operation)
      requires WellFormed(tables) && op.isRemove && CanCarry(tables, mem[..], op)
      modifies this`pointers, this`error, this`failed, mem
      ensures Progress(mem[..], error, failed) == CarryOne(tables, Progress(old(mem[..]), old(error), old(failed)), op)
      ensures pointers == old(pointers)[op.pointer := op.target]
    {
      hide WellFormed, CanCarry, CarryOne, CanRestore, Restored;
      CarriedRemove(tables, Progress(mem[..], error, failed), op);
      var n := RestoreCode(tables, mem, op.target, op.trampoline);
      if n != mem[op.trampoline + 23] {
        error, failed := ERROR_INVALID_DATA, Some(op.pointer);
      }
      pointers := pointers[op.pointer := op.target];
    }

    /** A commit comes to an attach. */
    method WriteOver(op: Operation)
      requires WellFormed(tables) && !op.isRemove && CanCarry(tables, mem[..], op)
      modifies this`pointers, mem
      ensures Progress(mem[..], error, failed) == CarryOne(tables, Progress(old(mem[..]), error, failed), op)
      ensures pointers == old(pointers)[op.pointer := op.trampoline]
    {
      hide WellFormed, CanCarry, CarryOne, CanJump, Jumped;
      CarriedAttach(tables, Progress(mem[..], error, failed), op);
      WriteJump(mem, op.target, op.trampoline);
      pointers := pointers[op.pointer := op.trampoline];
    }

    /** The loop of a commit over the suspended threads. */
    method MoveThreads()
      modifies this`contexts
      ensures contexts == FixThreads(mem[..], operations, threads, old(contexts))
    {
      hide FixOne;
      var rest := threads;
      while rest != []
        invariant FixThreads(mem[..], operations, rest, contexts) ==
                    FixThreads(mem[..], operations, threads, old(contexts))
        decreases |rest|
      {
        if rest[0] in contexts {
          var ip := MoveThread(contexts[rest[0]]);
          contexts := contexts[rest[0] := ip];
        }
        rest := rest[1..];
      }
      assert rest == [];
    }

    method MoveThread(from: Dword) returns (ip: Dword)
      ensures ip == FixAll(mem[..], operations, from)
    {
      ip := from;
      var rest := operations;
      while rest != []
        invariant FixAll(mem[..], rest, ip) == FixAll(mem[..], operations, from)
        decreases |rest|
      {
        var op := rest[0];
        if op.isRemove {
          if op.trampoline <= ip < Wrap(op.trampoline + SIZE_OF_POINTER) {
            ip := Wrap(ip - op.trampoline + op.target);
          }
        } else {
          var size := if op.trampoline + 32 <= mem.Length then mem[op.trampoline + 23] as nat else 0;
          if op.target <= ip < Wrap(op.target + size) {
            ip := Wrap(ip - op.target + op.trampoline);
          }
        }
        rest := rest[1..];
      }
      assert rest == [];
    }

    /** The last loop of a commit over the operations: the trampolines of the detaches go back to the pool. */
    method FreeRemoved()
      requires pool.mem == mem && AllInside(mem.Length, Removes(operations))
      modifies this`operations, mem, pool`regions
      ensures operations == [] && mem[..] == ReturnedAll(old(mem[..]), Removes(old(operations)))
      ensures pool.regions == FreeAll(old(pool.regions), Removes(old(operations)))
    {
      hide GivenBack, AfterFree, Inside, Mask;
      ghost var m, regions, ops := mem[..], pool.regions, operations;
      while operations != []
        invariant AllInside(mem.Length, Removes(operations))
        invariant ReturnedAll(mem[..], Removes(operations)) == ReturnedAll(m, Removes(ops))
        invariant FreeAll(pool.regions, Removes(operations)) == FreeAll(regions, Removes(ops))
        decreases |operations|
      {
        var op := operations[0];
        if op.isRemove {
          FirstRemove(operations);
          GivenBackIs(mem[..], op.trampoline);
          pool.Return(op.trampoline);
        } else {
          FirstAttach(operations);
        }
        operations := operations[1..];
      }
      assert operations == [];
    }

    // ---------------------------------------------------------------- attaching

    /** The checks that come first in DetourAttachEx and DetourDetach; None lets the call go on. */
    function Refusal(caller: int, pointer: Option<int>): Option<int>
      reads this
      requires pointer.Some? ==> pointer.value in pointers
    {
      if owner != caller then Some(ERROR_INVALID_OPERATION)
      else if error != NO_ERROR then Some(error)
      else if pointer.None? || pointers[pointer.value] == 0 then Some(ERROR_INVALID_HANDLE)
      else None
    }

    /** What an attach through `pointer` needs of memory: the code to be moved is `w`. */
    ghost predicate CanAttach(pointer: Option<int>, detour: Dword, sys: Answers, w: seq<Byte>, tail: seq<Byte>)
      reads this, mem, pool
      requires WellFormed(tables)
    {
      pointer.Some? ==>
        && pointer.value in pointers
        && (pointers[pointer.value] != 0 ==>
              && CanSkip(mem[..], pointers[pointer.value], sys.targetImported)
              && CanSkip(mem[..], detour, sys.detourImported)
              && Attachable(tables, mem[..], pool.regions,
                            SkipJmp(mem[..], pointers[pointer.value], sys.targetImported),
                            w, tail, sys.grant))
    }

    /** What becomes of an attach to `target`: `a` is the trampoline it was given, or 0. */
    ghost function Verdict(target: Dword, detour: Dword, sys: Answers, w: seq<Byte>, tail: seq<Byte>, a: Dword): int
      requires WellFormed(tables) && |tail| == 2
      reads this
    {
      if target == detour then NO_ERROR
      else if !sys.newOk || a == 0 then ERROR_NOT_ENOUGH_MEMORY
      else
        var n := Movable(tables, w, tail, a - target, 0);
        if n < SIZE_OF_JMP then ERROR_INVALID_BLOCK
        else if n > CODE_SIZE - SIZE_OF_JMP then ERROR_INVALID_HANDLE
        else if !sys.protectOk then sys.protectError
        else NO_ERROR
    }

    ghost predicate Succeeds(target: Dword, detour: Dword, sys: Answers, w: seq<Byte>, tail: seq<Byte>, a: Dword)
      requires WellFormed(tables) && |tail| == 2
      reads this
    {
      && target != detour && sys.newOk && a != 0 && sys.protectOk
      && SIZE_OF_JMP <= Movable(tables, w, tail, a - target, 0) <= CODE_SIZE - SIZE_OF_JMP
    }

    /** The system's new region does not hold the code of a hook. */
    ghost predicate GrantFine(grant: Dword)
      reads this
    {
      grant != 0 ==> GrantApart(hooks, grant)
    }

    /** The latest hook was attached to plain code. */
    ghost predicate PlainAttach(before: seq<Hook>, regions: seq<Region>, w: seq<Byte>, tail: seq<Byte>)
      reads this
      requires WellFormed(tables)
    {
      hooks != [] && Plain(tables, regions, before, hooks[0].target, w, tail)
    }

    /** What an attach to `target` comes to, with the trampoline `a`, or 0 when it was given none. */
    twostate predicate AttachedTo(pointer: int, target: Dword, d: Dword, sys: Answers, w: seq<Byte>, tail: seq<Byte>,
                                  r: int, a: Dword)
      requires WellFormed(tables)
      reads this, mem, pool
    {
      && |tail| == 2 && r == Verdict(target, d, sys, w, tail, a)
      && TrampolineGiven(old(pool.regions), target, d, sys, a)
      && if Succeeds(target, d, sys, w, tail, a)
         then && error == NO_ERROR && failed == old(failed)
              && operations == [Operation(false, pointer, target, a)] + old(operations)
              && hooks == [Hook(a, target, w, d, false)] + old(hooks)
              && pool.regions == AfterTake(Mapped(old(pool.regions), target, sys.grant), Mask(a))
              && SinceBegin(old(mem[..]), old(pool.regions), mem[..], pool.regions,
                            [Operation(false, pointer, target, a)])
              && a + 32 <= mem.Length && TrampolineFor(tables, mem[a..a + 32], Hook(a, target, w, d, false))
         else && operations == old(operations) && hooks == old(hooks) && failed == Some(pointer)
              && SinceBegin(old(mem[..]), old(pool.regions), mem[..], pool.regions, [])
              && error == if ignoreTooSmall && r == ERROR_INVALID_BLOCK && sys.newOk && a != 0 && target != d
                             && Movable(tables, w, tail, a - target, 0) < SIZE_OF_JMP then NO_ERROR else r
    }

    /** DetourAttachEx: `a` is the trampoline it was given, or 0.  The code may be of any kind, hooked already or
        pending; an attach to plain code keeps the process sound. */
    method Attach(caller: int, pointer: Option<int>, detour: Dword, sys: Answers, ghost w: seq<Byte>,
                  ghost tail: seq<Byte>)
      returns (r: int, ghost a: Dword)
      requires Valid() && caller != 0 && CanAttach(pointer, detour, sys, w, tail)
      modifies this`error, this`failed, this`operations, this`hooks, mem, pool
      ensures Valid() && Covers(pool.regions, old(pool.regions), sys.grant)
      ensures old(Refusal(caller, pointer)).Some? ==>
                && r == old(Refusal(caller, pointer)).value && operations == old(operations) && hooks == old(hooks)
                && mem[..] == old(mem[..]) && pool.regions == old(pool.regions) && pool.head == old(pool.head)
                && var unset := old(owner) == caller && old(error) == NO_ERROR && pointer.Some?;
                   error == (if unset then r else old(error)) && failed == (if unset then pointer else old(failed))
      ensures old(Refusal(caller, pointer)).None? ==>
                AttachedTo(pointer.value, SkipJmp(old(mem[..]), pointers[pointer.value], sys.targetImported),
                           SkipJmp(old(mem[..]), detour, sys.detourImported), sys, w, tail, r, a)
      ensures old(Tidy()) && old(GrantFine(sys.grant))
                && (hooks == old(hooks) || PlainAttach(old(hooks), old(pool.regions), w, tail)) ==>
                Tidy() && (old(Orderly()) ==> Orderly())
    {
      hide Sound, RegionList, DistinctBases, HasBase, WellFormed, Matched, OpsFound, DistinctOps, Attachable, CanSkip,
        SkipJmp, Covers, SinceBegin, DistinctAttaches, IsLive, TrampolineFor, Plain, GrantApart, Balanced, AttachedTo;
      a := 0;
      NothingChanged(mem[..], pool.head, pool.regions, sys.grant);
      if owner != caller {
        return ERROR_INVALID_OPERATION, 0;
      }
      if error != NO_ERROR {
        return error, 0;
      }
      if pointer.None? {
        return ERROR_INVALID_HANDLE, 0;
      }
      if pointers[pointer.value] == 0 {
        error, failed := ERROR_INVALID_HANDLE, pointer;
        return ERROR_INVALID_HANDLE, 0;
      }
      var target := SkipJmp(mem[..], pointers[pointer.value], sys.targetImported);
      var d := SkipJmp(mem[..], detour, sys.detourImported);
      r, a := AttachCode(pointer.value, target, d, sys, w, tail);
    }

    /** DetourAttachEx once its pointers are resolved. */
    method AttachCode(pointer: int, target: Dword, d: Dword, sys: Answers, ghost w: seq<Byte>, ghost tail: seq<Byte>)
      returns (r: int, ghost a: Dword)
      requires Valid() && owner != 0 && error == NO_ERROR
      requires Attachable(tables, mem[..], pool.regions, target, w, tail, sys.grant)
      modifies this`error, this`failed, this`operations, this`hooks, mem, pool
      ensures Valid() && Covers(pool.regions, old(pool.regions), sys.grant)
      ensures AttachedTo(pointer, target, d, sys, w, tail, r, a)
      ensures old(Tidy()) && old(GrantFine(sys.grant))
                && (hooks == old(hooks) || PlainAttach(old(hooks), old(pool.regions), w, tail)) ==>
                Tidy() && (old(Orderly()) ==> Orderly())
    {
      hide Sound, RegionList, DistinctBases, HasBase, WellFormed, Matched, OpsFound, DistinctOps, Attachable, Movable,
        InReach, Covers, HasRoom, Mapped, AfterTake, SinceBegin, DistinctAttaches, IsLive, TrampolineFor, Plain,
        GrantApart, Balanced;
      AttachableParts(tables, mem[..], pool.regions, target, w, tail, sys.grant);
      NothingChanged(mem[..], pool.head, pool.regions, sys.grant);
      if target == d {
        r := NO_ERROR;
        if !ignoreTooSmall {
          error := r;
        }
        failed := Some(pointer);
        return r, 0;
      }
      if !sys.newOk {
        error, failed := ERROR_NOT_ENOUGH_MEMORY, Some(pointer);
        return error, 0;
      }
      r, a := AttachTo(pointer, target, d, sys, w, tail);
    }

    /** DetourAttachEx from the allocation of the trampoline on. */
    method AttachTo(pointer: int, target: Dword, detour: Dword, sys: Answers, ghost w: seq<Byte>, ghost tail: seq<Byte>)
      returns (r: int, ghost a: Dword)
      requires Valid() && owner != 0 && error == NO_ERROR && target != detour && sys.newOk
      requires Attachable(tables, mem[..], pool.regions, target, w, tail, sys.grant)
      modifies this`error, this`failed, this`operations, this`hooks, mem, pool
      ensures Valid() && Covers(pool.regions, old(pool.regions), sys.grant)
      ensures AttachedTo(pointer, target, detour, sys, w, tail, r, a)
      ensures old(Tidy()) && old(GrantFine(sys.grant))
                && (hooks == old(hooks) || PlainAttach(old(hooks), old(pool.regions), w, tail)) ==>
                Tidy() && (old(Orderly()) ==> Orderly())
    {
      hide Sound, RegionList, DistinctBases, HasBase, WellFormed, Matched, OpsFound, DistinctOps, Attachable,
        WindowOutside, Clear, Movable, InReach, Find, IsLive, Covers, Placed, OnlySlot, Window, HasRoom, Mapped,
        SinceBegin, DistinctAttaches, TrampolineFor, Plain, GrantApart, Brks, AfterFree, GivenBack, Balanced, Mask,
        AfterTake;
      ghost var m, regions, ops := mem[..], pool.regions, operations;
      AttachableParts(tables, m, regions, target, w, tail, sys.grant);
      var t := TakeTrampoline(pointer, target, sys.grant, w, tail);
      a := t;
      if t == 0 {
        error, failed := ERROR_NOT_ENOUGH_MEMORY, Some(pointer);
        SinceMore(began, beganRegions, m, regions, ops, mem[..], pool.regions, [], sys.grant);
        return error, 0;
      }
      ghost var grown, taken := pool.regions, mem[..];
      var op := Operation(false, pointer, target, t);
      var n;
      LiveRoom(taken, pool.head, grown, t);
      r, n := BuildTrampoline(target, t, detour, w, tail);
      ghost var built, head := mem[..], pool.head;
      SlotKeepsLists(taken, built, head, grown, t);
      if old(Tidy()) && old(GrantFine(sys.grant)) {
        SoundSlot(tables, taken, built, head, grown, code, hooks, t);
      }
      SlotTaken(m, regions, taken, head, grown, built, op);
      r := Settle(op, detour, sys, r, n, w, tail);
      ghost var h := Hook(t, target, w, detour, false);
      if operations == ops {
        CoversFree(grown, t);
        CoversTrans(pool.regions, grown, regions, sys.grant);
        SinceReturned(m, regions, built, head, grown, op, mem[..], pool.regions);
        SinceMore(began, beganRegions, m, regions, ops, mem[..], pool.regions, [], sys.grant);
        if old(Tidy()) && old(GrantFine(sys.grant)) {
          SoundReleased(tables, built, head, grown, code, hooks, t, mem[..], pool.regions);
        }
      } else {
        SinceMore(began, beganRegions, m, regions, ops, mem[..], pool.regions, [op], sys.grant);
        if old(Tidy()) && old(GrantFine(sys.grant)) && PlainAttach(old(hooks), regions, w, tail) {
          HookPending(tables, mem[..], pool.head, regions, pool.regions, code, old(hooks), h, op, ops, w, tail);
        }
      }
    }

    /** The new trampoline, filled with int 3; 0 when the pool has none in reach. */
    method TakeTrampoline(ghost pointer: int, target: Dword, grant: Dword, ghost w: seq<Byte>, ghost tail: seq<Byte>)
      returns (t: Dword)
      requires pool.mem == mem && pool.Valid() && WellFormed(tables)
      requires Attachable(tables, mem[..], pool.regions, target, w, tail, grant)
      modifies mem, pool
      ensures pool.Valid() && Covers(pool.regions, old(pool.regions), grant)
      ensures t != 0 <==> HasRoom(old(pool.regions), target, grant)
      ensures t == 0 ==>
                && SinceBegin(old(mem[..]), old(pool.regions), mem[..], pool.regions, [])
      ensures t != 0 ==> pool.regions == AfterTake(Mapped(old(pool.regions), target, grant), Mask(t))
      ensures t != 0 ==>
                && InReach(target, t) && IsLive(pool.regions, t) && !IsLive(old(pool.regions), t)
                && Placed(mem[..], t, target, w, tail) && mem[t..t + 32] == Brks(32)
                && SinceBegin(old(mem[..]), old(pool.regions), mem[..], pool.regions,
                              [Operation(false, pointer, target, t)])
                && (WindowOutside(old(pool.regions), Ahead(target, w, tail)) ==>
                    WindowOutside(pool.regions, Ahead(target, w, tail)))
      ensures old(Running(0)) && old(GrantFine(grant)) ==> Running(t) && (t != 0 ==> Find(hooks, t).None?)
    {
      hide Sound, RegionList, DistinctBases, HasBase, WellFormed, InReach, HasRoom, Mapped, Find, IsLive, Covers,
        Placed, Taken, AfterTake, Grown, FreeAt, FreeOf, Mask, Inside, WindowOutside, GrantApart, Window, Attachable,
        SinceBegin, Slots, Brks;
      ghost var m, head, regions := mem[..], pool.head, pool.regions;
      ghost var mid, midRegions;
      AttachableParts(tables, m, regions, target, w, tail, grant);
      t, mid, midRegions := pool.Alloc(target, grant);
      ghost var op := Operation(false, pointer, target, t);
      if t == 0 {
        NothingTaken(m, head, regions, mem[..], pool.regions, grant);
        if old(Running(0)) && old(GrantFine(grant)) {
          NotAllocated(tables, m, head, regions, mem[..], pool.head, pool.regions, grant, code, hooks);
        }
      } else {
        Allocated(tables, m, head, regions, mid, pool.head, midRegions, grant, op, target, w, tail, mem[..],
                  pool.regions);
        if WindowOutside(regions, Ahead(target, w, tail)) {
          AllocatedOutside(m, regions, mid, midRegions, grant, t, Ahead(target, w, tail));
        }
        if old(Running(0)) && old(GrantFine(grant)) {
          AllocatedSound(tables, m, head, regions, mid, pool.head, midRegions, grant, code, hooks, t, mem[..],
                         pool.regions);
        }
      }
    }

    /** Move the code into the trampoline and fill in the rest. */
    method BuildTrampoline(target: Dword, t: Dword, detour: Dword, ghost w: seq<Byte>, ghost tail: seq<Byte>)
      returns (r: int, n: nat)
      requires WellFormed(tables) && Placed(mem[..], t, target, w, tail) && t + 32 <= mem.Length
      requires mem[t..t + 32] == Brks(32)
      requires Window(tables, w, 0) && target + |w| < 0x1_0000_0000 && t + 32 <= 0x1_0000_0000
      modifies mem
      ensures OnlySlot(old(mem[..]), mem[..], t) && n == Movable(tables, w, tail, t - target, 0)
      ensures r == if n < SIZE_OF_JMP then ERROR_INVALID_BLOCK else if n > CODE_SIZE - SIZE_OF_JMP
                then ERROR_INVALID_HANDLE else NO_ERROR
      ensures r == NO_ERROR ==>
                TrampolineFor(tables, mem[t..t + 32], Hook(t, target, w, detour, false))
                  && Placed(mem[..], t, target, w, tail)
    {
      hide WellFormed, Placed, Filled, OnlySlot, Window, Movable, MovedEnough, Brks, TrampolineFor, Moved;
      ghost var m := mem[..];
      n := MoveCode(tables, mem, target, t, w, tail);
      if n < SIZE_OF_JMP {
        return ERROR_INVALID_BLOCK, n;
      }
      if n > CODE_SIZE - SIZE_OF_JMP {
        return ERROR_INVALID_HANDLE, n;
      }
      ghost var k := mem[..];
      WholeWindow(tables, k, t, target, w, n);
      FinishTrampoline(target, t, detour, n, w);
      OnlySlotTrans(m, k, mem[..], t);
      StillPlaced(m, mem[..], t, target, w, tail);
      return NO_ERROR, n;
    }

    /** The fields of a trampoline that the code `w` has been moved to. */
    method FinishTrampoline(target: Dword, t: Dword, detour: Dword, n: nat, ghost w: seq<Byte>)
      requires WellFormed(tables) && t + 32 <= mem.Length && Moved(tables, w, mem[t..t + 32], t - target)
      requires Window(tables, w, 0) && target + |w| < 0x1_0000_0000 && t + 32 <= 0x1_0000_0000 && 5 <= n == |w| <= 18
      modifies mem
      ensures OnlySlot(old(mem[..]), mem[..], t)
      ensures TrampolineFor(tables, mem[t..t + 32], Hook(t, target, w, detour, false))
    {
      hide WellFormed, Filled, OnlySlot, Window, TrampolineFor, Moved;
      FilledOk(tables, mem[t..t + 32], Hook(t, target, w, detour, false));
      FillTrampoline(mem, t, target, detour, n);
    }

    /** The end of an attach: the operation becomes pending, or the trampoline goes back. */
    method Settle(op: Operation, detour: Dword, sys: Answers, built: int, n: nat, ghost w: seq<Byte>,
                  ghost tail: seq<Byte>)
      returns (r: int)
      requires pool.mem == mem && pool.Valid() && WellFormed(tables) && IsLive(pool.regions, op.trampoline)
      requires error == NO_ERROR
      requires !op.isRemove
      modifies this`error, this`failed, this`operations, this`hooks, mem, pool`regions
      ensures pool.Valid()
      ensures r == if built == NO_ERROR && !sys.protectOk then sys.protectError else built
      ensures if built == NO_ERROR && sys.protectOk
              then && error == NO_ERROR && failed == old(failed) && mem[..] == old(mem[..])
                && pool.regions == old(pool.regions)
                   && operations == [op] + old(operations)
                   && hooks == [Hook(op.trampoline, op.target, w, detour, false)] + old(hooks)
              else && operations == old(operations) && hooks == old(hooks) && failed == Some(op.pointer)
                   && mem[..] == GivenBack(old(mem[..]), op.trampoline)
                   && pool.regions == AfterFree(old(pool.regions), op.trampoline)
                   && error == if ignoreTooSmall && n < SIZE_OF_JMP then NO_ERROR else r
    {
      hide RegionList, DistinctBases, HasBase, WellFormed, IsLive, AfterFree, GivenBack, Returned, Mask, Inside;
      r := built;
      if r == NO_ERROR && !sys.protectOk {
        r := sys.protectError;
      }
      if built == NO_ERROR && sys.protectOk {
        hooks := [Hook(op.trampoline, op.target, w, detour, false)] + hooks;
        operations := [op] + operations;
        return;
      }
      pool.Free(op.trampoline);
      GivenBackIs(old(mem[..]), op.trampoline);
      failed := Some(op.pointer);
      if !(n < SIZE_OF_JMP && ignoreTooSmall) {
        error := r;
      }
    }

    // ---------------------------------------------------------------- detaching

    /** DetourDetach reads the trampoline that the pointer leads to. */
    predicate CanDetach(pointer: Option<int>, detour: Dword, detourImported: bool)
      reads this, mem
    {
      pointer.Some? ==>
        && pointer.value in pointers
        && (pointers[pointer.value] != 0 ==>
              CanSkip(mem[..], detour, detourImported) && pointers[pointer.value] + 32 <= mem.Length)
    }

    /** The memory at `a` has the fields of a trampoline with the detour `d`. */
    predicate LooksLike(a: Dword, d: Dword)
      requires a + 32 <= mem.Length
      reads mem
    {
      0 < mem[a + 23] as int <= CODE_SIZE && DwordAt(mem[..], a + 28) == d
    }

    /** The target that the fields at `a` name. */
    function TargetOf(a: Dword): Dword
      requires a + 32 <= mem.Length
      reads mem
    {
      Wrap(DwordAt(mem[..], a + 24) - mem[a + 23] as int)
    }

    /** DetourDetach, through any pointer. */
    method Detach(caller: int, pointer: Option<int>, detour: Dword, detourImported: bool, newOk: bool, protectOk: bool,
                  protectError: int)
      returns (r: int)
      requires Valid() && caller != 0 && CanDetach(pointer, detour, detourImported)
      modifies this`error, this`failed, this`operations
      ensures Valid()
      ensures old(Refusal(caller, pointer)).Some? ==>
                && r == old(Refusal(caller, pointer)).value && operations == old(operations)
                && var unset := old(owner) == caller && old(error) == NO_ERROR && pointer.Some?;
                   error == (if unset then r else old(error)) && failed == (if unset then pointer else old(failed))
      ensures old(Refusal(caller, pointer)).None? ==>
                var a := pointers[pointer.value];
                var same := LooksLike(a, SkipJmp(mem[..], detour, detourImported));
                && r == (if !newOk then ERROR_NOT_ENOUGH_MEMORY else if !same then ERROR_INVALID_BLOCK
                         else if !protectOk then protectError else NO_ERROR)
                && if newOk && same && protectOk
                   then && operations == [Operation(true, pointer.value, TargetOf(a), a)] + old(operations)
                        && error == old(error) && failed == old(failed)
                   else && operations == old(operations) && failed == pointer
                        && error == if newOk && !same && ignoreTooSmall then NO_ERROR else r
      ensures old(Tidy()) && (operations == old(operations) || Find(hooks, operations[0].trampoline).Some?) ==> Tidy()
      ensures old(Orderly()) && (operations == old(operations) || Due(old(operations), operations[0].trampoline)) ==>
                Orderly()
    {
      hide Sound, RegionList, DistinctBases, HasBase, WellFormed, Matched, OpsFound, DistinctOps, CanSkip, SkipJmp,
        DwordAt, Find, SinceBegin, DistinctAttaches;
      if owner != caller {
        return ERROR_INVALID_OPERATION;
      }
      if error != NO_ERROR {
        return error;
      }
      if pointer.None? {
        return ERROR_INVALID_HANDLE;
      }
      var t: int := pointers[pointer.value];
      if t == 0 {
        error, failed := ERROR_INVALID_HANDLE, pointer;
        return error;
      }
      if !newOk {
        error, failed := ERROR_NOT_ENOUGH_MEMORY, pointer;
        return error;
      }
      r := DetachHook(pointer.value, t, SkipJmp(mem[..], detour, detourImported), protectOk, protectError);
    }

    /** The hook at `a` is on, and no operation is about it. */
    ghost predicate Due(ops: seq<Operation>, a: Dword)
      reads this
    {
      Find(hooks, a).Some? && Find(hooks, a).value.on && OpOf(ops, a).None?
    }

    /** DetourDetach from the checks of the trampoline on. */
    method DetachHook(pointer: int, t: Dword, d: Dword, protectOk: bool, protectError: int) returns (r: int)
      requires Valid() && owner != 0 && error == NO_ERROR && t + 32 <= mem.Length
      modifies this`error, this`failed, this`operations
      ensures Valid()
      ensures r == (if !LooksLike(t, d) then ERROR_INVALID_BLOCK else if !protectOk then protectError else NO_ERROR)
      ensures if LooksLike(t, d) && protectOk
              then && operations == [Operation(true, pointer, TargetOf(t), t)] + old(operations)
                   && error == old(error) && failed == old(failed)
              else && operations == old(operations) && failed == Some(pointer)
                   && error == if !LooksLike(t, d) && ignoreTooSmall then NO_ERROR else r
      ensures old(Tidy()) && (operations == old(operations) || Find(hooks, t).Some?) ==> Tidy()
      ensures old(Orderly()) && (operations == old(operations) || Due(old(operations), t)) ==> Orderly()
    {
      hide Sound, RegionList, DistinctBases, HasBase, WellFormed, Matched, OpsFound, DistinctOps, DwordAt, Find,
        DistinctHooks, TrampolineOk, OpOf, SinceBegin, DistinctAttaches, Balanced, TrampolinePool.Valid, LooksLike;
      var same, target := ReadFields(t, d);
      if !same {
        failed := Some(pointer);
        if !ignoreTooSmall {
          error := ERROR_INVALID_BLOCK;
        }
        return ERROR_INVALID_BLOCK;
      }
      if !protectOk {
        error, failed := protectError, Some(pointer);
        return error;
      }
      ghost var op := Operation(true, pointer, target, t);
      SinceDetach(began, beganRegions, mem[..], pool.regions, op, operations);
      if Tidy() && Find(hooks, t).Some? {
        DetachTidy(tables, mem[..], pool.head, pool.regions, code, hooks, op, operations);
      }
      operations := [Operation(true, pointer, target, t)] + operations;
      return NO_ERROR;
    }

    /** The fields of a trampoline that a detach looks at. */
    method ReadFields(t: Dword, d: Dword) returns (same: bool, target: Dword)
      requires t + 32 <= mem.Length
      ensures same == LooksLike(t, d) && target == TargetOf(t)
    {
      hide DwordAt;
      var n := mem[t + 23];
      var remain := ReadDword(mem, t + 24);
      target := Wrap(remain - n as int);
      var theirs := ReadDword(mem, t + 28);
      same := !(n == 0 || n > CODE_SIZE || theirs != d);
    }
  }

  /** The system has suspended the threads once more than before. */
  ghost predicate Balanced(before: multiset<int>, suspended: multiset<int>, threads: seq<int>)
  {
    suspended == before + multiset(threads)
  }

  lemma OneSuspended(before: multiset<int>, suspended: multiset<int>, threads: seq<int>, thread: int)
    requires Balanced(before, suspended, threads)
    ensures Balanced(before, suspended + multiset{thread}, [thread] + threads)
  {
  }

  lemma NothingChanged(m: seq<Byte>, head: Dword, regions: seq<Region>, grant: Dword)
    requires RegionList(m, head, regions)
    ensures SinceBegin(m, regions, m, regions, []) && Covers(regions, regions, grant)
  {
    hide RegionList, SinceBegin, InPool;
    AtBegin(m, head, regions);
  }

  /** A new region at most has come from an allocation that failed. */
  lemma NothingTaken(m: seq<Byte>, head: Dword, regions: seq<Region>, n: seq<Byte>, after: seq<Region>, grant: Dword)
    requires RegionList(m, head, regions) && Grown(m, regions, n, after, grant)
    requires grant != 0 ==> grant % 0x1_0000 == 0 && !HasBase(regions, grant)
    ensures SinceBegin(m, regions, n, after, []) && Covers(after, regions, grant)
  {
    hide *;
    AtBegin(m, head, regions);
    SinceGrown(m, regions, m, head, regions, n, after, grant, []);
    CoversGrown(m, regions, n, after, grant);
  }

  lemma StillPlaced(m: seq<Byte>, n: seq<Byte>, a: Dword, target: Dword, w: seq<Byte>, tail: seq<Byte>)
    requires Placed(m, a, target, w, tail) && OnlySlot(m, n, a)
    ensures Placed(n, a, target, w, tail)
  {
    hide OnlySlot;
    WindowBytes(m, n, a, target, w + tail, 0, |w| + 2);
    assert (w + tail)[0..|w| + 2] == w + tail;
  }

  lemma WholeWindow(t: Tables, k: seq<Byte>, a: Dword, target: Dword, w: seq<Byte>, n: nat)
    requires WellFormed(t) && a + 32 <= |k| && MovedEnough(t, k, a, target, w, n) && n >= 5
    ensures n == |w| && Moved(t, w, k[a..a + 32], a - target)
  {
  }

  /** An attach has written to its trampoline. */
  lemma SlotTaken(m: seq<Byte>, regions: seq<Region>, k: seq<Byte>, head: Dword, grown: seq<Region>, n: seq<Byte>,
                  op: Operation)
    requires SinceBegin(m, regions, k, grown, [op]) && !op.isRemove && RegionList(k, head, grown)
    requires OnlySlot(k, n, op.trampoline)
    ensures SinceBegin(m, regions, n, grown, [op])
  {
    hide RegionList, SinceBegin, OnlySlot;
    SinceSlot(m, regions, k, head, grown, n, [op], op.trampoline);
  }

  /** The trampoline of an attach that came to nothing has gone back. */
  lemma SinceReturned(m: seq<Byte>, regions: seq<Region>, k: seq<Byte>, head: Dword, grown: seq<Region>, op: Operation,
                      n: seq<Byte>, after: seq<Region>)
    requires SinceBegin(m, regions, k, grown, [op]) && !op.isRemove && RegionList(k, head, grown)
    requires DistinctBases(grown)
    requires n == GivenBack(k, op.trampoline) && after == AfterFree(grown, op.trampoline)
    ensures SinceBegin(m, regions, n, after, [])
  {
    hide RegionList, DistinctBases, SinceBegin, GivenBack, AfterFree;
    assert DistinctAttaches([op]);
    SinceDropped(m, regions, k, head, grown, [op], op.trampoline);
    assert [op][1..] == [];
  }

  lemma SoundReleased(t: Tables, m: seq<Byte>, head: Dword, regions: seq<Region>, code: seq<Byte>, hooks: seq<Hook>,
                      a: Dword, n: seq<Byte>, after: seq<Region>)
    requires WellFormed(t) && Sound(t, m, head, regions, code, hooks, a) && IsLive(regions, a)
    requires n == GivenBack(m, a) && after == AfterFree(regions, a)
    ensures Sound(t, n, head, after, code, hooks, 0)
  {
    hide Sound, WellFormed, RegionList, DistinctBases, IsLive, GivenBack, Returned, AfterFree, Inside, Mask, OnlyRegion;
    SoundParts(t, m, head, regions, code, hooks, a);
    FreeList(m, head, regions, a);
    StillDistinct(regions, a);
    GivenBackIs(m, a);
    SoundFree(t, m, head, regions, code, hooks, a);
  }

  /** An attach to plain code has become pending. */
  lemma HookPending(t: Tables, m: seq<Byte>, head: Dword, before: seq<Region>, regions: seq<Region>, code: seq<Byte>,
                    hooks: seq<Hook>, h: Hook, op: Operation, ops: seq<Operation>, w: seq<Byte>, tail: seq<Byte>)
    requires WellFormed(t) && Sound(t, m, head, regions, code, hooks, h.trampoline) && IsLive(regions, h.trampoline)
    requires h.saved == w && !h.on && !op.isRemove && op.target == h.target && op.trampoline == h.trampoline
    requires Find(hooks, h.trampoline).None? && Plain(t, before, hooks, h.target, w, tail)
    requires WindowOutside(before, Ahead(h.target, w, tail)) ==> WindowOutside(regions, Ahead(h.target, w, tail))
    requires h.trampoline + 32 <= |m| && TrampolineFor(t, m[h.trampoline..h.trampoline + 32], h)
    requires Placed(m, h.trampoline, h.target, w, tail) && OpsFound(ops, hooks)
    ensures Sound(t, m, head, regions, code, [h] + hooks, 0) && OpsFound([op] + ops, [h] + hooks)
    ensures Matched(hooks, ops) && DistinctOps(ops) ==> Matched([h] + hooks, [op] + ops) && DistinctOps([op] + ops)
  {
    hide Sound, WellFormed, IsLive, Find, WindowOutside, TrampolineFor, OpsFound, Matched, DistinctOps, Clear, AllKnown;
    HookJoins(t, m, head, regions, code, hooks, h, tail);
    DistinctAll(t, m, head, regions, code, hooks, h.trampoline);
    AttachPending(hooks, ops, h, op);
  }

  /** A detach through the pointer of a hook has become pending. */
  lemma DetachTidy(t: Tables, m: seq<Byte>, head: Dword, regions: seq<Region>, code: seq<Byte>, hooks: seq<Hook>,
                   op: Operation, ops: seq<Operation>)
    requires WellFormed(t) && Sound(t, m, head, regions, code, hooks, 0) && OpsFound(ops, hooks)
    requires Find(hooks, op.trampoline).Some? && op.isRemove && op.trampoline + 32 <= |m|
    requires op.target == Wrap(DwordAt(m, op.trampoline + 24) - m[op.trampoline + 23] as int)
    ensures OpsFound([op] + ops, hooks)
    ensures Matched(hooks, ops) && DistinctOps(ops) && OpOf(ops, op.trampoline).None?
              && Find(hooks, op.trampoline).value.on ==>
              Matched(hooks, [op] + ops) && DistinctOps([op] + ops)
  {
    hide Sound, WellFormed, Find, OpsFound, Matched, DistinctOps, TrampolineOk, DwordAt, OpOf;
    HookReady(t, m, head, regions, code, hooks, op.trampoline);
    DistinctAll(t, m, head, regions, code, hooks, 0);
    DetachPending(hooks, ops, op);
  }

  lemma DistinctAll(t: Tables, m: seq<Byte>, head: Dword, regions: seq<Region>, code: seq<Byte>, hooks: seq<Hook>,
                    a: Dword)
    requires WellFormed(t) && Sound(t, m, head, regions, code, hooks, a)
    ensures DistinctHooks(hooks)
  {
    hide HooksOk, RegionList, DistinctBases, Holds, LiveHooked, Patched, WellFormed;
    HooksDistinct(t, m, regions, code, hooks);
  }

  // ---------------------------------------------------------------- the loops of an abort and of a commit

  lemma FirstAttach(ops: seq<Operation>)
    requires |ops| > 0 && !ops[0].isRemove
    ensures |Attaches(ops)| > 0 && Attaches(ops)[0] == ops[0].trampoline && Attaches(ops)[1..] == Attaches(ops[1..])
    ensures Removes(ops) == Removes(ops[1..])
  {
  }

  lemma FirstRemove(ops: seq<Operation>)
    requires |ops| > 0 && ops[0].isRemove
    ensures |Removes(ops)| > 0 && Removes(ops)[0] == ops[0].trampoline && Removes(ops)[1..] == Removes(ops[1..])
    ensures Attaches(ops) == Attaches(ops[1..])
  {
  }

  /** Returning trampolines moves no region. */
  lemma {:induction false} BasesStay(regions: seq<Region>, ts: seq<Dword>, base: Dword)
    ensures HasBase(FreeAll(regions, ts), base) <==> HasBase(regions, base)
    decreases |ts|
  {
    hide HasBase, AfterFree;
    if |ts| > 0 {
      SameBases(regions, ts[0], base, 0);
      BasesStay(AfterFree(regions, ts[0]), ts[1..], base);
    }
  }

  /** Whether the pool is sound once trampolines in use have been returned. */
  lemma PoolIffNoRepeats(m: seq<Byte>, n: seq<Byte>, head: Dword, regions: seq<Region>, ts: seq<Dword>, current: Dword)
    requires RegionList(m, head, regions) && DistinctBases(regions) && AllLive(regions, ts) && n == ReturnedAll(m, ts)
    requires current == 0 || HasBase(regions, current)
    ensures NoRepeats(ts) <==> exists rs :: RegionList(n, head, rs)
    ensures NoRepeats(ts) <==>
              && RegionList(n, head, FreeAll(regions, ts)) && DistinctBases(FreeAll(regions, ts))
              && (current == 0 || HasBase(FreeAll(regions, ts), current))
  {
    hide *;
    SoundIffNoRepeats(m, head, regions, ts);
    BasesStay(regions, ts, current);
  }

  /** An abort leaves the hooks that are on. */
  lemma OrderlyAborted(t: Tables, m: seq<Byte>, head: Dword, regions: seq<Region>, code: seq<Byte>, hooks: seq<Hook>,
                       ops: seq<Operation>)
    requires WellFormed(t) && Sound(t, m, head, regions, code, hooks, 0)
    requires OpsFound(ops, hooks) && Matched(hooks, ops) && DistinctOps(ops)
    ensures Sound(t, ReturnedAll(m, Attaches(ops)), head, FreeAll(regions, Attaches(ops)), code,
                  WithoutAll(hooks, Attaches(ops)), 0)
    ensures WithoutAll(hooks, Attaches(ops)) == OnOnly(hooks) && Matched(OnOnly(hooks), [])
    ensures OpsFound([], OnOnly(hooks)) && DistinctOps([])
  {
    hide Sound, WellFormed, Matched, OnOnly, WithoutAll, ReturnedAll, FreeAll, Attaches;
    DistinctAll(t, m, head, regions, code, hooks, 0);
    AbortedHooks(hooks, ops);
    SoundReturned(t, m, head, regions, code, hooks, Attaches(ops));
    AllOnMatched(OnOnly(hooks));
  }

  /** A commit leaves the hooks that are to be on. */
  lemma OrderlyCommitted(t: Tables, m: seq<Byte>, k: seq<Byte>, head: Dword, regions: seq<Region>, code: seq<Byte>,
                         hooks: seq<Hook>, ops: seq<Operation>)
    requires WellFormed(t) && Sound(t, m, head, regions, code, hooks, 0)
    requires Sound(t, k, head, regions, code, SwitchAll(hooks, ops), 0)
    requires OpsFound(ops, hooks) && Matched(hooks, ops) && DistinctOps(ops)
    ensures Sound(t, ReturnedAll(k, Removes(ops)), head, FreeAll(regions, Removes(ops)), code, Committed(hooks, ops), 0)
    ensures AllOn(Committed(hooks, ops)) && Matched(Committed(hooks, ops), [])
    ensures OpsFound([], Committed(hooks, ops)) && DistinctOps([]) && NoRepeats(Removes(ops))
  {
    hide Sound, WellFormed, Matched, WithoutAll, ReturnedAll, FreeAll, Removes, SwitchAll, Committed, AllOn, NoRepeats;
    DistinctAll(t, m, head, regions, code, hooks, 0);
    CommittedSteps(hooks, ops);
    SoundReturned(t, k, head, regions, code, SwitchAll(hooks, ops), Removes(ops));
    AllOnMatched(Committed(hooks, ops));
    DistinctRemoves(ops);
  }

  lemma {:induction false} DistinctRemoves(ops: seq<Operation>)
    requires DistinctOps(ops)
    ensures NoRepeats(Removes(ops))
    decreases |ops|
  {
    if |ops| > 0 {
      DistinctRemoves(ops[1..]);
      if ops[0].isRemove {
        FirstRemove(ops);
        RemoveHasOp(ops[1..], ops[0].trampoline);
      } else {
        FirstAttach(ops);
      }
    }
  }

  lemma {:induction false} RemoveHasOp(ops: seq<Operation>, a: Dword)
    requires OpOf(ops, a).None?
    ensures a !in Removes(ops)
    decreases |ops|
  {
    if |ops| > 0 {
      RemoveHasOp(ops[1..], a);
      if ops[0].isRemove {
        FirstRemove(ops);
        assert Removes(ops) == [ops[0].trampoline] + Removes(ops[1..]);
      } else {
        FirstAttach(ops);
      }
    }
  }
}
