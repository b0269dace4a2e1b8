/** What the two loops of a commit (detours.cpp, 770-860 and 938-955) do to memory, for any pending operations, and what
    that means in a sound process. */
module Carrying {
  import opened Bytes
  import opened Options
  import opened Disasm
  import opened Relocation
  import opened Trampolines
  import opened HookList
  import opened HookSteps
  import opened Pending
  import opened Patching
  import opened Restoring
  import opened DoubleFree
  import opened HookFacts

  const NO_ERROR := 0
  const ERROR_INVALID_DATA := 13

  /** The first loop of a commit on its way: memory, s_nPendingError and s_ppPendingError. */
  datatype Progress = Progress(m: seq<Byte>, error: int, failed: Option<int>)

  /** The operation stays in memory. */
  ghost predicate CanCarry(t: Tables, m: seq<Byte>, op: Operation)
    requires WellFormed(t)
  {
    && op.trampoline + 32 <= |m|
    && if op.isRemove then CanRestore(t, m, op.target, op.trampoline, 0) else CanJump(m, op.target, op.trampoline)
  }

  /** The operation is carried out: an attach writes its jump, a detach copies the trampoline's instructions back, with
      the drastic error when their count comes out different. */
  ghost function CarryOne(t: Tables, p: Progress, op: Operation): (r: Progress)
    requires WellFormed(t)
    ensures |r.m| == |p.m|
  {
    if !CanCarry(t, p.m, op) then p
    else if op.isRemove then
      var r := Restored(t, p.m, op.target, op.trampoline, 0);
      if r.1 != r.0[op.trampoline + 23] as nat then Progress(r.0, ERROR_INVALID_DATA, Some(op.pointer))
      else p.(m := r.0)
    else p.(m := Jumped(p.m, op.target, op.trampoline))
  }

  ghost predicate CanCarryAll(t: Tables, p: Progress, ops: seq<Operation>)
    requires WellFormed(t)
    decreases |ops|
  {
    |ops| > 0 ==> CanCarry(t, p.m, ops[0]) && CanCarryAll(t, CarryOne(t, p, ops[0]), ops[1..])
  }

  /** The first loop of a commit. */
  ghost function CarryAll(t: Tables, p: Progress, ops: seq<Operation>): (r: Progress)
    requires WellFormed(t)
    ensures |r.m| == |p.m|
    decreases |ops|
  {
    if |ops| == 0 then p else CarryAll(t, CarryOne(t, p, ops[0]), ops[1..])
  }

  lemma CarryNext(t: Tables, p: Progress, ops: seq<Operation>)
    requires WellFormed(t) && |ops| > 0
    ensures CarryAll(t, p, ops) == CarryAll(t, CarryOne(t, p, ops[0]), ops[1..])
    ensures CanCarryAll(t, p, ops) <==> CanCarry(t, p.m, ops[0]) && CanCarryAll(t, CarryOne(t, p, ops[0]), ops[1..])
  {
  }

  lemma CarryNone(t: Tables, p: Progress)
    requires WellFormed(t)
    ensures CarryAll(t, p, []) == p && CanCarryAll(t, p, [])
  {
  }

  lemma CarriedRemove(t: Tables, p: Progress, op: Operation)
    requires WellFormed(t) && CanCarry(t, p.m, op) && op.isRemove
    ensures op.trampoline + 32 <= |p.m| && CanRestore(t, p.m, op.target, op.trampoline, 0)
    ensures var r := Restored(t, p.m, op.target, op.trampoline, 0);
            CarryOne(t, p, op) ==
            if r.1 != r.0[op.trampoline + 23] as nat then Progress(r.0, ERROR_INVALID_DATA, Some(op.pointer))
            else Progress(r.0, p.error, p.failed)
  {
    hide CanRestore, Restored, WellFormed;
  }

  lemma CarriedAttach(t: Tables, p: Progress, op: Operation)
    requires WellFormed(t) && CanCarry(t, p.m, op) && !op.isRemove
    ensures CanJump(p.m, op.target, op.trampoline)
    ensures CarryOne(t, p, op) == Progress(Jumped(p.m, op.target, op.trampoline), p.error, p.failed)
  {
    hide CanJump, Jumped, WellFormed;
  }

  // ---------------------------------------------------------------- in a sound process

  /** What an attach writes when its trampoline serves the hook `h`. */
  lemma CarryAttach(t: Tables, p: Progress, op: Operation, h: Hook)
    requires WellFormed(t) && !op.isRemove && op.trampoline + 32 <= |p.m| && op.target == h.target
    requires 5 <= h.Size() && h.target + h.Size() <= |p.m|
    requires op.trampoline + 32 <= h.target || h.target + h.Size() <= op.trampoline
    requires DwordAt(p.m, op.trampoline + 24) == h.target + h.Size() && DwordAt(p.m, op.trampoline + 28) == h.detour
    ensures CanCarry(t, p.m, op) && CarryOne(t, p, op) == p.(m := Overwrite(p.m, h.target, Patch(h)))
  {
    hide CanJump, Jumped, Overwrite, DwordAt, WellFormed, Patch;
    JumpedIs(p.m, op.target, op.trampoline, h);
  }

  /** What a detach writes when its trampoline serves the hook `h`, whose opcodes the tables know. */
  lemma CarryRemove(t: Tables, p: Progress, op: Operation, h: Hook)
    requires WellFormed(t) && op.isRemove && op.trampoline == h.trampoline && op.target == h.target
    requires op.trampoline + 32 <= |p.m|
    requires TrampolineOk(t, p.m[op.trampoline..op.trampoline + 32], h)
    requires h.target + h.Size() <= |p.m| && (op.trampoline + 32 <= h.target || h.target + h.Size() <= op.trampoline)
    ensures CanCarry(t, p.m, op) && CarryOne(t, p, op) == p.(m := Overwrite(p.m, h.target, h.saved))
  {
    hide CanRestore, Restored, Overwrite, TrampolineOk, WellFormed;
    RestoresKnown(t, p.m, op.trampoline, h);
  }

  /** In a sound process an operation about a hook switches it, without an error. */
  lemma SoundCarry(t: Tables, p: Progress, head: Dword, regions: seq<Region>, code: seq<Byte>, hooks: seq<Hook>,
                   op: Operation)
    requires WellFormed(t) && Sound(t, p.m, head, regions, code, hooks, 0) && Find(hooks, op.trampoline).Some?
    requires Find(hooks, op.trampoline).value.target == op.target
    ensures CanCarry(t, p.m, op)
    ensures CarryOne(t, p, op).error == p.error && CarryOne(t, p, op).failed == p.failed
    ensures Sound(t, CarryOne(t, p, op).m, head, regions, code, Switch(hooks, op.trampoline, !op.isRemove), 0)
  {
    hide Sound, Find, Switch, TrampolineOk, WellFormed, Overwrite, DwordAt, Patch, CanCarry, CarryOne;
    var h := Find(hooks, op.trampoline).value;
    HookReady(t, p.m, head, regions, code, hooks, op.trampoline);
    if op.isRemove {
      CarryRemove(t, p, op, h);
      SoundOff(t, p.m, head, regions, code, hooks, op.trampoline);
    } else {
      CarryAttach(t, p, op, h);
      SoundOn(t, p.m, head, regions, code, hooks, op.trampoline);
    }
  }

  /** In a sound process the first loop carries out any operations that are about hooks, and meets no error. */
  lemma {:induction false} SoundCarryAll(t: Tables, p: Progress, head: Dword, regions: seq<Region>, code: seq<Byte>,
                                         hooks: seq<Hook>, ops: seq<Operation>)
    requires WellFormed(t) && Sound(t, p.m, head, regions, code, hooks, 0) && OpsFound(ops, hooks)
    ensures CanCarryAll(t, p, ops)
    ensures CarryAll(t, p, ops).error == p.error && CarryAll(t, p, ops).failed == p.failed
    ensures Sound(t, CarryAll(t, p, ops).m, head, regions, code, SwitchAll(hooks, ops), 0)
    decreases |ops|
  {
    hide Sound, Find, Switch, WellFormed, CarryOne, CanCarry, CarryAll, CanCarryAll;
    if |ops| > 0 {
      var op := ops[0];
      SoundCarry(t, p, head, regions, code, hooks, op);
      FoundSwitched(ops[1..], hooks, op.trampoline, !op.isRemove);
      SoundCarryAll(t, CarryOne(t, p, op), head, regions, code, Switch(hooks, op.trampoline, !op.isRemove), ops[1..]);
      CarryNext(t, p, ops);
    } else {
      assert ops == [];
      CarryNone(t, p);
    }
  }

  /** Returning the trampolines of hooks that are off keeps the process sound. */
  lemma {:induction false} SoundReturned(t: Tables, m: seq<Byte>, head: Dword, regions: seq<Region>, code: seq<Byte>,
                                         hooks: seq<Hook>, ts: seq<Dword>)
    requires WellFormed(t) && Sound(t, m, head, regions, code, hooks, 0) && OffInTurn(hooks, ts)
    ensures Sound(t, ReturnedAll(m, ts), head, FreeAll(regions, ts), code, WithoutAll(hooks, ts), 0)
    decreases |ts|
  {
    hide Sound, Find, Without, WellFormed, GivenBack, AfterFree, RegionList, DistinctBases, IsLive, Inside, Mask,
      Returned, OnlyRegion;
    if |ts| > 0 {
      SoundDrop(t, m, head, regions, code, hooks, ts[0]);
      SoundParts(t, m, head, regions, code, hooks, 0);
      FreeList(m, head, regions, ts[0]);
      StillDistinct(regions, ts[0]);
      GivenBackIs(m, ts[0]);
      SoundFree(t, m, head, regions, code, Without(hooks, ts[0]), ts[0]);
      SoundReturned(t, GivenBack(m, ts[0]), head, AfterFree(regions, ts[0]), code, Without(hooks, ts[0]), ts[1..]);
    }
  }

  /** Operations about hooks name live trampolines. */
  lemma {:induction false} FoundLive(t: Tables, m: seq<Byte>, head: Dword, regions: seq<Region>, code: seq<Byte>,
                                     hooks: seq<Hook>, ops: seq<Operation>)
    requires WellFormed(t) && Sound(t, m, head, regions, code, hooks, 0) && OpsFound(ops, hooks)
    ensures AllLive(regions, Removes(ops)) && AllInside(|m|, Removes(ops))
    decreases |ops|
  {
    hide Sound, Find, WellFormed, IsLive, HooksOk, HookOk, RegionList, Inside, InPool;
    if |ops| > 0 {
      FoundLive(t, m, head, regions, code, hooks, ops[1..]);
      SoundParts(t, m, head, regions, code, hooks, 0);
      FindOk(t, m, regions, code, hooks, ops[0].trampoline);
      HookLive(t, m, regions, code, Find(hooks, ops[0].trampoline).value);
      LiveBounds(m, head, regions, ops[0].trampoline);
      if ops[0].isRemove {
        assert Removes(ops)[0] == ops[0].trampoline && Removes(ops)[1..] == Removes(ops[1..]);
      } else {
        assert Removes(ops) == Removes(ops[1..]);
      }
    }
  }
}
