/** The pending operations of a transaction, and what committing them does to the hooks. */
module Pending {
  import opened Bytes
  import opened Options
  import opened Disasm
  import opened HookList

  /** DetourOperation: `pointer` names the client's function pointer. */
  datatype Operation = Operation(isRemove: bool, pointer: int, target: Dword, trampoline: Dword)

  function OpOf(ops: seq<Operation>, a: Dword): Option<Operation>
  {
    if |ops| == 0 then None else if ops[0].trampoline == a then Some(ops[0]) else OpOf(ops[1..], a)
  }

  /** No two operations are about the same trampoline. */
  predicate DistinctOps(ops: seq<Operation>)
  {
    |ops| > 0 ==> OpOf(ops[1..], ops[0].trampoline).None? && DistinctOps(ops[1..])
  }

  /** A hook is off while its attach is pending, and on otherwise. */
  predicate OpMatches(h: Hook, ops: seq<Operation>)
  {
    match OpOf(ops, h.trampoline)
    case None => h.on
    case Some(op) => h.on == op.isRemove
  }

  predicate Matched(hooks: seq<Hook>, ops: seq<Operation>)
  {
    |hooks| > 0 ==> OpMatches(hooks[0], ops) && Matched(hooks[1..], ops)
  }

  /** Each operation is about a hook, at its target. */
  predicate OpsFound(ops: seq<Operation>, hooks: seq<Hook>)
  {
    |ops| > 0 ==>
      && Find(hooks, ops[0].trampoline).Some? && Find(hooks, ops[0].trampoline).value.target == ops[0].target
      && OpsFound(ops[1..], hooks)
  }

  /** The hooks once the operations `ops` have been carried out. */
  function Turned(hooks: seq<Hook>, ops: seq<Operation>): seq<Hook>
  {
    if |hooks| == 0 then [] else [Turn(hooks[0], ops)] + Turned(hooks[1..], ops)
  }

  function Turn(h: Hook, ops: seq<Operation>): Hook
  {
    match OpOf(ops, h.trampoline) case None => h case Some(op) => h.(on := !op.isRemove)
  }

  predicate Removed(ops: seq<Operation>, a: Dword)
  {
    OpOf(ops, a).Some? && OpOf(ops, a).value.isRemove
  }

  /** The hooks without those that `ops` removes. */
  function Dropped(hooks: seq<Hook>, ops: seq<Operation>): seq<Hook>
  {
    if |hooks| == 0 then []
    else if Removed(ops, hooks[0].trampoline) then Dropped(hooks[1..], ops)
    else [hooks[0]] + Dropped(hooks[1..], ops)
  }

  /** The hooks after a successful commit. */
  function Committed(hooks: seq<Hook>, ops: seq<Operation>): seq<Hook>
  {
    Dropped(Turned(hooks, ops), ops)
  }

  /** The client's function pointers after a successful commit: a new hook's pointer calls the
      trampoline, that of a removed one the target. */
  function Repointed(pointers: map<int, Dword>, ops: seq<Operation>): map<int, Dword>
    decreases |ops|
  {
    if |ops| == 0 then pointers
    else Repointed(pointers[ops[0].pointer := if ops[0].isRemove then ops[0].target else ops[0].trampoline], ops[1..])
  }

  /** The operations `ops` carried out one by one. */
  function SwitchAll(hooks: seq<Hook>, ops: seq<Operation>): seq<Hook>
    decreases |ops|
  {
    if |ops| == 0 then hooks else SwitchAll(Switch(hooks, ops[0].trampoline, !ops[0].isRemove), ops[1..])
  }

  /** The hooks without those at `ts`, taken out one by one. */
  function WithoutAll(hooks: seq<Hook>, ts: seq<Dword>): seq<Hook>
    decreases |ts|
  {
    if |ts| == 0 then hooks else WithoutAll(Without(hooks, ts[0]), ts[1..])
  }

  /** Each of the trampolines `ts` has a hook that is off when its turn comes. */
  predicate OffInTurn(hooks: seq<Hook>, ts: seq<Dword>)
    decreases |ts|
  {
    |ts| > 0 ==>
      && Find(hooks, ts[0]).Some? && !Find(hooks, ts[0]).value.on
      && OffInTurn(Without(hooks, ts[0]), ts[1..])
  }

  /** The trampolines of the attaches, and those of the detaches, in list order. */
  function Attaches(ops: seq<Operation>): seq<Dword>
  {
    if |ops| == 0 then [] else (if ops[0].isRemove then [] else [ops[0].trampoline]) + Attaches(ops[1..])
  }

  function Removes(ops: seq<Operation>): seq<Dword>
  {
    if |ops| == 0 then [] else (if ops[0].isRemove then [ops[0].trampoline] else []) + Removes(ops[1..])
  }

  // ---------------------------------------------------------------- looking up

  lemma {:induction false} OpsFoundIn(ops: seq<Operation>, hooks: seq<Hook>, a: Dword)
    requires OpsFound(ops, hooks) && OpOf(ops, a).Some?
    ensures Find(hooks, a).Some?
    decreases |ops|
  {
    if ops[0].trampoline != a {
      OpsFoundIn(ops[1..], hooks, a);
    }
  }

  lemma {:induction false} MatchedFind(hooks: seq<Hook>, ops: seq<Operation>, a: Dword)
    requires Matched(hooks, ops) && Find(hooks, a).Some?
    ensures OpMatches(Find(hooks, a).value, ops) && Find(hooks, a).value.trampoline == a
    decreases |hooks|
  {
    if hooks[0].trampoline != a {
      MatchedFind(hooks[1..], ops, a);
    }
  }

  // ---------------------------------------------------------------- a new operation

  lemma {:induction false} MatchedAdd(hooks: seq<Hook>, ops: seq<Operation>, op: Operation)
    requires Matched(hooks, ops) && DistinctHooks(hooks) && OpOf(ops, op.trampoline).None?
    requires Find(hooks, op.trampoline).Some? ==> Find(hooks, op.trampoline).value.on == op.isRemove
    ensures Matched(hooks, [op] + ops)
    decreases |hooks|
  {
    if |hooks| > 0 {
      assert ([op] + ops)[1..] == ops;
      MatchedAdd(hooks[1..], ops, op);
    }
  }

  lemma {:induction false} FoundMore(ops: seq<Operation>, hooks: seq<Hook>, h: Hook)
    requires OpsFound(ops, hooks) && Find(hooks, h.trampoline).None?
    ensures OpsFound(ops, [h] + hooks)
    decreases |ops|
  {
    if |ops| > 0 {
      assert ([h] + hooks)[1..] == hooks;
      FoundMore(ops[1..], hooks, h);
    }
  }

  /** An attach that has become pending. */
  lemma AttachPending(hooks: seq<Hook>, ops: seq<Operation>, h: Hook, op: Operation)
    requires OpsFound(ops, hooks) && Find(hooks, h.trampoline).None? && !h.on && !op.isRemove
    requires op.target == h.target && op.trampoline == h.trampoline
    ensures OpsFound([op] + ops, [h] + hooks)
    ensures Matched(hooks, ops) && DistinctHooks(hooks) && DistinctOps(ops) ==>
              Matched([h] + hooks, [op] + ops) && DistinctOps([op] + ops)
  {
    assert ([op] + ops)[1..] == ops && ([h] + hooks)[1..] == hooks;
    if OpOf(ops, op.trampoline).Some? {
      OpsFoundIn(ops, hooks, op.trampoline);
    }
    FoundMore(ops, hooks, h);
    if Matched(hooks, ops) && DistinctHooks(hooks) && DistinctOps(ops) {
      MatchedAdd(hooks, ops, op);
    }
  }

  /** A detach that has become pending. */
  lemma DetachPending(hooks: seq<Hook>, ops: seq<Operation>, op: Operation)
    requires OpsFound(ops, hooks) && Find(hooks, op.trampoline).Some? && op.isRemove
    requires op.target == Find(hooks, op.trampoline).value.target
    ensures OpsFound([op] + ops, hooks)
    ensures Matched(hooks, ops) && DistinctHooks(hooks) && DistinctOps(ops) && OpOf(ops, op.trampoline).None?
            && Find(hooks, op.trampoline).value.on ==>
              Matched(hooks, [op] + ops) && DistinctOps([op] + ops)
  {
    assert ([op] + ops)[1..] == ops;
    if Matched(hooks, ops) && DistinctHooks(hooks) && OpOf(ops, op.trampoline).None?
      && Find(hooks, op.trampoline).value.on {
      MatchedAdd(hooks, ops, op);
    }
  }

  // ---------------------------------------------------------------- aborting

  /** Dropping the first pending operation; the hook of an attach goes with it. */
  lemma {:induction false} MatchedNext(hooks: seq<Hook>, ops: seq<Operation>)
    requires |ops| > 0 && Matched(hooks, ops) && DistinctOps(ops) && DistinctHooks(hooks)
    ensures ops[0].isRemove ==> Matched(hooks, ops[1..])
    ensures !ops[0].isRemove ==> Matched(Without(hooks, ops[0].trampoline), ops[1..])
    decreases |hooks|
  {
    if |hooks| > 0 {
      MatchedNext(hooks[1..], ops);
      var less := Without(hooks, ops[0].trampoline);
      if hooks[0].trampoline != ops[0].trampoline {
        assert less[1..] == Without(hooks[1..], ops[0].trampoline);
      } else {
        NotThere(hooks[1..], ops[0].trampoline);
      }
    }
  }

  lemma {:induction false} NotThere(hooks: seq<Hook>, a: Dword)
    requires Find(hooks, a).None?
    ensures Without(hooks, a) == hooks
    decreases |hooks|
  {
    if |hooks| > 0 {
      NotThere(hooks[1..], a);
    }
  }

  lemma {:induction false} FoundNext(rest: seq<Operation>, hooks: seq<Hook>, a: Dword)
    requires OpsFound(rest, hooks) && OpOf(rest, a).None? && DistinctHooks(hooks)
    ensures OpsFound(rest, Without(hooks, a))
    decreases |rest|
  {
    if |rest| > 0 {
      FindWithout(hooks, a, rest[0].trampoline);
      FoundNext(rest[1..], hooks, a);
    }
  }

  /** Dropping all operations drops the hooks that are off. */
  lemma {:induction false} AbortedHooks(hooks: seq<Hook>, ops: seq<Operation>)
    requires Matched(hooks, ops) && OpsFound(ops, hooks) && DistinctOps(ops) && DistinctHooks(hooks)
    ensures OffInTurn(hooks, Attaches(ops)) && WithoutAll(hooks, Attaches(ops)) == OnOnly(hooks) && AllOn(OnOnly(hooks))
    decreases |ops|
  {
    if |ops| > 0 {
      MatchedNext(hooks, ops);
      var a := ops[0].trampoline;
      if ops[0].isRemove {
        assert Attaches(ops) == Attaches(ops[1..]);
        AbortedHooks(hooks, ops[1..]);
      } else {
        MatchedFind(hooks, ops, a);
        FoundNext(ops[1..], hooks, a);
        OnOnlyWithout(hooks, a);
        StillDistinctHooks(hooks, a);
        assert Attaches(ops)[0] == a && Attaches(ops)[1..] == Attaches(ops[1..]);
        AbortedHooks(Without(hooks, a), ops[1..]);
      }
    } else {
      assert ops == [];
      MatchedNone(hooks);
    }
  }

  lemma {:induction false} StillDistinctHooks(hooks: seq<Hook>, a: Dword)
    requires DistinctHooks(hooks)
    ensures DistinctHooks(Without(hooks, a))
    decreases |hooks|
  {
    if |hooks| > 0 && hooks[0].trampoline != a {
      StillDistinctHooks(hooks[1..], a);
      FindWithout(hooks[1..], a, hooks[0].trampoline);
      assert Without(hooks, a)[1..] == Without(hooks[1..], a);
    }
  }

  lemma {:induction false} MatchedNone(hooks: seq<Hook>)
    requires Matched(hooks, [])
    ensures AllOn(hooks) && OnOnly(hooks) == hooks
    decreases |hooks|
  {
    if |hooks| > 0 {
      MatchedNone(hooks[1..]);
    }
  }

  lemma {:induction false} AllOnMatched(hooks: seq<Hook>)
    requires AllOn(hooks)
    ensures Matched(hooks, [])
    decreases |hooks|
  {
    if |hooks| > 0 {
      AllOnMatched(hooks[1..]);
    }
  }

  // ---------------------------------------------------------------- committing

  lemma {:induction false} TurnedNone(hooks: seq<Hook>)
    ensures Turned(hooks, []) == hooks && Dropped(hooks, []) == hooks
    decreases |hooks|
  {
    if |hooks| > 0 {
      TurnedNone(hooks[1..]);
    }
  }

  /** Carrying out an operation switches exactly its own hook: with the first operation carried out, the rest remain. */
  lemma {:induction false} TurnedStep(hooks: seq<Hook>, op: Operation, rest: seq<Operation>)
    requires DistinctHooks(hooks) && OpOf(rest, op.trampoline).None?
    ensures Turned(hooks, [op] + rest) == Turned(Switch(hooks, op.trampoline, !op.isRemove), rest)
    decreases |hooks|
  {
    if |hooks| > 0 {
      assert ([op] + rest)[1..] == rest;
      var h := hooks[0];
      var less := Switch(hooks, op.trampoline, !op.isRemove);
      if h.trampoline == op.trampoline {
        assert less[1..] == hooks[1..];
        TurnedAbsent(hooks[1..], op, rest);
      } else {
        assert less[1..] == Switch(hooks[1..], op.trampoline, !op.isRemove);
        TurnedStep(hooks[1..], op, rest);
      }
    }
  }

  lemma {:induction false} TurnedAbsent(hooks: seq<Hook>, op: Operation, rest: seq<Operation>)
    requires Find(hooks, op.trampoline).None?
    ensures Turned(hooks, [op] + rest) == Turned(hooks, rest) && Dropped(hooks, [op] + rest) == Dropped(hooks, rest)
    decreases |hooks|
  {
    if |hooks| > 0 {
      assert ([op] + rest)[1..] == rest;
      TurnedAbsent(hooks[1..], op, rest);
    }
  }

  lemma {:induction false} SwitchDistinct(hooks: seq<Hook>, a: Dword, on: bool)
    requires DistinctHooks(hooks)
    ensures DistinctHooks(Switch(hooks, a, on))
    decreases |hooks|
  {
    if |hooks| > 0 {
      assert Switch(hooks, a, on)[1..] == if hooks[0].trampoline == a then hooks[1..] else Switch(hooks[1..], a, on);
      FindSwitch(hooks[1..], a, on, hooks[0].trampoline);
      SwitchDistinct(hooks[1..], a, on);
    }
  }

  lemma {:induction false} FoundSwitched(ops: seq<Operation>, hooks: seq<Hook>, a: Dword, on: bool)
    requires OpsFound(ops, hooks)
    ensures OpsFound(ops, Switch(hooks, a, on))
    decreases |ops|
  {
    if |ops| > 0 {
      FindSwitch(hooks, a, on, ops[0].trampoline);
      FoundSwitched(ops[1..], hooks, a, on);
    }
  }

  /** Carrying out all operations switches each hook as its operation says. */
  lemma {:induction false} SwitchedIsTurned(hooks: seq<Hook>, ops: seq<Operation>)
    requires DistinctHooks(hooks) && DistinctOps(ops)
    ensures SwitchAll(hooks, ops) == Turned(hooks, ops) && DistinctHooks(Turned(hooks, ops))
    decreases |ops|
  {
    if |ops| > 0 {
      var op := ops[0];
      assert ops == [op] + ops[1..];
      TurnedStep(hooks, op, ops[1..]);
      SwitchDistinct(hooks, op.trampoline, !op.isRemove);
      SwitchedIsTurned(Switch(hooks, op.trampoline, !op.isRemove), ops[1..]);
    } else {
      assert ops == [];
      TurnedNone(hooks);
    }
  }

  /** The hooks of the detaches are off. */
  predicate RemovesOff(hooks: seq<Hook>, ops: seq<Operation>)
  {
    |ops| > 0 ==>
      && (ops[0].isRemove ==> Find(hooks, ops[0].trampoline).Some? && !Find(hooks, ops[0].trampoline).value.on)
      && RemovesOff(hooks, ops[1..])
  }

  lemma {:induction false} FindSwitched(hooks: seq<Hook>, ops: seq<Operation>, a: Dword)
    requires OpOf(ops, a).None?
    ensures Find(SwitchAll(hooks, ops), a) == Find(hooks, a)
    decreases |ops|
  {
    if |ops| > 0 {
      FindSwitch(hooks, ops[0].trampoline, !ops[0].isRemove, a);
      FindSwitched(Switch(hooks, ops[0].trampoline, !ops[0].isRemove), ops[1..], a);
    }
  }

  lemma {:induction false} SwitchedOff(hooks: seq<Hook>, ops: seq<Operation>)
    requires DistinctOps(ops) && OpsFound(ops, hooks)
    ensures RemovesOff(SwitchAll(hooks, ops), ops)
    decreases |ops|
  {
    if |ops| > 0 {
      var op := ops[0];
      var next := Switch(hooks, op.trampoline, !op.isRemove);
      FindSwitch(hooks, op.trampoline, !op.isRemove, op.trampoline);
      FindSwitched(next, ops[1..], op.trampoline);
      FoundSwitched(ops[1..], hooks, op.trampoline, !op.isRemove);
      SwitchedOff(next, ops[1..]);
    }
  }

  /** Freeing the trampoline of a detach drops exactly its own hook, and none goes for an attach. */
  lemma {:induction false} DroppedStep(hooks: seq<Hook>, op: Operation, rest: seq<Operation>)
    requires DistinctHooks(hooks) && OpOf(rest, op.trampoline).None?
    ensures Dropped(hooks, [op] + rest) == Dropped(if op.isRemove then Without(hooks, op.trampoline) else hooks, rest)
    decreases |hooks|
  {
    if |hooks| > 0 {
      assert ([op] + rest)[1..] == rest;
      var h := hooks[0];
      if h.trampoline == op.trampoline {
        TurnedAbsent(hooks[1..], op, rest);
      } else {
        DroppedStep(hooks[1..], op, rest);
        if op.isRemove {
          assert Without(hooks, op.trampoline)[1..] == Without(hooks[1..], op.trampoline);
        }
      }
    }
  }

  lemma {:induction false} StillOff(hooks: seq<Hook>, ops: seq<Operation>, a: Dword)
    requires RemovesOff(hooks, ops) && DistinctHooks(hooks) && OpOf(ops, a).None?
    ensures RemovesOff(Without(hooks, a), ops)
    decreases |ops|
  {
    if |ops| > 0 {
      FindWithout(hooks, a, ops[0].trampoline);
      StillOff(hooks, ops[1..], a);
    }
  }

  /** Freeing the trampolines of all detaches drops their hooks. */
  lemma {:induction false} RemovedHooks(hooks: seq<Hook>, ops: seq<Operation>)
    requires DistinctHooks(hooks) && DistinctOps(ops) && RemovesOff(hooks, ops)
    ensures OffInTurn(hooks, Removes(ops)) && WithoutAll(hooks, Removes(ops)) == Dropped(hooks, ops)
    decreases |ops|
  {
    if |ops| > 0 {
      var op := ops[0];
      assert ops == [op] + ops[1..];
      DroppedStep(hooks, op, ops[1..]);
      if op.isRemove {
        StillOff(hooks, ops[1..], op.trampoline);
        StillDistinctHooks(hooks, op.trampoline);
        assert Removes(ops)[0] == op.trampoline && Removes(ops)[1..] == Removes(ops[1..]);
        RemovedHooks(Without(hooks, op.trampoline), ops[1..]);
      } else {
        assert Removes(ops) == Removes(ops[1..]);
        RemovedHooks(hooks, ops[1..]);
      }
    } else {
      assert ops == [];
      TurnedNone(hooks);
    }
  }

  /** A successful commit, step by step: every operation is carried out, then the trampolines of the detaches are
      freed. */
  lemma CommittedSteps(hooks: seq<Hook>, ops: seq<Operation>)
    requires Matched(hooks, ops) && OpsFound(ops, hooks) && DistinctOps(ops) && DistinctHooks(hooks)
    ensures OffInTurn(SwitchAll(hooks, ops), Removes(ops))
    ensures WithoutAll(SwitchAll(hooks, ops), Removes(ops)) == Committed(hooks, ops)
    ensures AllOn(Committed(hooks, ops))
  {
    SwitchedIsTurned(hooks, ops);
    SwitchedOff(hooks, ops);
    RemovedHooks(SwitchAll(hooks, ops), ops);
    CommittedOn(hooks, ops);
  }

  /** A commit leaves only hooks that are on. */
  lemma {:induction false} CommittedOn(hooks: seq<Hook>, ops: seq<Operation>)
    requires Matched(hooks, ops)
    ensures AllOn(Committed(hooks, ops))
    decreases |hooks|
  {
    if |hooks| > 0 {
      CommittedOn(hooks[1..], ops);
      assert Turned(hooks, ops)[1..] == Turned(hooks[1..], ops);
      var h := Turn(hooks[0], ops);
      if !Removed(ops, h.trampoline) {
        assert Committed(hooks, ops)[0] == h && Committed(hooks, ops)[1..] == Committed(hooks[1..], ops);
      }
    }
  }

  /** The pointer of an operation that is the last one about it. */
  lemma {:induction false} RepointedLast(pointers: map<int, Dword>, before: seq<Operation>, op: Operation)
    ensures Repointed(pointers, before + [op]) ==
            Repointed(pointers, before)[op.pointer := if op.isRemove then op.target else op.trampoline]
    decreases |before|
  {
    if |before| > 0 {
      assert (before + [op])[1..] == before[1..] + [op];
      RepointedLast(pointers[before[0].pointer := if before[0].isRemove then before[0].target
                             else before[0].trampoline], before[1..], op);
    } else {
      assert before + [op] == [op] && [op][1..] == [];
    }
  }

  // ---------------------------------------------------------------- a hook of one's own

  /** Committing the one attach of a transaction. */
  lemma CommitAttach(hooks: seq<Hook>, h: Hook, op: Operation)
    requires AllOn(hooks) && Find(hooks, h.trampoline).None? && !op.isRemove && op.trampoline == h.trampoline
    ensures Committed([h] + hooks, [op]) == [h.(on := true)] + hooks
  {
    assert ([h] + hooks)[1..] == hooks;
    CommitOther(hooks, op);
    var turned := Turned([h] + hooks, [op]);
    assert turned[1..] == Turned(hooks, [op]);
  }

  /** Committing the one detach of a transaction. */
  lemma CommitDetach(hooks: seq<Hook>, h: Hook, op: Operation)
    requires AllOn(hooks) && Find(hooks, h.trampoline).None? && op.isRemove && op.trampoline == h.trampoline
    ensures Committed([h] + hooks, [op]) == hooks
  {
    assert ([h] + hooks)[1..] == hooks;
    CommitOther(hooks, op);
    var turned := Turned([h] + hooks, [op]);
    assert turned[1..] == Turned(hooks, [op]);
  }

  lemma {:induction false} CommitOther(hooks: seq<Hook>, op: Operation)
    requires Find(hooks, op.trampoline).None?
    ensures Turned(hooks, [op]) == hooks && Dropped(hooks, [op]) == hooks
    decreases |hooks|
  {
    if |hooks| > 0 {
      CommitOther(hooks[1..], op);
      assert OpOf([op], hooks[0].trampoline) == OpOf([op][1..], hooks[0].trampoline);
    }
  }
}
