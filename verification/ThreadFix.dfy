/** The loop of a commit that moves suspended threads out of code that is about to change (detours.cpp, 862-936). */
module ThreadFix {
  import opened Bytes
  import opened Options
  import opened Pending

  const SIZE_OF_POINTER := 4

  /** cbTarget of a trampoline. */
  function Covered(m: seq<Byte>, a: Dword): nat { if a + 32 <= |m| then m[a + 23] as nat else 0 }

  /** Where a thread at `ip` goes on once it has been looked at for one operation.  The size that a detach compares with
      is that of the pointer to the trampoline. */
  function FixOne(m: seq<Byte>, op: Operation, ip: Dword): Dword
  {
    if op.isRemove then
      if op.trampoline <= ip < Wrap(op.trampoline + SIZE_OF_POINTER) then Wrap(ip - op.trampoline + op.target) else ip
    else
      if op.target <= ip < Wrap(op.target + Covered(m, op.trampoline)) then Wrap(ip - op.target + op.trampoline) else ip
  }

  /** Where it goes on after all operations, in list order. */
  function FixAll(m: seq<Byte>, ops: seq<Operation>, ip: Dword): Dword
    decreases |ops|
  {
    if |ops| == 0 then ip else FixAll(m, ops[1..], FixOne(m, ops[0], ip))
  }

  /** Where it goes on when that is done `n` times. */
  function Times(m: seq<Byte>, ops: seq<Operation>, n: nat, ip: Dword): Dword
  {
    if n == 0 then ip else Times(m, ops, n - 1, FixAll(m, ops, ip))
  }

  /** The contexts of the suspended threads, one after the other; the system may refuse to tell some. */
  function FixThreads(m: seq<Byte>, ops: seq<Operation>, threads: seq<int>, contexts: map<int, Dword>): map<int, Dword>
    decreases |threads|
  {
    if |threads| == 0 then contexts
    else
      var now := if threads[0] in contexts then contexts[threads[0] := FixAll(m, ops, contexts[threads[0]])]
        else contexts;
      FixThreads(m, ops, threads[1..], now)
  }
}
