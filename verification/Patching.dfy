/** The parts of an attach and of a commit that read and write code: detours.cpp, 79-155, 773-797 and
    1131-1230. */
module Patching {
  import opened Bytes
  import opened Options
  import opened Disasm
  import opened CopyTables
  import opened Copier
  import opened Relocation
  import opened Trampolines
  import opened HookList

  // ---------------------------------------------------------------- where the code of a pointer is

  predicate Readable(m: seq<Byte>, a: nat, n: nat) { a + n <= |m| }

  /** The bytes that DetourCodeFromPointer reads. */
  predicate CanSkip(m: seq<Byte>, p: Dword, imported: bool)
  {
    p != 0 ==>
      && Readable(m, p, 6)
      && (m[p] == 0xff && m[p + 1] == 0x25 && imported ==> Readable(m, DwordAt(m, p + 2), 4))
      && (m[p] == 0xeb ==> Readable(m, Wrap(p + 2 + GetOffset(m[p + 1..p + 2])), 5))
  }

  /** DetourCodeFromPointer, by detour_skip_jmp; `imported` is the answer of detour_is_imported. */
  function SkipJmp(m: seq<Byte>, p: Dword, imported: bool): Dword
    requires CanSkip(m, p, imported)
  {
    if p == 0 then 0
    else if m[p] == 0xff && m[p + 1] == 0x25 then (if imported then DwordAt(m, DwordAt(m, p + 2)) else p)
    else if m[p] == 0xeb then
      var near := Wrap(p + 2 + GetOffset(m[p + 1..p + 2]));
      if m[near] == 0xe9 then Wrap(near + Signed(DwordAt(m, near + 1))) else near
    else p
  }

  // ---------------------------------------------------------------- where the jumps lead

  /** What the tables say of the two jumps. */
  predicate KnowsJumps(t: Tables)
  {
    && t.one(0xe9) == CopyEntry(5, 3, 0, 1, NoFlag, Action.CopyBytes)
    && t.one(0xeb) == CopyEntry(2, 2, 0, 1, NoFlag, Action.CopyBytes)
  }

  lemma X86KnowsJumps()
    ensures KnowsJumps(X86)
  {
    assert X86.one(0xe9) == OneByte(0xe9) && X86.one(0xeb) == OneByte(0xeb);
  }

  /** Where the branch at `at` leads, decoded by the tables. */
  function BranchAt(t: Tables, m: seq<Byte>, at: Dword): Dword
    requires WellFormed(t) && at <= |m|
  {
    match First(t, m[at..]) case None => at case Some(s) => Target(at, m[at..], s)
  }

  /** Where the chain of jumps at `p` leads: through an import, or through a short jump and a long one behind it. */
  function Follow(t: Tables, m: seq<Byte>, p: Dword, imported: bool): Dword
    requires WellFormed(t) && CanSkip(m, p, imported)
  {
    if p == 0 then 0
    else if m[p] == 0xff && m[p + 1] == 0x25 then (if imported then DwordAt(m, DwordAt(m, p + 2)) else p)
    else if m[p] == 0xeb then
      var near := BranchAt(t, m, p);
      if near < |m| && m[near] == 0xe9 then BranchAt(t, m, near) else near
    else p
  }

  /** At `p` there is a short jump that leads to a long one. */
  predicate ToLongJump(m: seq<Byte>, p: Dword, imported: bool)
    requires CanSkip(m, p, imported)
  {
    p != 0 && m[p] == 0xeb && m[Wrap(p + 2 + GetOffset(m[p + 1..p + 2]))] == 0xe9
  }

  /** A pointer is resolved to where its jumps lead, except that a long jump behind a short one is followed to the place
      five bytes before its target. */
  lemma LongJumpFallsShort(t: Tables, m: seq<Byte>, p: Dword, imported: bool)
    requires WellFormed(t) && KnowsJumps(t) && CanSkip(m, p, imported)
    ensures SkipJmp(m, p, imported) == Follow(t, m, p, imported) <==> !ToLongJump(m, p, imported)
    ensures ToLongJump(m, p, imported) ==> Wrap(SkipJmp(m, p, imported) + 5) == Follow(t, m, p, imported)
  {
    hide WellFormed, BranchAt, DwordAt, GetOffset, First, Wrap, Signed;
    if p != 0 && m[p] == 0xeb {
      ShortJump(t, m, p);
      var near := BranchAt(t, m, p);
      if m[near] == 0xe9 {
        LongJump(t, m, near);
        WrapSum(near, Signed(DwordAt(m, near + 1)), 5);
        FiveFurther(Wrap(near + Signed(DwordAt(m, near + 1))));
      }
    }
  }

  lemma ShortJump(t: Tables, m: seq<Byte>, at: Dword)
    requires WellFormed(t) && KnowsJumps(t) && at + 2 <= |m| && m[at] == 0xeb
    ensures BranchAt(t, m, at) == Wrap(at + 2 + GetOffset(m[at + 1..at + 2]))
  {
    hide WellFormed;
    var code := m[at..];
    assert First(t, code) == Some(Shape(2, 1, 1, false, Relative, true));
    assert code[1..2] == m[at + 1..at + 2];
  }

  lemma LongJump(t: Tables, m: seq<Byte>, at: Dword)
    requires WellFormed(t) && KnowsJumps(t) && at + 5 <= |m| && m[at] == 0xe9
    ensures BranchAt(t, m, at) == Wrap(at + 5 + Signed(DwordAt(m, at + 1)))
  {
    hide WellFormed;
    var code := m[at..];
    assert First(t, code) == Some(Shape(5, 1, 4, false, Relative, true));
    assert code[1..5] == m[at + 1..at + 5] && DwordAt(code[1..5], 0) == DwordAt(m, at + 1);
  }

  /** Decoded by the tables, a near jump leads where it leads on the processor. */
  lemma JumpDecoded(t: Tables, m: seq<Byte>, at: Dword, to: int)
    requires WellFormed(t) && KnowsJumps(t) && JumpsTo(m, at, to)
    ensures BranchAt(t, m, at) == to
  {
    hide WellFormed, BranchAt;
    LongJump(t, m, at);
  }

  /** The jump at `at` leads to `to`, on the processor and decoded by the tables. */
  predicate Leads(t: Tables, m: seq<Byte>, at: int, to: int)
    requires WellFormed(t)
  {
    JumpsTo(m, at, to) && at < 0x1_0000_0000 && (KnowsJumps(t) ==> BranchAt(t, m, at) == to)
  }

  lemma LeadsBy(t: Tables, m: seq<Byte>, at: Dword, to: Dword)
    requires WellFormed(t) && at + 5 <= |m| && m[at..at + 5] == Jmp(at, to)
    ensures Leads(t, m, at, to)
  {
    hide WellFormed, BranchAt, KnowsJumps, Jmp, JumpsTo;
    JmpLeads(m, at, to);
    if KnowsJumps(t) {
      JumpDecoded(t, m, at, to);
    }
  }

  /** The end of the moved code leads behind the hooked code. */
  lemma BackLeads(t: Tables, m: seq<Byte>, h: Hook)
    requires WellFormed(t) && h.trampoline + 32 <= |m| && TrampolineFor(t, m[h.trampoline..h.trampoline + 32], h)
    ensures Leads(t, m, h.trampoline + h.Size(), h.target + h.Size())
  {
    hide WellFormed, Moved, Window, Jmp, Fill, DwordAt, Leads;
    var slot, n := m[h.trampoline..h.trampoline + 32], h.Size();
    SliceOfSlice(m, h.trampoline, h.trampoline + 32, n, n + 5);
    LeadsBy(t, m, h.trampoline + n, h.target + n);
  }

  /** The jump to the detour is in memory, padded with int 3. */
  lemma HookLeads(t: Tables, m: seq<Byte>, h: Hook)
    requires WellFormed(t) && 5 <= h.Size() && h.target + h.Size() <= |m|
    requires m[h.target..h.target + h.Size()] == Patch(h)
    ensures Leads(t, m, h.target, h.detour) && forall i | h.target + 5 <= i < h.target + h.Size() :: m[i] == 0xcc
  {
    hide WellFormed, Jmp, Leads, Fill;
    var w := m[h.target..h.target + h.Size()];
    assert m[h.target..h.target + 5] == w[..5];
    LeadsBy(t, m, h.target, h.detour);
    forall i | h.target + 5 <= i < h.target + h.Size()
      ensures m[i] == 0xcc
    {
      assert m[i] == w[i - h.target];
    }
  }

  lemma FiveFurther(x: Dword)
    ensures Wrap(x + 5) != x
  {
  }

  /** An input: the jumps lead to address 24, the pointer is resolved to 19. */
  lemma LongJumpMissed(m: seq<Byte>)
    requires WellFormed(X86) && m == [0x90, 0xeb, 0x00, 0xe9, 0x10, 0x00, 0x00, 0x00]
    ensures CanSkip(m, 1, false) && SkipJmp(m, 1, false) == 19 && Follow(X86, m, 1, false) == 24
  {
    hide WellFormed, First, BranchAt;
    X86KnowsJumps();
    assert m[2..3] == [0x00];
    ShortJump(X86, m, 1);
    LongJump(X86, m, 3);
  }

  lemma WrapSum(a: int, v: int, k: int)
    ensures Wrap(Wrap(a + v) + k) == Wrap(a + k + v)
  {
    var q := (a + v) / 0x1_0000_0000;
    assert a + k + v == Wrap(a + v) + k + 0x1_0000_0000 * q;
    AddMultiple(Wrap(a + v) + k, q);
  }

  /** detour_does_code_end_function. */
  predicate EndsFunction(b: seq<Byte>)
    requires |b| >= 3
  {
    || b[0] in {0xe9, 0xe0, 0xc2, 0xc3, 0xcc}
    || (b[0] == 0xff && b[1] == 0x25)
    || (b[0] in {0x26, 0x2e, 0x36, 0xe3, 0x64, 0x65} && b[1] == 0xff && b[2] == 0x25)
  }

  // ---------------------------------------------------------------- moving a window out

  /** How many bytes of the window the attach loop moves: it stops at five, at an instruction that would
      have to grow, and after one that ends the function.  `tail` is the code after the window. */
  function Movable(t: Tables, w: seq<Byte>, tail: seq<Byte>, delta: int, before: nat): nat
    requires WellFormed(t) && |tail| == 2
    decreases |w|
  {
    if before >= 5 || |w| == 0 then before
    else match First(t, w)
      case None => before
      case Some(s) =>
        if Extra(w, s, delta) != 0 then before
        else if EndsFunction(w + tail) then before + s.len
        else Movable(t, w[s.len..], tail, delta, before + s.len)
  }

  lemma MovableStep(t: Tables, w: seq<Byte>, tail: seq<Byte>, delta: int, before: nat, s: Shape)
    requires WellFormed(t) && |tail| == 2 && |w| > 0 && First(t, w) == Some(s) && before < 5
    ensures Movable(t, w, tail, delta, before) ==
            if Extra(w, s, delta) != 0 then before
            else if EndsFunction(w + tail) then before + s.len
            else Movable(t, w[s.len..], tail, delta, before + s.len)
  {
    hide Decode, First, Extra, WellFormed;
  }

  lemma MovableDone(t: Tables, w: seq<Byte>, tail: seq<Byte>, delta: int, before: nat)
    requires WellFormed(t) && |tail| == 2 && before >= 5
    ensures Movable(t, w, tail, delta, before) == before
  {
  }

  /** One round of the attach loop, on memory: the instruction `x` is copied behind the copy of `w`. */
  lemma MoveRound(t: Tables, m: seq<Byte>, n: seq<Byte>, a: Dword, src: nat, w: seq<Byte>, x: seq<Byte>, s: Shape)
    requires WellFormed(t) && |x| > 0 && First(t, x) == Some(s) && s.len == |x| && |w| + |x| <= 32 && a + 32 <= |m|
    requires Apart(|m|, a + |w|, src + |w|, |x|) && m[src + |w|..src + |w| + |x|] == x && ShapeOk(s, s.len)
    requires m[a + |w|..a + 32] == Brks(32 - |w|) && n == CopyAt(m, a + |w|, src + |w|, s)
    ensures OnlySlot(m, n, a) && n[a + |w| + |x|..a + 32] == Brks(32 - |w| - |x|)
    ensures Extra(x, s, a - src) == 0 && Moved(t, w, m[a..a + 32], a - src) ==> Moved(t, w + x, n[a..a + 32], a - src)
  {
    hide First, Extra, WellFormed, Moved, Copied, Overwrite, OnlySlot, CopyAt, Brks, ShapeOk;
    CopyOverBrks(m, a, |w|, src + |w|, x, s);
    SlotRound(m, n, a, |w|, Copied(x, Brks(|x|), s, a - src));
    if Extra(x, s, a - src) == 0 && Moved(t, w, m[a..a + 32], a - src) {
      SlotMoved(t, m[a..a + 32], w, x, s, a - src);
    }
  }

  lemma SlotRound(m: seq<Byte>, n: seq<Byte>, a: Dword, at: nat, bytes: seq<Byte>)
    requires at + |bytes| <= 32 && a + 32 <= |m| && m[a + at..a + 32] == Brks(32 - at)
    requires n == Overwrite(m, a + at, bytes)
    ensures OnlySlot(m, n, a) && n[a + at + |bytes|..a + 32] == Brks(32 - at - |bytes|)
    ensures n[a..a + 32] == Overwrite(m[a..a + 32], at, bytes)
  {
    hide Overwrite, OnlySlot, Fill;
    WriteInSlot(m, a, at, bytes);
    SlotWrite(m, a, at, bytes);
    BrksBehind(m, a, at, bytes);
  }

  lemma CopyOverBrks(m: seq<Byte>, a: nat, at: nat, src: nat, x: seq<Byte>, s: Shape)
    requires ShapeOk(s, s.len) && s.len == |x| && at + |x| <= 32 && a + 32 <= |m|
    requires Apart(|m|, a + at, src, |x|) && m[src..src + |x|] == x && m[a + at..a + 32] == Brks(32 - at)
    ensures CopyAt(m, a + at, src, s) == Overwrite(m, a + at, Copied(x, Brks(|x|), s, a + at - src))
  {
    hide Copied, Overwrite, Fill;
    BrksPart(32 - at, 0, |x|);
    assert m[a + at..a + at + |x|] == m[a + at..a + 32][0..|x|];
  }

  lemma BrksPart(n: nat, i: nat, j: nat)
    requires i <= j <= n
    ensures Brks(n)[i..j] == Brks(j - i)
  {
  }

  lemma BrksBehind(m: seq<Byte>, a: nat, at: nat, bytes: seq<Byte>)
    requires at + |bytes| <= 32 && a + 32 <= |m| && m[a + at..a + 32] == Brks(32 - at)
    ensures Overwrite(m, a + at, bytes)[a + at + |bytes|..a + 32] == Brks(32 - at - |bytes|)
  {
    hide Overwrite, Fill;
    OverwriteElsewhere(m, a + at, bytes, a + at + |bytes|, a + 32);
    BrksPart(32 - at, |bytes|, 32 - at);
    assert m[a + at + |bytes|..a + 32] == m[a + at..a + 32][|bytes|..32 - at];
  }

  lemma CopyKnown(m: seq<Byte>, dst: nat, src: nat, x: seq<Byte>, s: Shape)
    requires ShapeOk(s, s.len) && s.valid && s.len == |x| && Apart(|m|, dst, src, |x|) && m[src..src + |x|] == x
    ensures CopyAt(m, dst, src, s) == Overwrite(m, dst, Copied(x, x, s, dst - src))
  {
    hide Copied, Overwrite;
    KnownIgnoresDst(x, m[dst..dst + |x|], x, s, dst - src);
  }

  lemma SlotMoved(t: Tables, slot: seq<Byte>, w: seq<Byte>, x: seq<Byte>, s: Shape, delta: int)
    requires WellFormed(t) && |slot| == 32 && |w| + |x| <= 32 && Moved(t, w, slot, delta)
    requires |x| > 0 && First(t, x) == Some(s) && s.len == |x| && Extra(x, s, delta) == 0
    ensures Moved(t, w + x, Overwrite(slot, |w|, Copied(x, Brks(|x|), s, delta)), delta)
  {
    hide *;
    FirstShape(t, x, s);
    var copy := Copied(x, Brks(|x|), s, delta);
    OverwriteParts(slot, |w|, copy);
    MovedLocal(t, w, slot, Overwrite(slot, |w|, copy), delta);
    MovedAppend(t, w, x, s, Overwrite(slot, |w|, copy), delta);
  }

  lemma FirstShape(t: Tables, x: seq<Byte>, s: Shape)
    requires WellFormed(t) && First(t, x) == Some(s)
    ensures ShapeOk(s, |x|)
  {
  }

  lemma WriteInSlot(m: seq<Byte>, a: Dword, at: nat, bytes: seq<Byte>)
    requires a + 32 <= |m| && at + |bytes| <= 32
    ensures OnlySlot(m, Overwrite(m, a + at, bytes), a)
  {
    OverwriteElsewhere(m, a + at, bytes, 0, a);
    OverwriteElsewhere(m, a + at, bytes, a + 32, |m|);
  }

  lemma SlotWrite(m: seq<Byte>, a: Dword, at: nat, bytes: seq<Byte>)
    requires a + 32 <= |m| && at + |bytes| <= 32
    ensures Overwrite(m, a + at, bytes)[a..a + 32] == Overwrite(m[a..a + 32], at, bytes)
  {
  }

  lemma OverwriteParts(b: seq<Byte>, at: nat, bytes: seq<Byte>)
    requires at + |bytes| <= |b|
    ensures Overwrite(b, at, bytes)[..at] == b[..at]
    ensures Overwrite(b, at, bytes)[at..at + |bytes|] == bytes
    ensures Overwrite(b, at, bytes)[at + |bytes|..] == b[at + |bytes|..]
  {
  }

  lemma OnlySlotTrans(m: seq<Byte>, n: seq<Byte>, k: seq<Byte>, a: Dword)
    requires OnlySlot(m, n, a) && OnlySlot(n, k, a)
    ensures OnlySlot(m, k, a)
  {
  }

  /** The next instruction of the window. */
  lemma NextInWindow(t: Tables, w: seq<Byte>, tail: seq<Byte>, n: nat, delta: int) returns (code: seq<Byte>, s: Shape)
    requires WellFormed(t) && |tail| == 2 && n < 5 && n <= |w| && Window(t, w[n..], n)
    ensures |w| > n && First(t, w[n..]) == Some(s) && First(t, code) == Some(s) && 0 < s.len == |code| <= 15
    ensures n + |code| <= |w| && code == (w + tail)[n..n + s.len] && Window(t, w[n + |code|..], n + |code|)
    ensures w[n..][s.len..] == w[n + |code|..]
    ensures Extra(code, s, delta) == Extra(w[n..], s, delta)
    ensures ShapeOk(s, s.len) && w[..n] + code == w[..n + |code|]
  {
    hide Extra, Window, Decode, WellFormed;
    var rest := w[n..];
    if |rest| == 0 {
      WindowSize(t, rest, n);
      assert false;
    }
    WindowStep(t, rest, n);
    s := First(t, rest).value;
    code := rest[..s.len];
    FirstAlone(t, rest);
    SamePrefix(rest, code, s, rest, delta);
  }

  /** DetourCopyInstructionEx, without a place for the target. */
  method CopyOne(tables: Tables, mem: array<Byte>, dst: nat, src: nat, ghost code: seq<Byte>, ghost s: Shape)
    returns (next: nat, extra: int)
    requires WellFormed(tables) && First(tables, code) == Some(s) && s.len == |code|
    requires Apart(mem.Length, dst, src, |code|) && mem[src..src + |code|] == code
    modifies mem
    ensures next == src + |code| && ShapeOk(s, s.len)
    ensures mem[..] == CopyAt(old(mem[..]), dst, src, s) && extra == Extra(code, s, dst - src)
  {
    hide Decode, CopyAt, Extra, WellFormed;
    var copier := new InstructionCopier(tables, mem);
    next := copier.CopyInstruction(dst, src, code);
    extra := copier.extra;
  }

  /** The code under the attach loop does not change. */
  lemma WindowBytes(m: seq<Byte>, k: seq<Byte>, a: Dword, target: Dword, code: seq<Byte>, i: nat, j: nat)
    requires OnlySlot(m, k, a) && target + |code| <= |m| && (a + 32 <= target || target + |code| <= a)
    requires m[target..target + |code|] == code && i <= j <= |code|
    ensures |k| == |m| && k[target + i..target + j] == code[i..j]
  {
    hide OnlySlot;
    OnlySlotSize(m, k, a);
    OnlySlotElsewhere(m, k, a, target, target + |code|);
    SliceOfSlice(k, target, target + |code|, i, j);
  }

  lemma StartMoving(t: Tables, m: seq<Byte>, a: Dword, target: Dword, w: seq<Byte>, tail: seq<Byte>)
    requires WellFormed(t) && a + 32 <= |m| && |tail| == 2 && Window(t, w, 0) && m[a..a + 32] == Brks(32)
    ensures OnlySlot(m, m, a) && Moving(t, m, m, a, target, w, tail, 0)
  {
    hide First, Fill;
    assert w[0..] == w;
  }

  lemma WindowEnd(t: Tables, w: seq<Byte>, n: nat)
    requires WellFormed(t) && n <= |w| && Window(t, w[n..], n) && n >= 5
    ensures n == |w| && w[..n] == w
  {
  }

  /** The attach loop after `n` bytes: `m` is memory before it, `k` memory now. */
  ghost predicate Moving(t: Tables, m: seq<Byte>, k: seq<Byte>, a: Dword, target: Dword, w: seq<Byte>, tail: seq<Byte>,
                         n: nat)
    requires WellFormed(t) && |tail| == 2
  {
    && n <= |w| && Window(t, w[n..], n) && OnlySlot(m, k, a)
    && n <= 19 && k[a + n..a + 32] == Brks(32 - n) && Moved(t, w[..n], k[a..a + 32], a - target)
    && Movable(t, w, tail, a - target, 0) == Movable(t, w[n..], tail, a - target, n)
  }

  /** The slot and the code to be moved, with two bytes after it, do not meet. */
  ghost predicate Placed(m: seq<Byte>, a: Dword, target: Dword, w: seq<Byte>, tail: seq<Byte>)
  {
    && |tail| == 2 && a + 32 <= |m|
    && target + |w| + 2 <= |m| && (a + 32 <= target || target + |w| + 2 <= a)
    && m[target..target + |w| + 2] == w + tail
  }

  /** One round of the attach loop. */
  lemma MovingStep(t: Tables, m: seq<Byte>, k: seq<Byte>, a: Dword, target: Dword, w: seq<Byte>, tail: seq<Byte>,
                   n: nat)
    returns (code: seq<Byte>, s: Shape, next: seq<Byte>, ends: bool)
    requires WellFormed(t) && Placed(m, a, target, w, tail) && n < 5 && Moving(t, m, k, a, target, w, tail, n)
    ensures First(t, code) == Some(s) && 0 < s.len == |code| <= 15 && ShapeOk(s, s.len) && n + |code| <= |w|
    ensures |k| == |m| && Apart(|k|, a + n, target + n, |code|) && k[target + n..target + n + |code|] == code
    ensures next == CopyAt(k, a + n, target + n, s) && OnlySlot(m, next, a)
    ensures target + n + 3 <= |next| && ends == EndsFunction(next[target + n..target + n + 3])
    ensures Extra(code, s, a - target) != 0 ==> Movable(t, w, tail, a - target, 0) == n
    ensures Extra(code, s, a - target) == 0 && ends ==>
              Movable(t, w, tail, a - target, 0) == n + |code| && MovedEnough(t, next, a, target, w, n + |code|)
    ensures Extra(code, s, a - target) == 0 && !ends ==> Moving(t, m, next, a, target, w, tail, n + |code|)
  {
    hide First, Extra, Window, WellFormed, Moved, Movable, CopyAt, OnlySlot, ShapeOk, EndsFunction, Overwrite, FirstLen,
      Fill;
    code, s := NextInWindow(t, w, tail, n, a - target);
    WindowBytes(m, k, a, target, w + tail, n, n + |code|);
    MovableStep(t, w[n..], tail, a - target, n, s);
    next := CopyAt(k, a + n, target + n, s);
    MoveRound(t, k, next, a, target, w[..n], code, s);
    OnlySlotTrans(m, k, next, a);
    EndsHere(m, next, a, target, w, tail, n);
    ends := EndsFunction(next[target + n..target + n + 3]);
    if Extra(code, s, a - target) == 0 && n + |code| >= 5 {
      WindowEnd(t, w, n + |code|);
    }
  }

  /** The code that ends a function can be looked at in memory or in the window. */
  lemma EndsHere(m: seq<Byte>, k: seq<Byte>, a: Dword, target: Dword, w: seq<Byte>, tail: seq<Byte>, n: nat)
    requires Placed(m, a, target, w, tail) && OnlySlot(m, k, a) && n < |w|
    ensures target + n + 3 <= |k| && EndsFunction(k[target + n..target + n + 3]) == EndsFunction(w[n..] + tail)
  {
    hide OnlySlot, EndsFunction;
    WindowBytes(m, k, a, target, w + tail, n, n + 3);
    SameEnds(k[target + n..target + n + 3], w, tail, n);
  }

  /** Once five bytes have been moved, the whole window has been. */
  ghost predicate MovedEnough(t: Tables, k: seq<Byte>, a: Dword, target: Dword, w: seq<Byte>, n: nat)
    requires WellFormed(t) && a + 32 <= |k|
  {
    n >= 5 ==> n == |w| && Moved(t, w, k[a..a + 32], a - target)
  }

  lemma MovingDone(t: Tables, m: seq<Byte>, k: seq<Byte>, a: Dword, target: Dword, w: seq<Byte>, tail: seq<Byte>,
                   n: nat)
    requires WellFormed(t) && |tail| == 2 && Moving(t, m, k, a, target, w, tail, n) && n >= 5
    ensures a + 32 <= |k| && Movable(t, w, tail, a - target, 0) == n && MovedEnough(t, k, a, target, w, n)
  {
    hide First, Window, WellFormed, Moved, Movable, Fill;
    WindowEnd(t, w, n);
    MovableDone(t, w[n..], tail, a - target, n);
  }

  /** The attach loop: copy instructions from `target` to the trampoline until five bytes are free. */
  method MoveCode(tables: Tables, mem: array<Byte>, target: Dword, a: Dword, ghost w: seq<Byte>, ghost tail: seq<Byte>)
    returns (n: nat)
    requires WellFormed(tables) && Placed(mem[..], a, target, w, tail) && Window(tables, w, 0)
    requires mem[a..a + 32] == Brks(32)
    modifies mem
    ensures OnlySlot(old(mem[..]), mem[..], a) && n <= 19
    ensures n == Movable(tables, w, tail, a - target, 0) && MovedEnough(tables, mem[..], a, target, w, n)
  {
    hide First, Extra, Window, WellFormed, Moved, Movable, CopyAt, OnlySlot, Moving, MovedEnough, EndsFunction, Fill;
    n := 0;
    ghost var m := mem[..];
    StartMoving(tables, m, a, target, w, tail);
    while n < 5
      invariant n <= 19 && Moving(tables, m, mem[..], a, target, w, tail, n)
      invariant OnlySlot(m, mem[..], a)
      decreases 5 - n
    {
      ghost var code, s, copied, ends := MovingStep(tables, m, mem[..], a, target, w, tail, n);
      var op := target + n;
      var next, extra := CopyOne(tables, mem, a + n, op, code, s);
      if extra != 0 {
        TooFew(tables, mem[..], a, target, w, n);
        return;
      }
      n := next - target;
      assert mem[op..op + 3] == mem[..][op..op + 3];
      if EndsFunction(mem[op..op + 3]) {
        return;
      }
    }
    MovingDone(tables, m, mem[..], a, target, w, tail, n);
  }

  lemma TooFew(t: Tables, k: seq<Byte>, a: Dword, target: Dword, w: seq<Byte>, n: nat)
    requires WellFormed(t) && a + 32 <= |k| && n < 5
    ensures MovedEnough(t, k, a, target, w, n)
  {
  }

  lemma SameEnds(b: seq<Byte>, w: seq<Byte>, tail: seq<Byte>, n: nat)
    requires n < |w| && |tail| == 2 && b == (w + tail)[n..n + 3]
    ensures EndsFunction(b) == EndsFunction(w[n..] + tail)
  {
    assert b[0] == (w[n..] + tail)[0] && b[1] == (w[n..] + tail)[1] && b[2] == (w[n..] + tail)[2];
  }

  // ---------------------------------------------------------------- jumps and breaks

  /** detour_gen_jmp_immediate. */
  method GenJmp(mem: array<Byte>, at: Dword, to: Dword) returns (next: nat)
    requires at + 5 <= mem.Length
    modifies mem
    ensures next == at + 5 && mem[..] == Overwrite(old(mem[..]), at, Jmp(at, to)) && JumpsTo(mem[..], at, to)
  {
    hide DwordBytes, JumpsTo;
    var offset := DwordBytes(Wrap(to - (at + 5)));
    mem[at] := 0xe9;
    forall i | 0 <= i < 4 { mem[at + 1 + i] := offset[i]; }
    next := at + 5;
    OverwriteParts(old(mem[..]), at, Jmp(at, to));
    JmpLeads(mem[..], at, to);
  }

  /** The bytes from `at` up to `limit`. */
  function Gap(at: nat, limit: nat): nat { if at < limit then limit - at else 0 }

  /** detour_gen_brk. */
  method GenBrk(mem: array<Byte>, at: nat, limit: nat) returns (next: nat)
    requires at <= mem.Length && limit <= mem.Length
    modifies mem
    ensures next == at + Gap(at, limit) && mem[..] == Overwrite(old(mem[..]), at, Brks(Gap(at, limit)))
  {
    hide Overwrite, Fill;
    ghost var m := mem[..];
    next := at;
    NothingWritten(m, at);
    while next < limit
      invariant at <= next <= at + Gap(at, limit) && mem[..] == Overwrite(m, at, Brks(next - at))
    {
      OneMoreBrk(m, at, next - at);
      WriteByte(mem, next, BRK);
      next := next + 1;
    }
  }

  method WriteByte(mem: array<Byte>, at: nat, b: Byte)
    requires at < mem.Length
    modifies mem
    ensures mem[..] == Overwrite(old(mem[..]), at, [b])
  {
    mem[at] := b;
  }

  method WriteDword(mem: array<Byte>, at: nat, v: Dword)
    requires at + 4 <= mem.Length
    modifies mem
    ensures mem[..] == Overwrite(old(mem[..]), at, DwordBytes(v))
  {
    hide DwordBytes;
    var bytes := DwordBytes(v);
    forall i | 0 <= i < 4 { mem[at + i] := bytes[i]; }
  }

  method ReadDword(mem: array<Byte>, at: nat) returns (v: Dword)
    requires at + 4 <= mem.Length
    ensures v == DwordAt(mem[..], at)
  {
    v := DwordAt(mem[at..at + 4], 0);
  }

  lemma NothingWritten(m: seq<Byte>, at: nat)
    requires at <= |m|
    ensures m == Overwrite(m, at, Brks(0))
  {
  }

  lemma OneMoreBrk(m: seq<Byte>, at: nat, n: nat)
    requires at + n + 1 <= |m|
    ensures Overwrite(Overwrite(m, at, Brks(n)), at + n, [BRK]) == Overwrite(m, at, Brks(n + 1))
  {
    OverwriteTwice(m, at, Brks(n), [BRK]);
  }

  // ---------------------------------------------------------------- filling a trampoline

  /** The trampoline once its fields, the jump behind the moved code and the padding are written. */
  function Filled(slot: seq<Byte>, a: Dword, target: Dword, detour: Dword, n: nat): (r: seq<Byte>)
    requires |slot| == 32 && n <= 18 && target + n < 0x1_0000_0000 && a + n < 0x1_0000_0000
    ensures |r| == 32
  {
    var fields := Overwrite(Overwrite(Overwrite(slot, 24, DwordBytes(target + n)), 28, DwordBytes(detour)), 23, [n]);
    Overwrite(Overwrite(fields, n, Jmp(a + n, target + n)), n + 5, Brks(18 - n))
  }

  lemma FilledParts(slot: seq<Byte>, a: Dword, target: Dword, detour: Dword, n: nat)
    requires |slot| == 32 && n <= 18 && target + n < 0x1_0000_0000 && a + n < 0x1_0000_0000
    ensures var r := Filled(slot, a, target, detour, n);
            && r[..n] == slot[..n]
            && r[n..n + 5] == Jmp(a + n, target + n) && r[n + 5..23] == Brks(18 - n)
            && r[23] == n && DwordAt(r, 24) == target + n && DwordAt(r, 28) == detour
  {
    hide Overwrite, Fill, Jmp, DwordBytes;
    var s1 := Overwrite(slot, 24, DwordBytes(target + n));
    var s2 := Overwrite(s1, 28, DwordBytes(detour));
    var s3 := Overwrite(s2, 23, [n]);
    var s4 := Overwrite(s3, n, Jmp(a + n, target + n));
    var r := Overwrite(s4, n + 5, Brks(18 - n));
    OverwriteParts(s4, n + 5, Brks(18 - n));
    OverwriteParts(s3, n, Jmp(a + n, target + n));
    OverwriteElsewhere(s4, n + 5, Brks(18 - n), n, n + 5);
    FilledHead(slot, s1, s2, s3, s4, r, a, target, detour, n);
    FilledFields(slot, s1, s2, s3, s4, r, a, target, detour, n);
  }

  lemma FilledHead(slot: seq<Byte>, s1: seq<Byte>, s2: seq<Byte>, s3: seq<Byte>, s4: seq<Byte>, r: seq<Byte>, a: Dword,
                   target: Dword, detour: Dword, n: nat)
    requires |slot| == 32 && n <= 18 && target + n < 0x1_0000_0000 && a + n < 0x1_0000_0000
    requires s1 == Overwrite(slot, 24, DwordBytes(target + n)) && s2 == Overwrite(s1, 28, DwordBytes(detour))
    requires s3 == Overwrite(s2, 23, [n]) && s4 == Overwrite(s3, n, Jmp(a + n, target + n))
    requires r == Overwrite(s4, n + 5, Brks(18 - n))
    ensures r[0..n] == slot[0..n]
  {
    hide Overwrite, Fill, Jmp, DwordBytes;
    OverwriteElsewhere(slot, 24, DwordBytes(target + n), 0, n);
    OverwriteElsewhere(s1, 28, DwordBytes(detour), 0, n);
    OverwriteElsewhere(s2, 23, [n], 0, n);
    OverwriteElsewhere(s3, n, Jmp(a + n, target + n), 0, n);
    OverwriteElsewhere(s4, n + 5, Brks(18 - n), 0, n);
  }

  lemma FilledFields(slot: seq<Byte>, s1: seq<Byte>, s2: seq<Byte>, s3: seq<Byte>, s4: seq<Byte>, r: seq<Byte>,
                     a: Dword, target: Dword, detour: Dword, n: nat)
    requires |slot| == 32 && n <= 18 && target + n < 0x1_0000_0000 && a + n < 0x1_0000_0000
    requires s1 == Overwrite(slot, 24, DwordBytes(target + n)) && s2 == Overwrite(s1, 28, DwordBytes(detour))
    requires s3 == Overwrite(s2, 23, [n]) && s4 == Overwrite(s3, n, Jmp(a + n, target + n))
    requires r == Overwrite(s4, n + 5, Brks(18 - n))
    ensures r[23] == n && DwordAt(r, 24) == target + n && DwordAt(r, 28) == detour
  {
    hide Overwrite, Fill, Jmp, DwordBytes, DwordAt;
    OverwriteElsewhere(s3, n, Jmp(a + n, target + n), 23, 24);
    OverwriteElsewhere(s4, n + 5, Brks(18 - n), 23, 24);
    OverwriteParts(s2, 23, [n]);
    assert r[23] == r[23..24][0] == s3[23..24][0] == n;
    DwordStored(slot, 24, target + n);
    DwordElsewhere(s1, 28, DwordBytes(detour), 24);
    DwordElsewhere(s2, 23, [n], 24);
    DwordElsewhere(s3, n, Jmp(a + n, target + n), 24);
    DwordElsewhere(s4, n + 5, Brks(18 - n), 24);
    DwordStored(s1, 28, detour);
    DwordElsewhere(s2, 23, [n], 28);
    DwordElsewhere(s3, n, Jmp(a + n, target + n), 28);
    DwordElsewhere(s4, n + 5, Brks(18 - n), 28);
  }

  /** A filled trampoline serves its hook. */
  lemma FilledOk(t: Tables, slot: seq<Byte>, h: Hook)
    requires WellFormed(t) && |slot| == 32 && 5 <= h.Size() <= 18
    requires h.target + h.Size() < 0x1_0000_0000 && h.trampoline + h.Size() < 0x1_0000_0000
    requires Window(t, h.saved, 0) && Moved(t, h.saved, slot, h.trampoline - h.target)
    ensures TrampolineFor(t, Filled(slot, h.trampoline, h.target, h.detour, h.Size()), h)
  {
    hide Filled, Moved, Window, Jmp, Fill, DwordAt, WellFormed;
    var r := Filled(slot, h.trampoline, h.target, h.detour, h.Size());
    FilledParts(slot, h.trampoline, h.target, h.detour, h.Size());
    MovedLocal(t, h.saved, slot, r, h.trampoline - h.target);
  }

  /** The fields of a new trampoline, the jump to the code after the window, and the padding. */
  method FillTrampoline(mem: array<Byte>, a: Dword, target: Dword, detour: Dword, n: nat)
    requires a + 32 <= mem.Length && n <= 18 && target + n < 0x1_0000_0000 && a + n < 0x1_0000_0000
    modifies mem
    ensures OnlySlot(old(mem[..]), mem[..], a)
    ensures mem[a..a + 32] == Filled(old(mem[a..a + 32]), a, target, detour, n) && JumpsTo(mem[..], a + n, target + n)
  {
    hide Overwrite, Fill, Jmp, DwordBytes, OnlySlot, JumpsTo;
    ghost var m := mem[..];
    WriteDword(mem, a + 24, target + n);
    SlotStep(m, a, 24, DwordBytes(target + n));
    ghost var m1 := mem[..];
    WriteDword(mem, a + 28, detour);
    SlotStep(m1, a, 28, DwordBytes(detour));
    ghost var m2 := mem[..];
    WriteByte(mem, a + 23, n);
    SlotStep(m2, a, 23, [n]);
    ghost var m3 := mem[..];
    var next := GenJmp(mem, a + n, target + n);
    SlotStep(m3, a, n, Jmp(a + n, target + n));
    ghost var m4 := mem[..];
    next := GenBrk(mem, next, a + 23);
    SlotStep(m4, a, n + 5, Brks(18 - n));
    OnlySlotTrans(m, m1, m2, a);
    OnlySlotTrans(m, m2, m3, a);
    OnlySlotTrans(m, m3, m4, a);
    OnlySlotTrans(m, m4, mem[..], a);
    FilledLeads(mem[..], old(mem[a..a + 32]), a, target, detour, n);
  }

  lemma FilledLeads(m: seq<Byte>, slot: seq<Byte>, a: Dword, target: Dword, detour: Dword, n: nat)
    requires a + 32 <= |m| && |slot| == 32 && n <= 18 && target + n < 0x1_0000_0000 && a + n < 0x1_0000_0000
    requires m[a..a + 32] == Filled(slot, a, target, detour, n)
    ensures JumpsTo(m, a + n, target + n)
  {
    hide Filled, Jmp, Fill, DwordAt, JumpsTo;
    FilledParts(slot, a, target, detour, n);
    SliceOfSlice(m, a, a + 32, n, n + 5);
    JmpLeads(m, a + n, target + n);
  }

  lemma SlotStep(m: seq<Byte>, a: Dword, at: nat, bytes: seq<Byte>)
    requires a + 32 <= |m| && at + |bytes| <= 32
    ensures OnlySlot(m, Overwrite(m, a + at, bytes), a)
    ensures Overwrite(m, a + at, bytes)[a..a + 32] == Overwrite(m[a..a + 32], at, bytes)
  {
    WriteInSlot(m, a, at, bytes);
    SlotWrite(m, a, at, bytes);
  }

  // ---------------------------------------------------------------- committing

  /** The code at `target`, once the attach with the trampoline at `a` has been carried out.  pbRemain is read after the
      jump has been written. */
  function Jumped(m: seq<Byte>, target: Dword, a: Dword): (r: seq<Byte>)
    requires CanJump(m, target, a)
    ensures |r| == |m|
  {
    var jump := Overwrite(m, target, Jmp(target, DwordAt(m, a + 28)));
    Overwrite(jump, target + 5, Brks(Gap(target + 5, DwordAt(jump, a + 24))))
  }

  /** The jump and the padding lie in memory. */
  predicate CanJump(m: seq<Byte>, target: Dword, a: Dword)
  {
    && a + 32 <= |m| && target + 5 <= |m|
    && DwordAt(Overwrite(m, target, Jmp(target, DwordAt(m, a + 28))), a + 24) <= |m|
  }

  /** Committing an attach: the jump to the detour goes over the window. */
  method WriteJump(mem: array<Byte>, target: Dword, a: Dword)
    requires CanJump(mem[..], target, a)
    modifies mem
    ensures mem[..] == Jumped(old(mem[..]), target, a) && JumpsTo(mem[..], target, DwordAt(old(mem[..]), a + 28))
  {
    hide Overwrite, Fill, Jmp, DwordAt, JumpsTo;
    ghost var m := mem[..];
    var detour := ReadDword(mem, a + 28);
    var next := GenJmp(mem, target, detour);
    var remain := ReadDword(mem, a + 24);
    ghost var jump := mem[..];
    next := GenBrk(mem, next, remain);
    OverwriteParts(m, target, Jmp(target, detour));
    OverwriteElsewhere(jump, target + 5, Brks(Gap(target + 5, remain)), target, target + 5);
    JmpLeads(mem[..], target, detour);
  }

  /** When the trampoline is apart from the window, the jump and the padding cover exactly the window. */
  lemma JumpedIs(m: seq<Byte>, target: Dword, a: Dword, h: Hook)
    requires target == h.target && 5 <= h.Size() && target + h.Size() <= |m| && a + 32 <= |m|
    requires DwordAt(m, a + 24) == target + h.Size() && DwordAt(m, a + 28) == h.detour
    requires a + 32 <= target || target + h.Size() <= a
    ensures CanJump(m, target, a) && Jumped(m, target, a) == Overwrite(m, target, Patch(h))
  {
    hide Overwrite, Fill, Jmp, DwordAt;
    DwordElsewhere(m, target, Jmp(target, h.detour), a + 24);
    OverwriteTwice(m, target, Jmp(target, h.detour), Brks(h.Size() - 5));
  }

  // ---------------------------------------------------------------- taking a hook back

  /** The instruction at `at`. */
  function ShapeAt(t: Tables, m: seq<Byte>, at: nat): (r: Option<Shape>)
    requires WellFormed(t)
    ensures r.Some? ==> ShapeOk(r.value, r.value.len) && at + r.value.len <= |m|
  {
    if at <= |m| then First(t, m[at..]) else None
  }

  /** The loop of a detach, from `n` bytes on, stays in memory, and copies whole instructions to places that they do not
      occupy themselves. */
  ghost predicate CanRestore(t: Tables, m: seq<Byte>, target: nat, a: nat, n: nat)
    requires WellFormed(t)
    decreases 256 - n
  {
    && a + 32 <= |m|
    && (n < m[a + 23] as int ==>
          && CanCopyBack(t, m, target, a, n)
          && var s := ShapeAt(t, m, a + n).value;
             Extra(m[a + n..a + n + s.len], s, target - a) == 0 ==>
               CanRestore(t, CopyAt(m, target + n, a + n, s), target, a, n + s.len))
  }

  ghost predicate CanCopyBack(t: Tables, m: seq<Byte>, target: nat, a: nat, n: nat)
    requires WellFormed(t)
  {
    && ShapeAt(t, m, a + n).Some? && ShapeAt(t, m, a + n).value.len <= 15
    && Apart(|m|, target + n, a + n, ShapeAt(t, m, a + n).value.len)
  }

  /** The loop of a detach, from `n` bytes on: memory after it, and the count it ends with.  It is followed as far as it
      stays in memory. */
  ghost function Restored(t: Tables, m: seq<Byte>, target: nat, a: nat, n: nat): (r: (seq<Byte>, nat))
    requires WellFormed(t) && a + 32 <= |m|
    ensures |r.0| == |m|
    decreases 256 - n
  {
    if n >= m[a + 23] as int || !CanCopyBack(t, m, target, a, n) then (m, n)
    else
      var s := ShapeAt(t, m, a + n).value;
      var next := CopyAt(m, target + n, a + n, s);
      if Extra(m[a + n..a + n + s.len], s, target - a) != 0 then (next, n)
      else Restored(t, next, target, a, n + s.len)
  }

  lemma RestoredStep(t: Tables, m: seq<Byte>, target: nat, a: nat, n: nat, s: Shape, next: seq<Byte>)
    requires WellFormed(t) && a + 32 <= |m| && n < m[a + 23] as int
    requires CanCopyBack(t, m, target, a, n) && ShapeAt(t, m, a + n) == Some(s)
    requires Extra(m[a + n..a + n + s.len], s, target - a) == 0 && next == CopyAt(m, target + n, a + n, s)
    ensures CanRestore(t, m, target, a, n) <==> CanRestore(t, next, target, a, n + s.len)
    ensures Restored(t, m, target, a, n) == Restored(t, next, target, a, n + s.len)
  {
    hide ShapeAt, CopyAt, Extra, WellFormed, CanCopyBack;
  }

  lemma RestoredEnd(t: Tables, m: seq<Byte>, target: nat, a: nat, n: nat)
    requires WellFormed(t) && a + 32 <= |m| && n >= m[a + 23] as int
    ensures CanRestore(t, m, target, a, n) && Restored(t, m, target, a, n) == (m, n)
  {
  }

  lemma RestoredStop(t: Tables, m: seq<Byte>, target: nat, a: nat, n: nat, s: Shape, next: seq<Byte>)
    requires WellFormed(t) && a + 32 <= |m| && n < m[a + 23] as int
    requires CanCopyBack(t, m, target, a, n) && ShapeAt(t, m, a + n) == Some(s)
    requires Extra(m[a + n..a + n + s.len], s, target - a) != 0 && next == CopyAt(m, target + n, a + n, s)
    ensures Restored(t, m, target, a, n) == (next, n)
  {
    hide ShapeAt, CopyAt, Extra, WellFormed, CanCopyBack;
  }

  lemma CanRestoreParts(t: Tables, m: seq<Byte>, target: nat, a: nat, n: nat)
    requires WellFormed(t) && CanRestore(t, m, target, a, n)
    ensures a + 32 <= |m| && (n < m[a + 23] as int ==> CanCopyBack(t, m, target, a, n))
  {
  }

  /** The instruction that the loop of a detach copies next. */
  lemma CodeToRestore(t: Tables, m: seq<Byte>, at: nat) returns (code: seq<Byte>, s: Shape)
    requires WellFormed(t) && ShapeAt(t, m, at).Some?
    ensures ShapeAt(t, m, at) == Some(s) && at + s.len <= |m| && code == m[at..at + s.len]
    ensures First(t, code) == Some(s) && |code| == s.len > 0
  {
    hide WellFormed, Decode;
    s := ShapeAt(t, m, at).value;
    FirstAlone(t, m[at..]);
    assert m[at..][..s.len] == m[at..at + s.len];
    code := m[at..at + s.len];
  }

  /** The loop of a detach: copy the trampoline's instructions back, reading cbTarget anew each time. */
  method RestoreCode(tables: Tables, mem: array<Byte>, target: Dword, a: Dword) returns (n: nat)
    requires WellFormed(tables) && CanRestore(tables, mem[..], target, a, 0)
    modifies mem
    ensures (mem[..], n) == Restored(tables, old(mem[..]), target, a, 0)
  {
    hide First, Extra, WellFormed, CopyAt, ShapeAt, CanRestore, Restored;
    n := 0;
    ghost var m := mem[..];
    CanRestoreParts(tables, m, target, a, 0);
    while n < mem[a + 23]
      invariant CanRestore(tables, mem[..], target, a, n)
      invariant Restored(tables, mem[..], target, a, n) == Restored(tables, m, target, a, 0)
      decreases 256 - n
    {
      ghost var k := mem[..];
      CanRestoreParts(tables, k, target, a, n);
      ghost var code, s := CodeToRestore(tables, k, a + n);
      var next, extra := CopyOne(tables, mem, target + n, a + n, code, s);
      if extra != 0 {
        RestoredStop(tables, k, target, a, n, s, mem[..]);
        return;
      }
      RestoredStep(tables, k, target, a, n, s, mem[..]);
      n := next - a;
    }
    RestoredEnd(tables, mem[..], target, a, n);
  }

  lemma RestoreRound(m: seq<Byte>, k: seq<Byte>, target: nat, saved: seq<Byte>, n: nat, code: seq<Byte>, s: Shape,
                     a: nat)
    requires n + |code| <= |saved| && target + |saved| <= |m| && k == Overwrite(m, target, saved[..n])
    requires s.len == |code| && ShapeOk(s, s.len) && s.valid && a + 32 <= |m|
    requires Apart(|m|, target + n, a + n, |code|) && k[a + n..a + n + |code|] == code
    requires a + 32 <= target || target + |saved| <= a
    requires Copied(code, code, s, target - a) == saved[n..n + |code|]
    ensures var r := CopyAt(k, target + n, a + n, s);
            && r == Overwrite(m, target, saved[..n + |code|]) && r[a..a + 32] == k[a..a + 32]
  {
    hide Copied, Overwrite;
    var x := saved[n..n + |code|];
    CopyKnown(k, target + n, a + n, code, s);
    OverwriteTwice(m, target, saved[..n], x);
    assert saved[..n] + x == saved[..n + |code|];
    OverwriteElsewhere(k, target + n, x, a, a + 32);
  }
}
