/**
 The image checksum of loader_dll/detours/creatwth.cpp: the one's-complement sum over
 the mapped pages of a module, and the patch of `e_res[0]` that hides a header edit from it.
 */
module Checksum {
  import opened Bytes
  import opened Options

  // e_res[0] is the fifteenth word of the DOS header, which is 64 bytes long.
  const E_RES: nat := 28
  const DOS_HEADER_SIZE: nat := 64

  // ---------------------------------------------------------------- word arithmetic

  /** detour_sum_minus: both subtractions wrap at 16 bits. */
  function SumMinus(sum: Word, minus: Word): Word
  {
    var borrowed := (sum - (if sum < minus then 1 else 0)) % 0x1_0000;
    (borrowed - minus) % 0x1_0000
  }

  /** detour_sum_done: fold the carry of a 32-bit partial sum. */
  function SumDone(partial: nat): Word
  {
    (partial / 0x1_0000 + partial) % 0x1_0000
  }

  /** The representative in {0} + 1..0xffff of a running total: zero only for a zero total. */
  function Canon(total: nat): (w: Word)
    ensures w == 0 <==> total == 0
    ensures w % 0xffff == total % 0xffff
  {
    if total == 0 then 0 else (total - 1) % 0xffff + 1
  }

  /** One iteration of the loop in detour_sum_data keeps the running sum inside 16 bits. */
  lemma FoldStep(total: nat, w: Word)
    ensures var s := Canon(total) + w; s / 0x1_0000 + s % 0x1_0000 == Canon(total + w)
  {
    if total == 0 {
      assert w == 0 || (w - 1) % 0xffff == w - 1;
    } else {
      var c := (total - 1) % 0xffff;
      assert total - 1 == (total - 1) / 0xffff * 0xffff + c;
      var s := c + 1 + w;
      if s < 0x1_0000 {
        ModUnique(total + w - 1, (total - 1) / 0xffff, c + w);
      } else {
        assert s - 0xffff >= 1;
        ModUnique(total + w - 1, (total - 1) / 0xffff + 1, c + w - 0xffff);
      }
    }
  }

  lemma ModUnique(n: nat, q: nat, r: nat)
    requires n == q * 0xffff + r && r < 0xffff
    ensures n % 0xffff == r
  {
  }

  // ---------------------------------------------------------------- sums over bytes

  /** The plain total of the little-endian words of a byte string. */
  ghost function WordSum(b: seq<Byte>): nat
  {
    if |b| < 2 then 0 else b[0] + 0x100 * b[1] + WordSum(b[2..])
  }

  lemma {:induction false} WordSumAppend(a: seq<Byte>, b: seq<Byte>)
    requires |a| % 2 == 0
    ensures WordSum(a + b) == WordSum(a) + WordSum(b)
  {
    if |a| == 0 {
      assert a + b == b;
    } else {
      assert (a + b)[2..] == a[2..] + b;
      WordSumAppend(a[2..], b);
    }
  }

  /** Replacing one word changes the total by the difference of the words. */
  lemma WordSumPatch(b: seq<Byte>, at: nat, w: Word)
    requires at % 2 == 0 && at + 2 <= |b|
    ensures WordSum(PutWord(b, at, w)) == WordSum(b) - WordAt(b, at) + w
  {
    var c := PutWord(b, at, w);
    WordSumSplit(b, at);
    WordSumSplit(c, at);
    assert c[..at] == b[..at] && c[at + 2..] == b[at + 2..];
  }

  lemma WordSumSplit(b: seq<Byte>, at: nat)
    requires at % 2 == 0 && at + 2 <= |b|
    ensures WordSum(b) == WordSum(b[..at]) + WordAt(b, at) + WordSum(b[at + 2..])
  {
    assert b == b[..at] + b[at..];
    WordSumAppend(b[..at], b[at..]);
    assert b[at..][2..] == b[at + 2..];
  }

  // ---------------------------------------------------------------- pages and regions

  /** The mapped module: its bytes and, per page, whether ReadProcessMemory succeeds. */
  datatype Module = Module(bytes: seq<Byte>, readable: seq<bool>) {
    ghost predicate Valid() {
      |bytes| == 4096 * |readable|
    }
  }

  ghost function PageSum(m: Module, p: nat): nat
    requires m.Valid() && p < |m.readable|
  {
    if m.readable[p] then WordSum(m.bytes[4096 * p..4096 * (p + 1)]) else 0
  }

  /** The total of the words of the readable pages below page `n`. */
  ghost function PagesSum(m: Module, n: nat): nat
    requires m.Valid() && n <= |m.readable|
  {
    if n == 0 then 0 else PagesSum(m, n - 1) + PageSum(m, n - 1)
  }

  /** VirtualQueryEx cuts the pages from `start` on into regions, given by the page where each
      ends; the pages of one region share their protection. */
  ghost predicate Regions(readable: seq<bool>, start: nat, ends: seq<nat>)
    requires start <= |readable|
    decreases |ends|
  {
    if |ends| == 0 then start == |readable|
    else start <= ends[0] <= |readable| && Uniform(readable, start, ends[0]) && Regions(readable, ends[0], ends[1..])
  }

  ghost predicate Uniform(readable: seq<bool>, beg: nat, end: nat)
    requires beg <= end <= |readable|
  {
    forall p | beg <= p < end :: readable[p] == readable[beg]
  }

  /** What detour_sum_final subtracts: the two words of the header's CheckSum field. */
  function SumFinal(sum: Word, lo: Word, hi: Word): Word
  {
    SumMinus(SumMinus(sum, lo), hi)
  }

  /** The image checksum does not depend on how the module is cut into regions. */
  ghost function ImageSum(m: Module, lo: Word, hi: Word): Word
    requires m.Valid()
  {
    SumFinal(Canon(PagesSum(m, |m.readable|)), lo, hi)
  }

  // ---------------------------------------------------------------- the repair

  /** The value put into e_res[0], which is zero while `during` is measured. */
  function Repair(before: Word, during: Word): Word
  {
    SumMinus(0, SumMinus(during, before))
  }

  lemma SumMinusMod(sum: Word, minus: Word)
    ensures (SumMinus(sum, minus) + minus) % 0xffff == sum % 0xffff
  {
    if sum < minus {
      assert SumMinus(sum, minus) + minus == sum + 0xffff;
    }
  }

  /** The difference, with the borrow carried around. */
  lemma SumMinusIs(sum: Word, minus: Word)
    ensures SumMinus(sum, minus) == if minus <= sum then sum - minus else sum - minus + 0xffff
  {
  }

  lemma SumFinalMod(sum: Word, lo: Word, hi: Word)
    ensures (SumFinal(sum, lo, hi) + lo + hi) % 0xffff == sum % 0xffff
  {
    var first := SumMinus(sum, lo);
    SumMinusMod(sum, lo);
    SumMinusMod(first, hi);
    ModAdd(SumMinus(first, hi) + hi, first, lo);
  }

  lemma ModAdd(a: int, b: int, c: int)
    requires a % 0xffff == b % 0xffff
    ensures (a + c) % 0xffff == (b + c) % 0xffff
  {
    var q := a / 0xffff - b / 0xffff;
    assert a + c == b + c + 0xffff * q;
  }

  /** Adding the repair word to a nonzero running sum restores the earlier nonzero sum exactly,
      not only up to the two representations of zero. */
  lemma RepairIsExact(before: nat, during: nat, lo: Word, hi: Word)
    requires before > 0 && during > 0
    ensures var e := Repair(SumFinal(Canon(before), lo, hi), SumFinal(Canon(during), lo, hi));
            Canon(during + e) == Canon(before)
  {
    hide Canon, SumMinus, SumFinal;
    var wb := SumFinal(Canon(before), lo, hi);
    var wd := SumFinal(Canon(during), lo, hi);
    var d := SumMinus(wd, wb);
    var e := Repair(wb, wd);
    SumFinalMod(Canon(before), lo, hi);
    SumFinalMod(Canon(during), lo, hi);
    SumMinusMod(wd, wb);
    SumMinusMod(0, d);
    RepairCongruence(before, during, e, d, wb, wd, lo + hi);
    CanonUnique(during + e, before);
  }

  lemma RepairCongruence(before: nat, during: nat, e: int, d: int, wb: int, wd: int, c: int)
    requires (wb + c) % 0xffff == before % 0xffff
    requires (wd + c) % 0xffff == during % 0xffff
    requires (d + wb) % 0xffff == wd % 0xffff
    requires (e + d) % 0xffff == 0
    ensures (during + e) % 0xffff == before % 0xffff
  {
    var q1 := (wb + c) / 0xffff - before / 0xffff;
    var q2 := (wd + c) / 0xffff - during / 0xffff;
    var q3 := (d + wb) / 0xffff - wd / 0xffff;
    var q4 := (e + d) / 0xffff;
    assert during + e == before + 0xffff * (q1 - q2 - q3 + q4);
  }

  lemma CanonUnique(a: nat, b: nat)
    requires a > 0 && b > 0 && a % 0xffff == b % 0xffff
    ensures Canon(a) == Canon(b)
  {
    ModAdd(a, b, -1);
  }

  // ---------------------------------------------------------------- the code

  /** The module of a suspended process, as ReadProcessMemory and WriteProcessMemory see it. */
  class RemoteModule {
    const memory: array<Byte>
    const readable: seq<bool>

    constructor (bytes: array<Byte>, readable: seq<bool>)
      requires bytes.Length == 4096 * |readable|
      ensures memory == bytes && this.readable == readable
    {
      memory := bytes;
      this.readable := readable;
    }

    ghost predicate Valid()
      reads memory
    {
      View().Valid()
    }

    ghost function View(): Module
      reads memory
    {
      Module(memory[..], readable)
    }

    /** detour_sum_data over one page that was read into a local buffer. */
    static method SumData(sum: Word, page: seq<Byte>, ghost total: nat) returns (r: Word)
      requires |page| % 2 == 0
      requires sum == Canon(total)
      ensures r == Canon(total + WordSum(page))
    {
      hide Canon;
      var partial: nat := sum;
      var i := 0;
      ghost var done: nat := total;
      assert page[0..] == page;
      while i < |page|
        invariant 0 <= i <= |page| && i % 2 == 0
        invariant done + WordSum(page[i..]) == total + WordSum(page)
        invariant partial == Canon(done)
      {
        var w := WordAt(page, i);
        assert page[i..][2..] == page[i + 2..];
        FoldStep(done, w);
        partial := partial + w;
        partial := partial / 0x1_0000 + partial % 0x1_0000;
        done := done + w;
        i := i + 2;
      }
      r := SumDone(partial);
    }

    /** ChkSumRange: a page that cannot be read ends the range. */
    method ChkSumRange(sum: Word, beg: nat, end: nat) returns (r: Word)
      requires Valid()
      requires beg <= end <= |readable|
      requires Uniform(readable, beg, end)
      requires sum == Canon(PagesSum(View(), beg))
      ensures r == Canon(PagesSum(View(), end))
    {
      hide Canon, WordSum;
      r := sum;
      var p := beg;
      while p < end
        invariant beg <= p <= end
        invariant r == Canon(PagesSum(View(), p))
        invariant p > beg ==> readable[beg]
      {
        if !readable[p] {
          SkipUnreadable(View(), p, end);
          break;
        }
        assert 4096 * (p + 1) <= memory.Length;
        r := SumData(r, memory[4096 * p..4096 * (p + 1)], PagesSum(View(), p));
        p := p + 1;
      }
    }

    /** ComputeChkSum, whatever regions VirtualQueryEx reports. */
    method ComputeChkSum(ends: seq<nat>, lo: Word, hi: Word) returns (r: Word)
      requires Valid() && Regions(readable, 0, ends)
      ensures r == ImageSum(View(), lo, hi)
    {
      var sum: Word := 0;
      var last: nat := 0;
      var i := 0;
      while i < |ends|
        invariant 0 <= i <= |ends| && last <= |readable|
        invariant Regions(readable, last, ends[i..])
        invariant sum == Canon(PagesSum(View(), last))
      {
        assert ends[i..][0] == ends[i] && ends[i..][1..] == ends[i + 1..];
        sum := ChkSumRange(sum, last, ends[i]);
        last := ends[i];
        i := i + 1;
      }
      r := SumFinal(sum, lo, hi);
    }

    method WriteProcessMemory(at: nat, bytes: seq<Byte>)
      requires at + |bytes| <= memory.Length
      modifies memory
      ensures memory[..] == Overwrite(old(memory[..]), at, bytes)
    {
      forall i | 0 <= i < |bytes| { memory[at + i] := bytes[i]; }
    }

    /** The part of UpdateImports that clears the IL_ONLY flag in the CLR header at `clr`, if the image has one. */
    method ClearIlOnly(clr: Option<nat>)
      requires clr.Some? ==> clr.value + CLR_HEADER_SIZE <= memory.Length
      modifies memory
      ensures memory[..] == IlOnlyCleared(old(memory[..]), clr)
    {
      if clr.Some? {
        var header := memory[clr.value..clr.value + CLR_HEADER_SIZE];
        var flags := header[CLR_FLAGS];
        WriteProcessMemory(clr.value, header[CLR_FLAGS := flags - flags % 2]);
      }
    }

    /** The last part of UpdateImports: change the CLR header, install the NT header `inh`, edited in its directories,
        and patch the DOS header `idh` so that the checksum reads as it did before.  VirtualProtectEx may cut the
        module into other regions between the measurements. */
    method InstallHeaders(idh: seq<Byte>, inh: seq<Byte>, lfanew: nat, clr: Option<nat>, lo: Word, hi: Word,
                          endsBefore: seq<nat>, endsDuring: seq<nat>, endsAfter: seq<nat>)
      returns (before: Word, after: Word, patched: Word)
      requires Valid() && |readable| > 0 && readable[0]
      requires Regions(readable, 0, endsBefore) && Regions(readable, 0, endsDuring)
      requires Regions(readable, 0, endsAfter)
      requires |idh| == DOS_HEADER_SIZE && idh == memory[..DOS_HEADER_SIZE] && WordAt(idh, 0) != 0
      requires NT_DIRECTORIES <= |inh| && lfanew + |inh| <= memory.Length
      requires inh[..NT_DIRECTORIES] == memory[lfanew..lfanew + NT_DIRECTORIES]
      requires clr.Some? ==> clr.value + CLR_HEADER_SIZE <= memory.Length
      modifies memory
      ensures after == before <==> Overlaid(inh, lfanew) % 0xffff == 0
      ensures E_RES + 2 <= lfanew ==> after == before
      ensures before == ImageSum(old(View()), lo, hi)
      ensures Valid() && after == ImageSum(View(), lo, hi)
      ensures memory[..] == Installed(old(memory[..]), clr, idh, inh, lfanew, patched)
    {
      hide Overwrite, PutWord, IlOnlyCleared, Overlaid, Agree, Regions, ImageSum, Repair;
      HeadersAgree(memory[..], idh, inh, lfanew);
      before := ComputeChkSum(endsBefore, lo, hi);

      ClearIlOnly(clr);
      ghost var cleared := memory[..];
      var dos := PutWord(idh, E_RES, 0);
      WriteProcessMemory(0, dos);
      WriteProcessMemory(lfanew, inh);
      var during := ComputeChkSum(endsDuring, lo, hi);

      patched := Repair(before, during);
      dos := PutWord(dos, E_RES, patched);
      WriteProcessMemory(0, dos);
      after := ComputeChkSum(endsAfter, lo, hi);

      HeaderBytes(cleared, idh, inh, lfanew, patched);
      HeaderSums(old(View()), cleared, idh, inh, lfanew, patched, lo, hi);
      NothingOverlaid(inh, lfanew);
    }
  }

  const CLR_HEADER_SIZE: nat := 20
  const CLR_FLAGS: nat := 16

  /** The image with the IL_ONLY flag of its CLR header cleared. */
  function IlOnlyCleared(m: seq<Byte>, clr: Option<nat>): (r: seq<Byte>)
    requires clr.Some? ==> clr.value + CLR_HEADER_SIZE <= |m|
    ensures |r| == |m|
  {
    if clr.None? then m
    else
      var at := clr.value + CLR_FLAGS;
      m[at := m[at] - m[at] % 2]
  }

  /** The directories of a 32-bit NT header, which is read in whole and written back with two of them edited. */
  const NT_DIRECTORIES: nat := 120

  /** The word of the NT header at `lfanew` that lies on e_res[0]: one byte of it when the header starts in its middle,
      nothing when it starts behind it. */
  function Overlaid(inh: seq<Byte>, lfanew: nat): Word
    requires NT_DIRECTORIES <= |inh|
  {
    if lfanew <= E_RES then WordAt(inh, E_RES - lfanew)
    else if lfanew == E_RES + 1 then 0x100 * (inh[0] as int)
    else 0
  }

  /** Both headers are as they were read wherever they overlap. */
  predicate Agree(idh: seq<Byte>, inh: seq<Byte>, lfanew: nat)
    requires |idh| == DOS_HEADER_SIZE && NT_DIRECTORIES <= |inh|
  {
    forall k | lfanew <= k < DOS_HEADER_SIZE :: inh[k - lfanew] == idh[k]
  }

  lemma NothingOverlaid(inh: seq<Byte>, lfanew: nat)
    requires NT_DIRECTORIES <= |inh|
    ensures E_RES + 2 <= lfanew ==> Overlaid(inh, lfanew) == 0
  {
  }

  lemma HeadersAgree(b: seq<Byte>, idh: seq<Byte>, inh: seq<Byte>, lfanew: nat)
    requires |idh| == DOS_HEADER_SIZE <= |b| && idh == b[..DOS_HEADER_SIZE]
    requires NT_DIRECTORIES <= |inh| && lfanew + |inh| <= |b|
    requires inh[..NT_DIRECTORIES] == b[lfanew..lfanew + NT_DIRECTORIES]
    ensures Agree(idh, inh, lfanew)
  {
    forall k | lfanew <= k < DOS_HEADER_SIZE
      ensures inh[k - lfanew] == idh[k]
    {
      var i := k - lfanew;
      assert inh[i] == inh[..NT_DIRECTORIES][i] == b[lfanew..lfanew + NT_DIRECTORIES][i];
    }
  }

  /** The module with the CLR flag cleared, the NT header in place, and the word `patched` in e_res[0]. */
  function Installed(b: seq<Byte>, clr: Option<nat>, idh: seq<Byte>, inh: seq<Byte>, lfanew: nat, patched: Word)
    : (r: seq<Byte>)
    requires |idh| == DOS_HEADER_SIZE <= |b| && lfanew + |inh| <= |b|
    requires clr.Some? ==> clr.value + CLR_HEADER_SIZE <= |b|
    ensures |r| == |b|
  {
    PutWord(Overwrite(Overwrite(IlOnlyCleared(b, clr), 0, idh), lfanew, inh), E_RES, patched)
  }

  /** The module while its checksum is measured for the repair. */
  function Measured(b: seq<Byte>, idh: seq<Byte>, inh: seq<Byte>, lfanew: nat): (r: seq<Byte>)
    requires |idh| == DOS_HEADER_SIZE <= |b| && lfanew + |inh| <= |b|
    ensures |r| == |b|
  {
    Overwrite(Overwrite(b, 0, PutWord(idh, E_RES, 0)), lfanew, inh)
  }

  lemma {:induction false} SkipUnreadable(m: Module, p: nat, end: nat)
    requires m.Valid() && p <= end <= |m.readable|
    requires forall k | p <= k < end :: !m.readable[k]
    ensures PagesSum(m, end) == PagesSum(m, p)
    decreases end
  {
    if p < end {
      SkipUnreadable(m, p, end - 1);
    }
  }

  /** A module that starts with a nonzero word has a nonzero total. */
  lemma {:induction false} NonzeroImage(m: Module, n: nat)
    requires m.Valid() && 0 < n <= |m.readable|
    requires m.readable[0] && WordAt(m.bytes, 0) != 0
    ensures PagesSum(m, n) > 0
  {
    if n > 1 {
      NonzeroImage(m, n - 1);
    } else {
      assert PagesSum(m, 0) == 0;
      var page := m.bytes[4096 * 0..4096 * (0 + 1)];
      assert WordAt(page, 0) == WordAt(m.bytes, 0);
    }
  }

  /** Patching e_res[0] moves the total of any prefix of pages by the change of that word. */
  lemma {:induction false} PatchedSum(m: Module, w: Word, n: nat)
    requires m.Valid() && 0 < n <= |m.readable| && m.readable[0]
    ensures var patched := Module(PutWord(m.bytes, E_RES, w), m.readable);
            && patched.Valid()
            && PagesSum(patched, n) == PagesSum(m, n) - WordAt(m.bytes, E_RES) + w
  {
    var patched := Module(PutWord(m.bytes, E_RES, w), m.readable);
    if n > 1 {
      PatchedSum(m, w, n - 1);
      assert patched.bytes[4096 * (n - 1)..4096 * n] == m.bytes[4096 * (n - 1)..4096 * n];
    } else {
      var page := m.bytes[4096 * 0..4096 * (0 + 1)];
      assert patched.bytes[4096 * 0..4096 * (0 + 1)] == PutWord(page, E_RES, w);
      assert WordAt(page, E_RES) == WordAt(m.bytes, E_RES);
      WordSumPatch(page, E_RES, w);
      assert PagesSum(m, 0) == 0 && PagesSum(patched, 0) == 0;
    }
  }

  /** The header writes of UpdateImports: what is measured differs from the final module in e_res[0] only, where it
      holds what the NT header puts there. */
  lemma HeaderBytes(b: seq<Byte>, idh: seq<Byte>, inh: seq<Byte>, lfanew: nat, w: Word)
    requires |idh| == DOS_HEADER_SIZE <= |b| && NT_DIRECTORIES <= |inh| && lfanew + |inh| <= |b|
    requires Agree(idh, inh, lfanew)
    ensures Overwrite(Measured(b, idh, inh, lfanew), 0, PutWord(PutWord(idh, E_RES, 0), E_RES, w)) ==
            PutWord(Measured(b, idh, inh, lfanew), E_RES, w) ==
            PutWord(Overwrite(Overwrite(b, 0, idh), lfanew, inh), E_RES, w)
    ensures WordAt(Measured(b, idh, inh, lfanew), 0) == WordAt(idh, 0)
    ensures WordAt(Measured(b, idh, inh, lfanew), E_RES) == Overlaid(inh, lfanew)
  {
    hide PutWord, Overlaid;
    HeaderWords(b, idh, inh, lfanew);
    var during := Measured(b, idh, inh, lfanew);
    var both := Overwrite(Overwrite(b, 0, idh), lfanew, inh);
    var dos := PutWord(PutWord(idh, E_RES, 0), E_RES, w);
    SameElsewhere(Overwrite(during, 0, dos), PutWord(during, E_RES, w), E_RES);
    SameElsewhere(PutWord(during, E_RES, w), PutWord(both, E_RES, w), E_RES);
  }

  /** Two byte strings that agree outside a word and in it are the same. */
  lemma SameElsewhere(a: seq<Byte>, b: seq<Byte>, at: nat)
    requires |a| == |b| && at + 2 <= |a| && WordAt(a, at) == WordAt(b, at)
    requires forall k | 0 <= k < |a| && k != at && k != at + 1 :: a[k] == b[k]
    ensures a == b
  {
    assert a[at] == b[at] && a[at + 1] == b[at + 1];
  }

  lemma HeaderWords(b: seq<Byte>, idh: seq<Byte>, inh: seq<Byte>, lfanew: nat)
    requires |idh| == DOS_HEADER_SIZE <= |b| && NT_DIRECTORIES <= |inh| && lfanew + |inh| <= |b|
    requires Agree(idh, inh, lfanew)
    ensures WordAt(Measured(b, idh, inh, lfanew), 0) == WordAt(idh, 0)
    ensures WordAt(Measured(b, idh, inh, lfanew), E_RES) == Overlaid(inh, lfanew)
  {
    var dos := PutWord(idh, E_RES, 0);
    assert dos[E_RES] == 0 && dos[E_RES + 1] == 0;
  }

  /** The checksum comes back exactly when the word of the NT header that lies on e_res[0] counts for nothing. */
  lemma HeaderSums(first: Module, b: seq<Byte>, idh: seq<Byte>, inh: seq<Byte>, lfanew: nat, w: Word,
                   lo: Word, hi: Word)
    requires first.Valid() && |b| == |first.bytes| && |first.readable| > 0 && first.readable[0]
    requires |idh| == DOS_HEADER_SIZE && idh == first.bytes[..DOS_HEADER_SIZE] && WordAt(idh, 0) != 0
    requires NT_DIRECTORIES <= |inh| && lfanew + |inh| <= |b| && Agree(idh, inh, lfanew)
    requires w == Repair(ImageSum(first, lo, hi),
                         ImageSum(Module(Measured(b, idh, inh, lfanew), first.readable), lo, hi))
    ensures var after := Module(PutWord(Measured(b, idh, inh, lfanew), E_RES, w), first.readable);
            ImageSum(after, lo, hi) == ImageSum(first, lo, hi) <==> Overlaid(inh, lfanew) % 0xffff == 0
  {
    hide Overwrite, Measured, Overlaid, Canon, SumFinal, Repair;
    var n := |first.readable|;
    var during := Module(Measured(b, idh, inh, lfanew), first.readable);
    var after := Module(PutWord(during.bytes, E_RES, w), first.readable);
    HeaderBytes(b, idh, inh, lfanew, w);
    NonzeroImage(first, n);
    NonzeroImage(during, n);
    NonzeroImage(after, n);
    PatchedSum(during, w, n);
    RepairIsExact(PagesSum(first, n), PagesSum(during, n), lo, hi);
    SumsEqual(PagesSum(after, n), PagesSum(first, n), lo, hi);
    ShiftedMod(PagesSum(during, n) + w, PagesSum(first, n), Overlaid(inh, lfanew));
  }

  /** Equal checksums are equal totals modulo 65535. */
  lemma SumsEqual(a: nat, b: nat, lo: Word, hi: Word)
    requires a > 0 && b > 0
    ensures SumFinal(Canon(a), lo, hi) == SumFinal(Canon(b), lo, hi) <==> a % 0xffff == b % 0xffff
  {
    hide Canon, SumFinal;
    var x, y := SumFinal(Canon(a), lo, hi), SumFinal(Canon(b), lo, hi);
    SumFinalMod(Canon(a), lo, hi);
    SumFinalMod(Canon(b), lo, hi);
    if a % 0xffff == b % 0xffff {
      CanonUnique(a, b);
    }
  }

  lemma ShiftedMod(a: int, b: int, x: int)
    requires a % 0xffff == b % 0xffff
    ensures (a - x) % 0xffff == b % 0xffff <==> x % 0xffff == 0
  {
    var q := a / 0xffff - b / 0xffff;
    assert a == b + 0xffff * q;
    if (a - x) % 0xffff == b % 0xffff {
      var p := (a - x) / 0xffff - b / 0xffff;
      assert x == 0xffff * (q - p);
    }
    if x % 0xffff == 0 {
      assert a - x == b + 0xffff * (q - x / 0xffff);
    }
  }

  // ---------------------------------------------------------------- headers that overlap

  /** One page with the NT header at 4, whose Magic is on e_res[0]. */
  function SmallImage(): (b: seq<Byte>)
    ensures |b| == 4096
  {
    [0x4d, 0x5a, 0, 0, 0x50, 0x45, 0, 0] + Fill(0, 20) + [0x0b, 0x01] + Fill(0, 30) + [4] + Fill(0, 4035)
  }

  /** Its checksum does not come back, whatever is put into the directories of the NT header. */
  lemma SmallImageFails(inh: seq<Byte>, lo: Word, hi: Word)
    requires NT_DIRECTORIES <= |inh| <= 248
    requires inh[..NT_DIRECTORIES] == SmallImage()[4..4 + NT_DIRECTORIES]
    ensures var first := Module(SmallImage(), [true]);
            var idh := SmallImage()[..DOS_HEADER_SIZE];
            var during := Module(Measured(SmallImage(), idh, inh, 4), [true]);
            var patched := Repair(ImageSum(first, lo, hi), ImageSum(during, lo, hi));
            ImageSum(Module(Installed(SmallImage(), None, idh, inh, 4, patched), [true]), lo, hi) !=
            ImageSum(first, lo, hi)
  {
    hide Measured, ImageSum, Fill, Repair;
    var b := SmallImage();
    var idh := b[..DOS_HEADER_SIZE];
    var first := Module(b, [true]);
    var during := Module(Measured(b, idh, inh, 4), [true]);
    var patched := Repair(ImageSum(first, lo, hi), ImageSum(during, lo, hi));
    assert b[28] == 0x0b && b[29] == 0x01 && b[0] == 0x4d;
    HeadersAgree(b, idh, inh, 4);
    HeaderBytes(b, idh, inh, 4, patched);
    HeaderSums(first, b, idh, inh, 4, patched, lo, hi);
    assert inh[24] == inh[..NT_DIRECTORIES][24] == b[28] && inh[25] == inh[..NT_DIRECTORIES][25] == b[29];
  }
}
