/**
 The import block that UpdateImports builds for a process (loader_dll/detours/creatwth.cpp, 64-92, 261-269 and
 468-550): descriptors for the new DLLs, the old descriptors behind them, thunks, and names.
 */
module ImportBlock {
  import opened Bytes
  import opened Options
  import opened Alignment
  import opened ImportList
  import opened ImportTable
  import opened OutputBuffer

  /** PadToDword and PadToDwordPtr. */
  function PadToDword(n: nat): nat { Align(n, 4) }
  function PadToDwordPtr(n: nat): nat { Align(n, 8) }

  /** A name, its NUL, and zeros up to a double word. */
  function PaddedName(s: CString): (r: seq<Byte>)
    ensures |r| == PadToDword(|s| + 1)
  {
    s + Zeros(PadToDword(|s| + 1) - |s|)
  }

  function Strings(dlls: seq<CString>): seq<Byte>
  {
    if |dlls| == 0 then [] else Strings(dlls[..|dlls| - 1]) + PaddedName(dlls[|dlls| - 1])
  }

  /** The offsets of the parts, for `n` DLLs and `kept` bytes of old descriptors. */
  datatype Layout = Layout(n: nat, kept: nat)
  {
    function Rem(): nat { 20 * n }
    function Tab(): nat { PadToDwordPtr(Rem() + kept) }
    function Dll(): nat { Tab() + 16 * n }
  }

  function BlockSize(z: Layout, dlls: seq<CString>): nat { z.Dll() + |Strings(dlls)| }

  /** The thunks of `n` DLLs: two tables each, with the ordinal 1 and an end. */
  function ThunkTable(n: nat): (r: seq<Dword>)
    ensures |r| == 4 * n
  {
    if n == 0 then [] else ThunkTable(n - 1) + Pair()
  }

  /** The descriptor of DLL `k`, whose name lies `at` bytes into the names. */
  function Entry(base: nat, z: Layout, k: nat, at: nat): (r: seq<Dword>)
    ensures |r| == 5
  {
    [Wrap(base + z.Tab() + 16 * k), 0, 0, Wrap(base + z.Dll() + at), Wrap(base + z.Tab() + 16 * k + 8)]
  }

  function Entries(base: nat, z: Layout, dlls: seq<CString>): (r: seq<Dword>)
    ensures |r| == 5 * |dlls|
  {
    if |dlls| == 0 then []
    else
      var before := dlls[..|dlls| - 1];
      Entries(base, z, before) + Entry(base, z, |before|, |Strings(before)|)
  }

  /** The block once the first `k` DLLs have been entered. */
  ghost predicate Entered(b: seq<Byte>, base: nat, z: Layout, dlls: seq<CString>, imports: seq<Byte>, k: nat)
    requires k <= |dlls|
  {
    && |b| == BlockSize(z, dlls) && z.n == |dlls| && z.kept == |imports|
    && Holds(b, 0, z.Rem(), Dwords(Entries(base, z, dlls[..k]))) && Holds(b, z.Rem(), z.Tab() - z.Rem(), imports)
    && Holds(b, z.Tab(), 16 * z.n, Dwords(ThunkTable(k))) && Holds(b, z.Dll(), |b| - z.Dll(), Strings(dlls[..k]))
  }

  // ---------------------------------------------------------------- the parts of one round

  lemma PrefixStep<T>(s: seq<T>, k: nat)
    requires k < |s|
    ensures |s[..k + 1]| == k + 1 && s[..k + 1][..k] == s[..k] && s[..k + 1][k] == s[k]
  {
  }

  lemma {:induction false} StringsPrefix(dlls: seq<CString>, k: nat)
    requires k <= |dlls|
    ensures Strings(dlls[..k]) <= Strings(dlls)
    decreases |dlls|
  {
    hide PaddedName;
    var n := |dlls|;
    if k < n {
      StringsPrefix(dlls[..n - 1], k);
      assert dlls[..n - 1][..k] == dlls[..k];
    } else {
      assert dlls[..k] == dlls;
    }
  }

  /** The name of DLL `k` is copied. */
  lemma NameEntered(b: seq<Byte>, z: Layout, dlls: seq<CString>, k: nat, at: nat, size: nat)
    requires k < |dlls| && Holds(b, at, size, Strings(dlls[..k])) && size == |Strings(dlls)|
    ensures at + |Strings(dlls[..k])| + |dlls[k]| + 1 <= |b| && |Strings(dlls[..k])| + |dlls[k]| + 1 <= size
    ensures Holds(Overwrite(b, at + |Strings(dlls[..k])|, dlls[k] + [0]), at, size, Strings(dlls[..k + 1]))
  {
    hide Holds, Overwrite, Fill, PaddedName;
    PrefixStep(dlls, k);
    StringsPrefix(dlls, k + 1);
    var s, x, before := dlls[k], dlls[k] + [0], Strings(dlls[..k]);
    PaddedShape(s);
    HoldsAppend(b, at, size, before, x);
    HoldsZeros(Overwrite(b, at + |before|, x), at, size, before + x, |PaddedName(s)| - |x|);
    assert before + x + Zeros(|PaddedName(s)| - |x|) == before + PaddedName(s);
  }

  lemma PaddedShape(s: CString)
    ensures |s| + 1 <= |PaddedName(s)| && PaddedName(s) == s + [0] + Zeros(|PaddedName(s)| - |s| - 1)
  {
    var n := |PaddedName(s)| - |s|;
    assert Zeros(n) == [0] + Zeros(n - 1);
  }

  /** Four double words are appended to a table. */
  lemma TableEntered(b: seq<Byte>, at: nat, size: nat, xs: seq<Dword>, ys: seq<Dword>)
    requires Holds(b, at, size, Dwords(xs)) && 4 * |xs| + 4 * |ys| <= size
    ensures at + 4 * |xs| + 4 * |ys| <= |b|
    ensures Holds(Overwrite(b, at + 4 * |xs|, Dwords(ys)), at, size, Dwords(xs + ys))
  {
    hide Holds, Dwords, Overwrite;
    DwordsAppend(xs, ys);
    HoldsAppend(b, at, size, Dwords(xs), Dwords(ys));
  }

  // ---------------------------------------------------------------- the code

  /** StringCchCopyA to `at`, with `room` bytes: false, and a truncated copy, when the string and its NUL do not fit. */
  method CopyString(b: array<Byte>, at: nat, room: nat, s: seq<Byte>) returns (ok: bool)
    requires at + room <= b.Length
    modifies b
    ensures ok == (|s| < room)
    ensures room > 0 ==>
              b[..] == Overwrite(old(b[..]), at, (if |s| < room then s else s[..room - 1]) + [0])
    ensures room == 0 ==> b[..] == old(b[..])
  {
    if room == 0 {
      return false;
    }
    hide Overwrite;
    ghost var m := b[..];
    var i := CopyPart(b, at, room, s);
    ok := i < room;
    CopyEnd(m, at, s, i, room);
    Store(b, if ok then at + i else at + i - 1, [0]);
  }

  /** The loop of StringCchCopyA: it stops at the end of the string or of the room. */
  method CopyPart(b: array<Byte>, at: nat, room: nat, s: seq<Byte>) returns (i: nat)
    requires at + room <= b.Length
    modifies b
    ensures i == (if |s| < room then |s| else room) && b[..] == Overwrite(old(b[..]), at, s[..i])
  {
    hide Overwrite;
    ghost var m := b[..];
    i := 0;
    CopiedNone(m, at, s);
    while i < room && i < |s|
      invariant i <= room && i <= |s|
      invariant b[..] == Overwrite(m, at, s[..i])
    {
      CopiedOne(m, at, s, i);
      Store(b, at + i, [s[i]]);
      i := i + 1;
    }
  }

  lemma CopyEnd(m: seq<Byte>, at: nat, s: seq<Byte>, i: nat, room: nat)
    requires room > 0 && at + room <= |m| && i <= |s| && i <= room && (i == |s| || i == room)
    ensures var x := (if |s| < room then s else s[..room - 1]) + [0];
            |x| <= room && Overwrite(Overwrite(m, at, s[..i]), if i < room then at + i else at + i - 1, [0]) ==
              Overwrite(m, at, x)
  {
    hide Overwrite;
    if i < room {
      assert s[..i] == s;
      OverwriteTwice(m, at, s, [0]);
    } else {
      CutShort(m, at, s[..room]);
      assert s[..room][..room - 1] == s[..room - 1];
    }
  }

  lemma CopiedNone(m: seq<Byte>, at: nat, s: seq<Byte>)
    requires at <= |m|
    ensures m == Overwrite(m, at, s[..0])
  {
  }

  lemma CopiedOne(m: seq<Byte>, at: nat, s: seq<Byte>, i: nat)
    requires i < |s| && at + i < |m|
    ensures Overwrite(Overwrite(m, at, s[..i]), at + i, [s[i]]) == Overwrite(m, at, s[..i + 1])
  {
    OverwriteTwice(m, at, s[..i], [s[i]]);
    assert s[..i] + [s[i]] == s[..i + 1];
  }

  /** The last byte of a copy that filled the room gives way to the NUL. */
  lemma CutShort(m: seq<Byte>, at: nat, s: seq<Byte>)
    requires |s| > 0 && at + |s| <= |m|
    ensures Overwrite(Overwrite(m, at, s), at + |s| - 1, [0]) == Overwrite(m, at, s[..|s| - 1] + [0])
  {
  }

  method Store(b: array<Byte>, at: nat, bytes: seq<Byte>)
    requires at + |bytes| <= b.Length
    modifies b
    ensures b[..] == Overwrite(old(b[..]), at, bytes)
  {
    forall i | 0 <= i < |bytes| { b[at + i] := bytes[i]; }
  }

  /** The size of the block: cbNew. */
  method Measure(z: Layout, dlls: seq<CString>) returns (size: nat)
    ensures size == BlockSize(z, dlls)
  {
    hide PaddedName;
    size := z.Dll();
    assert dlls[..0] == [];
    for n := 0 to |dlls|
      invariant size == z.Dll() + |Strings(dlls[..n])|
    {
      PrefixStep(dlls, n);
      size := size + PadToDword(|dlls[n]| + 1);
    }
    assert dlls[..|dlls|] == dlls;
  }

  /** The part of UpdateImports that builds the block.  `imports` are the old descriptors and `base` is where the
      block will lie, from the start of the module.  No name fails to fit, and the block ends with the last one. */
  method BuildBlock(dlls: seq<CString>, imports: seq<Byte>, base: nat) returns (b: array<Byte>, end: nat)
    ensures fresh(b) && end == b.Length
    ensures Entered(b[..], base, Layout(|dlls|, |imports|), dlls, imports, |dlls|)
  {
    hide Holds, Dwords, Overwrite, Strings, Entries, ThunkTable, PaddedName, Align;
    var z := Layout(|dlls|, |imports|);
    var size := Measure(z, dlls);
    b := new Byte[size](_ => 0);
    LayoutOrder(z);
    assert b[..] == Zeros(size);
    Blank(b[..], base, z, dlls, imports);
    Store(b, z.Rem(), imports);
    end := z.Dll();
    for n := 0 to |dlls|
      invariant b.Length == size && end == z.Dll() + |Strings(dlls[..n])|
      invariant Entered(b[..], base, z, dlls, imports, n)
    {
      Round(b[..], base, z, dlls, imports, n);
      var ok := CopyString(b, end, size - end, dlls[n]);
      if !ok {
        break;
      }
      Store(b, z.Tab() + 16 * n, Dwords(Pair()));
      Store(b, 20 * n, Dwords([Wrap(base + z.Tab() + 16 * n), 0, 0, Wrap(base + end),
                               Wrap(base + z.Tab() + 16 * n + 8)]));
      end := end + PadToDword(|dlls[n]| + 1);
    }
    assert dlls[..|dlls|] == dlls;
  }

  lemma LayoutOrder(z: Layout)
    ensures z.Rem() + z.kept <= z.Tab() <= z.Dll()
  {
  }

  /** The block with nothing but the old descriptors. */
  lemma Blank(b: seq<Byte>, base: nat, z: Layout, dlls: seq<CString>, imports: seq<Byte>)
    requires z.n == |dlls| && z.kept == |imports| && |b| == BlockSize(z, dlls) && b == Zeros(|b|)
    requires z.Rem() + z.kept <= z.Tab() <= z.Dll()
    ensures Entered(Overwrite(b, z.Rem(), imports), base, z, dlls, imports, 0) && Strings(dlls[..0]) == []
  {
    hide Overwrite, Align, Fill, Holds, Dwords, Strings, Entries, ThunkTable;
    EmptyTables(base, z, dlls);
    BlankBlock(b, 0, z.Rem());
    BlankBlock(b, z.Rem(), z.Tab() - z.Rem());
    BlankBlock(b, z.Tab(), 16 * z.n);
    BlankBlock(b, z.Dll(), |b| - z.Dll());
    HoldsElsewhere(b, 0, z.Rem(), [], z.Rem(), imports);
    HoldsElsewhere(b, z.Tab(), 16 * z.n, [], z.Rem(), imports);
    HoldsElsewhere(b, z.Dll(), |b| - z.Dll(), [], z.Rem(), imports);
    HoldsAppend(b, z.Rem(), z.Tab() - z.Rem(), [], imports);
    assert [] + imports == imports;
  }

  lemma EmptyTables(base: nat, z: Layout, dlls: seq<CString>)
    ensures Dwords(Entries(base, z, dlls[..0])) == [] && Dwords(ThunkTable(0)) == [] && Strings(dlls[..0]) == []
  {
  }

  lemma BlankBlock(b: seq<Byte>, at: nat, n: nat)
    requires at + n <= |b| && b == Zeros(|b|)
    ensures Holds(b, at, n, [])
  {
    assert b[at..at + n] == Zeros(n);
    assert [] + Zeros(n) == Zeros(n);
  }

  function NameWritten(b: seq<Byte>, z: Layout, dlls: seq<CString>, k: nat): seq<Byte>
    requires k < |dlls| && z.Dll() + |Strings(dlls[..k])| + |dlls[k]| + 1 <= |b|
  {
    Overwrite(b, z.Dll() + |Strings(dlls[..k])|, dlls[k] + [0])
  }

  function Pair(): (r: seq<Dword>)
    ensures |r| == 4
  {
    [ORDINAL_FLAG + 1, 0, ORDINAL_FLAG + 1, 0]
  }

  /** One round of the loop. */
  lemma Round(b: seq<Byte>, base: nat, z: Layout, dlls: seq<CString>, imports: seq<Byte>, k: nat)
    requires k < |dlls| && Entered(b, base, z, dlls, imports, k) && z.Rem() + z.kept <= z.Tab() <= z.Dll()
    ensures z.Dll() + |Strings(dlls[..k])| + |dlls[k]| + 1 <= |b| && z.Tab() + 16 * k + 16 <= |b| && 20 * k + 20 <= |b|
    ensures |Strings(dlls[..k + 1])| == |Strings(dlls[..k])| + PadToDword(|dlls[k]| + 1)
    ensures var b2 := Overwrite(NameWritten(b, z, dlls, k), z.Tab() + 16 * k, Dwords(Pair()));
            Entered(Overwrite(b2, 20 * k, Dwords(Entry(base, z, k, |Strings(dlls[..k])|))), base, z, dlls, imports,
                    k + 1)
  {
    hide Overwrite, Align, Holds, Dwords, PaddedName, Strings, Entry, Entered, NameWritten;
    EnteredSize(b, base, z, dlls, imports, k);
    StringsStep(dlls, k);
    StringsPrefix(dlls, k + 1);
    PadRoom(|dlls[k]| + 1);
    RoundName(b, base, z, dlls, imports, k);
    RoundTables(NameWritten(b, z, dlls, k), base, z, dlls, imports, k);
  }

  lemma PadRoom(n: nat)
    ensures PadToDword(n) >= n
  {
  }

  lemma EnteredSize(b: seq<Byte>, base: nat, z: Layout, dlls: seq<CString>, imports: seq<Byte>, k: nat)
    requires k <= |dlls| && Entered(b, base, z, dlls, imports, k)
    ensures |b| == BlockSize(z, dlls) && z.n == |dlls| && z.kept == |imports|
  {
  }

  lemma RoundName(b: seq<Byte>, base: nat, z: Layout, dlls: seq<CString>, imports: seq<Byte>, k: nat)
    requires k < |dlls| && Entered(b, base, z, dlls, imports, k) && z.Rem() + z.kept <= z.Tab() <= z.Dll()
    requires z.Dll() + |Strings(dlls[..k])| + |dlls[k]| + 1 <= |b|
    ensures NamedOnly(NameWritten(b, z, dlls, k), base, z, dlls, imports, k)
  {
    hide Overwrite, Align, Holds, Dwords, PaddedName, Strings, Entries, ThunkTable;
    var at, x := z.Dll() + |Strings(dlls[..k])|, dlls[k] + [0];
    NameEntered(b, z, dlls, k, z.Dll(), |b| - z.Dll());
    HoldsElsewhere(b, 0, z.Rem(), Dwords(Entries(base, z, dlls[..k])), at, x);
    HoldsElsewhere(b, z.Rem(), z.Tab() - z.Rem(), imports, at, x);
    HoldsElsewhere(b, z.Tab(), 16 * z.n, Dwords(ThunkTable(k)), at, x);
  }

  /** The names are one ahead of the thunks and descriptors. */
  ghost predicate NamedOnly(b: seq<Byte>, base: nat, z: Layout, dlls: seq<CString>, imports: seq<Byte>, k: nat)
    requires k < |dlls|
  {
    && |b| == BlockSize(z, dlls) && z.n == |dlls| && z.kept == |imports|
    && Holds(b, 0, z.Rem(), Dwords(Entries(base, z, dlls[..k]))) && Holds(b, z.Rem(), z.Tab() - z.Rem(), imports)
    && Holds(b, z.Tab(), 16 * z.n, Dwords(ThunkTable(k))) && Holds(b, z.Dll(), |b| - z.Dll(), Strings(dlls[..k + 1]))
  }

  lemma RoundTables(b: seq<Byte>, base: nat, z: Layout, dlls: seq<CString>, imports: seq<Byte>, k: nat)
    requires k < |dlls| && NamedOnly(b, base, z, dlls, imports, k) && z.Rem() + z.kept <= z.Tab() <= z.Dll()
    requires z.Tab() + 16 * k + 16 <= |b| && 20 * k + 20 <= |b|
    ensures var b2 := Overwrite(b, z.Tab() + 16 * k, Dwords(Pair()));
            Entered(Overwrite(b2, 20 * k, Dwords(Entry(base, z, k, |Strings(dlls[..k])|))), base, z, dlls, imports,
                    k + 1)
  {
    hide Overwrite, Align, Holds, Dwords, Strings, Entry;
    PrefixStep(dlls, k);
    TableEntered(b, z.Tab(), 16 * z.n, ThunkTable(k), Pair());
    var b2 := Overwrite(b, z.Tab() + 16 * k, Dwords(Pair()));
    HoldsElsewhere(b, 0, z.Rem(), Dwords(Entries(base, z, dlls[..k])), z.Tab() + 16 * k, Dwords(Pair()));
    HoldsElsewhere(b, z.Rem(), z.Tab() - z.Rem(), imports, z.Tab() + 16 * k, Dwords(Pair()));
    HoldsElsewhere(b, z.Dll(), |b| - z.Dll(), Strings(dlls[..k + 1]), z.Tab() + 16 * k, Dwords(Pair()));
    var entry := Entry(base, z, k, |Strings(dlls[..k])|);
    TableEntered(b2, 0, z.Rem(), Entries(base, z, dlls[..k]), entry);
    HoldsElsewhere(b2, z.Rem(), z.Tab() - z.Rem(), imports, 20 * k, Dwords(entry));
    HoldsElsewhere(b2, z.Tab(), 16 * z.n, Dwords(ThunkTable(k + 1)), 20 * k, Dwords(entry));
    HoldsElsewhere(b2, z.Dll(), |b| - z.Dll(), Strings(dlls[..k + 1]), 20 * k, Dwords(entry));
  }

  lemma StringsStep(dlls: seq<CString>, k: nat)
    requires k < |dlls|
    ensures |Strings(dlls[..k + 1])| == |Strings(dlls[..k])| + PadToDword(|dlls[k]| + 1)
  {
    hide PaddedName;
    PrefixStep(dlls, k);
  }

  // ---------------------------------------------------------------- what the loader finds

  lemma {:induction false} EntriesPrefix(base: nat, z: Layout, dlls: seq<CString>, k: nat)
    requires k < |dlls|
    ensures var e := Entries(base, z, dlls[..k]); e + Entry(base, z, k, |Strings(dlls[..k])|) <= Entries(base, z, dlls)
    decreases |dlls|
  {
    hide Entry, Strings;
    var n := |dlls|;
    if k < n - 1 {
      EntriesPrefix(base, z, dlls[..n - 1], k);
      assert dlls[..n - 1][..k] == dlls[..k];
    }
  }

  lemma {:induction false} ThunkAt(n: nat, k: nat, j: nat)
    requires k < n && j < 4
    ensures ThunkTable(n)[4 * k + j] == Pair()[j]
    decreases n
  {
    if k < n - 1 {
      ThunkAt(n - 1, k, j);
      assert ThunkTable(n)[4 * k + j] == ThunkTable(n - 1)[4 * k + j];
    }
  }

  /** The parts of the block in order; none meets another. */
  lemma PartsInOrder(z: Layout, dlls: seq<CString>)
    ensures 20 * z.n == z.Rem() && z.Rem() + z.kept <= z.Tab() < z.Rem() + z.kept + 8 && z.Tab() % 8 == 0
    ensures z.Tab() + 16 * z.n == z.Dll() && z.Dll() + |Strings(dlls)| == BlockSize(z, dlls)
  {
  }

  /** For every list of DLL names: the old descriptors are there byte for byte behind the new ones, and the
      descriptor of each new DLL leads to its name and to two tables of the ordinal 1. */
  lemma BlockReads(b: seq<Byte>, base: nat, z: Layout, dlls: seq<CString>, imports: seq<Byte>, k: nat)
    requires Entered(b, base, z, dlls, imports, |dlls|) && base + |b| < 0x1_0000_0000 && k < |dlls|
    ensures z.Rem() + |imports| <= |b| && b[z.Rem()..z.Rem() + |imports|] == imports && 20 * k + 20 <= z.Rem()
    ensures var at, name := z.Tab() + 16 * k, z.Dll() + |Strings(dlls[..k])|;
            && DwordAt(b, 20 * k) == base + at && DwordAt(b, 20 * k + 4) == 0 && DwordAt(b, 20 * k + 8) == 0
            && DwordAt(b, 20 * k + 12) == base + name && DwordAt(b, 20 * k + 16) == base + at + 8
            && at + 16 <= z.Dll() <= name < |b|
            && DwordAt(b, at) == ORDINAL_FLAG + 1 && DwordAt(b, at + 4) == 0
            && DwordAt(b, at + 8) == ORDINAL_FLAG + 1 && DwordAt(b, at + 12) == 0
            && StringAt(b, name) == Some(dlls[k])
  {
    hide Dwords, Holds, DwordAt, Align, Strings, ThunkTable, Entries, StringAt, Fill, Entry, Entered;
    assert dlls[..|dlls|] == dlls;
    LayoutOrder(z);
    EnteredSize(b, base, z, dlls, imports, |dlls|);
    EnteredHolds(b, base, z, dlls, imports);
    HoldsBytes(b, z.Rem(), z.Tab() - z.Rem(), imports);
    EntryReads(b, base, z, dlls, k);
    ThunkReads(b, z, |dlls|, k);
    NameReads(b, z, dlls, k);
    EntryPlain(base, z, k, |Strings(dlls[..k])|, |b|);
  }

  lemma EnteredHolds(b: seq<Byte>, base: nat, z: Layout, dlls: seq<CString>, imports: seq<Byte>)
    requires Entered(b, base, z, dlls, imports, |dlls|) && z.Rem() + z.kept <= z.Tab() <= z.Dll()
    ensures Holds(b, 0, z.Rem(), Dwords(Entries(base, z, dlls))) && Holds(b, z.Rem(), z.Tab() - z.Rem(), imports)
    ensures Holds(b, z.Tab(), 16 * z.n, Dwords(ThunkTable(|dlls|))) && z.Dll() <= |b|
    ensures Holds(b, z.Dll(), |b| - z.Dll(), Strings(dlls))
  {
    hide Dwords, Holds, Align, Strings, ThunkTable, Entries;
    assert dlls[..|dlls|] == dlls;
  }

  lemma EntryPlain(base: nat, z: Layout, k: nat, at: nat, size: nat)
    requires base + size < 0x1_0000_0000 && z.Tab() + 16 * k + 16 <= size && z.Dll() + at < size
    ensures Entry(base, z, k, at) == [base + z.Tab() + 16 * k, 0, 0, base + z.Dll() + at, base + z.Tab() + 16 * k + 8]
  {
    hide Align, Wrap;
    SmallWrap(base + z.Tab() + 16 * k);
    SmallWrap(base + z.Dll() + at);
    SmallWrap(base + z.Tab() + 16 * k + 8);
  }

  lemma SmallWrap(x: nat)
    requires x < 0x1_0000_0000
    ensures Wrap(x) == x
  {
  }

  lemma EntryReads(b: seq<Byte>, base: nat, z: Layout, dlls: seq<CString>, k: nat)
    requires k < |dlls| == z.n && Holds(b, 0, z.Rem(), Dwords(Entries(base, z, dlls)))
    ensures 20 * k + 20 <= |b|
    ensures var e := Entry(base, z, k, |Strings(dlls[..k])|);
            && DwordAt(b, 20 * k) == e[0] && DwordAt(b, 20 * k + 4) == e[1] && DwordAt(b, 20 * k + 8) == e[2]
            && DwordAt(b, 20 * k + 12) == e[3] && DwordAt(b, 20 * k + 16) == e[4]
  {
    hide Dwords, Holds, DwordAt, Strings, Entry;
    var all, e := Entries(base, z, dlls), Entry(base, z, k, |Strings(dlls[..k])|);
    HoldsBytes(b, 0, z.Rem(), Dwords(all));
    EntriesPrefix(base, z, dlls, k);
    assert all[5 * k..5 * k + 5] == e;
    FiveItems(all, 5 * k, e);
    DwordIn(b, 0, all, 5 * k);
    DwordIn(b, 0, all, 5 * k + 1);
    DwordIn(b, 0, all, 5 * k + 2);
    DwordIn(b, 0, all, 5 * k + 3);
    DwordIn(b, 0, all, 5 * k + 4);
  }

  lemma FiveItems(all: seq<Dword>, i: nat, e: seq<Dword>)
    requires |e| == 5 && i + 5 <= |all| && all[i..i + 5] == e
    ensures all[i] == e[0] && all[i + 1] == e[1] && all[i + 2] == e[2] && all[i + 3] == e[3] && all[i + 4] == e[4]
  {
    var x := all[i..i + 5];
    assert x[0] == all[i] && x[1] == all[i + 1] && x[2] == all[i + 2] && x[3] == all[i + 3] && x[4] == all[i + 4];
  }

  lemma ThunkReads(b: seq<Byte>, z: Layout, n: nat, k: nat)
    requires k < n == z.n && Holds(b, z.Tab(), 16 * z.n, Dwords(ThunkTable(n)))
    ensures z.Tab() + 16 * k + 16 <= |b|
    ensures var at := z.Tab() + 16 * k;
            && DwordAt(b, at) == ORDINAL_FLAG + 1 && DwordAt(b, at + 4) == 0 && DwordAt(b, at + 8) == ORDINAL_FLAG + 1
            && DwordAt(b, at + 12) == 0
  {
    hide Dwords, Holds, DwordAt, Align, ThunkTable;
    HoldsBytes(b, z.Tab(), 16 * z.n, Dwords(ThunkTable(n)));
    ThunkAt(n, k, 0);
    ThunkAt(n, k, 1);
    ThunkAt(n, k, 2);
    ThunkAt(n, k, 3);
    DwordIn(b, z.Tab(), ThunkTable(n), 4 * k);
    DwordIn(b, z.Tab(), ThunkTable(n), 4 * k + 1);
    DwordIn(b, z.Tab(), ThunkTable(n), 4 * k + 2);
    DwordIn(b, z.Tab(), ThunkTable(n), 4 * k + 3);
  }

  lemma NameReads(b: seq<Byte>, z: Layout, dlls: seq<CString>, k: nat)
    requires k < |dlls| && z.Dll() <= |b| && Holds(b, z.Dll(), |b| - z.Dll(), Strings(dlls))
    ensures StringAt(b, z.Dll() + |Strings(dlls[..k])|) == Some(dlls[k])
    ensures z.Dll() + |Strings(dlls[..k])| < |b|
  {
    hide Holds, Align, Strings, PaddedName, StringAt;
    var s, x, before := dlls[k], PaddedName(dlls[k]), Strings(dlls[..k]);
    HoldsBytes(b, z.Dll(), |b| - z.Dll(), Strings(dlls));
    NamePrefix(dlls, k);
    PrefixWithin(before, x, Strings(dlls), Strings(dlls));
    InTable(b, z.Dll(), Strings(dlls), before, x);
    PaddedShape(s);
    assert x[0..|s|] == s && x[|s|] == 0;
    StringWithin(b, z.Dll() + |before|, x, 0, s);
  }

  lemma NamePrefix(dlls: seq<CString>, k: nat)
    requires k < |dlls|
    ensures Strings(dlls[..k]) + PaddedName(dlls[k]) <= Strings(dlls)
  {
    hide PaddedName;
    PrefixStep(dlls, k);
    StringsPrefix(dlls, k + 1);
  }
}
