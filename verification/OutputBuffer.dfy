/** The output buffer of CImage::Write and the tables laid out in it (loader_dll/detours/image.cpp, 638-767 and
    886-932). */
module OutputBuffer {
  import opened Bytes
  import opened Options
  import opened Alignment
  import opened ImportList
  import opened ImportTable

  function Zeros(n: nat): seq<Byte> { Fill(0, n) }

  /** A block of `n` bytes at `at` that holds `bytes` and then zeros. */
  ghost predicate Holds(b: seq<Byte>, at: nat, n: nat, bytes: seq<Byte>)
  {
    |bytes| <= n && at + n <= |b| && b[at..at + n] == bytes + Zeros(n - |bytes|)
  }

  lemma HoldsElsewhere(b: seq<Byte>, at: nat, n: nat, bytes: seq<Byte>, to: nat, x: seq<Byte>)
    requires Holds(b, at, n, bytes) && to + |x| <= |b| && (to + |x| <= at || at + n <= to)
    ensures Holds(Overwrite(b, to, x), at, n, bytes)
  {
    OverwriteElsewhere(b, to, x, at, at + n);
  }

  lemma HoldsAppend(b: seq<Byte>, at: nat, n: nat, bytes: seq<Byte>, x: seq<Byte>)
    requires Holds(b, at, n, bytes) && |bytes| + |x| <= n
    ensures at + |bytes| + |x| <= |b| && Holds(Overwrite(b, at + |bytes|, x), at, n, bytes + x)
  {
    var c := Overwrite(b, at + |bytes|, x);
    var k := |bytes| + |x|;
    var was, now, want := b[at..at + n], c[at..at + n], bytes + x + Zeros(n - k);
    forall i | 0 <= i < n
      ensures now[i] == want[i]
    {
      assert was[i] == b[at + i];
    }
    assert now == want;
  }

  /** The zeros behind the bytes may count as bytes. */
  lemma HoldsZeros(b: seq<Byte>, at: nat, n: nat, bytes: seq<Byte>, k: nat)
    requires Holds(b, at, n, bytes) && |bytes| + k <= n
    ensures Holds(b, at, n, bytes + Zeros(k))
  {
    assert Zeros(k) + Zeros(n - |bytes| - k) == Zeros(n - |bytes|);
    assert bytes + Zeros(k) + Zeros(n - |bytes| - k) == bytes + (Zeros(k) + Zeros(n - |bytes| - k));
  }

  lemma HoldsNothing(b: seq<Byte>, at: nat, n: nat)
    requires at + n <= |b|
    ensures Holds(Overwrite(b, at, Zeros(n)), at, n, [])
  {
    assert Overwrite(b, at, Zeros(n))[at..at + n] == Zeros(n);
  }

  lemma HoldsBytes(b: seq<Byte>, at: nat, n: nat, bytes: seq<Byte>)
    requires Holds(b, at, n, bytes)
    ensures at + |bytes| <= |b| && b[at..at + |bytes|] == bytes
  {
    SliceOfSlice(b, at, at + n, 0, |bytes|);
  }

  lemma {:induction false} DwordsAppend(xs: seq<Dword>, ys: seq<Dword>)
    ensures Dwords(xs + ys) == Dwords(xs) + Dwords(ys)
    decreases |xs|
  {
    hide DwordBytes;
    if |xs| > 0 {
      assert (xs + ys)[1..] == xs[1..] + ys;
      DwordsAppend(xs[1..], ys);
    } else {
      assert xs + ys == ys;
    }
  }

  lemma OneDword(v: Dword)
    ensures Dwords([v]) == DwordBytes(v)
  {
    hide DwordBytes;
    assert [v][1..] == [];
    assert DwordBytes(v) + [] == DwordBytes(v);
  }

  // ---------------------------------------------------------------- the layout

  /** The sizes that a section is made for: the saved headers, the thunks, the name bytes, the payload and the
      descriptors. */
  datatype Sizes = Sizes(pre: nat, thunks: nat, chars: nat, data: nat, tables: nat)
  {
    function Lookups(): nat { 64 + pre }
    function Bounds(): nat { Lookups() + QuadAlign(4 * thunks) }
    function Names(): nat { Bounds() + QuadAlign(4 * thunks) }
    function Data(): nat { Names() + QuadAlign(chars) }
    function Table(): nat { Data() + QuadAlign(data) }
    function End(): nat { Table() + QuadAlign(20 * tables) }
    function Places(va: nat): Places { ImportTable.Places(va + Names(), va + Lookups(), va + Bounds(), thunks > 1) }
  }

  /** The blocks of a section, each with its contents: disjoint, in order and in bounds. */
  ghost predicate Laid(b: seq<Byte>, z: Sizes, head: seq<Byte>, pre: seq<Byte>, data: seq<Byte>, o: Out)
  {
    && z.End() <= |b|
    && Holds(b, 0, 64, head) && Holds(b, 64, z.pre, pre)
    && Holds(b, z.Lookups(), QuadAlign(4 * z.thunks), Dwords(o.lookups))
    && Holds(b, z.Bounds(), QuadAlign(4 * z.thunks), Dwords(o.bounds))
    && Holds(b, z.Names(), QuadAlign(z.chars), o.names) && Holds(b, z.Data(), QuadAlign(z.data), data)
    && Holds(b, z.Table(), QuadAlign(20 * z.tables), Dwords(o.table))
  }

  datatype Block = Head | Pre | Lookups | Bounds | Names | Data | Table

  function Start(z: Sizes, k: Block): nat
  {
    match k
    case Head => 0
    case Pre => 64
    case Lookups => z.Lookups()
    case Bounds => z.Bounds()
    case Names => z.Names()
    case Data => z.Data()
    case Table => z.Table()
  }

  function Length(z: Sizes, k: Block): nat
  {
    match k
    case Head => 64
    case Pre => z.pre
    case Lookups => QuadAlign(4 * z.thunks)
    case Bounds => QuadAlign(4 * z.thunks)
    case Names => QuadAlign(z.chars)
    case Data => QuadAlign(z.data)
    case Table => QuadAlign(20 * z.tables)
  }

  /** What a block holds. */
  function Content(head: seq<Byte>, pre: seq<Byte>, data: seq<Byte>, o: Out, k: Block): seq<Byte>
  {
    match k
    case Head => head
    case Pre => pre
    case Lookups => Dwords(o.lookups)
    case Bounds => Dwords(o.bounds)
    case Names => o.names
    case Data => data
    case Table => Dwords(o.table)
  }

  lemma BlocksApart(z: Sizes, j: Block, k: Block)
    requires j != k
    ensures Start(z, j) + Length(z, j) <= Start(z, k) || Start(z, k) + Length(z, k) <= Start(z, j)
    ensures Start(z, k) + Length(z, k) <= z.End()
  {
    hide QuadAlign;
  }

  lemma LaidBlocks(b: seq<Byte>, z: Sizes, head: seq<Byte>, pre: seq<Byte>, data: seq<Byte>, o: Out)
    ensures Laid(b, z, head, pre, data, o) <==>
            z.End() <= |b| && forall k: Block :: Holds(b, Start(z, k), Length(z, k), Content(head, pre, data, o, k))
  {
    hide Holds, QuadAlign;
    if z.End() <= |b| && forall k: Block :: Holds(b, Start(z, k), Length(z, k), Content(head, pre, data, o, k)) {
      assert Holds(b, Start(z, Head), Length(z, Head), Content(head, pre, data, o, Head));
      assert Holds(b, Start(z, Pre), Length(z, Pre), Content(head, pre, data, o, Pre));
      assert Holds(b, Start(z, Lookups), Length(z, Lookups), Content(head, pre, data, o, Lookups));
      assert Holds(b, Start(z, Bounds), Length(z, Bounds), Content(head, pre, data, o, Bounds));
      assert Holds(b, Start(z, Names), Length(z, Names), Content(head, pre, data, o, Names));
      assert Holds(b, Start(z, Data), Length(z, Data), Content(head, pre, data, o, Data));
      assert Holds(b, Start(z, Table), Length(z, Table), Content(head, pre, data, o, Table));
    }
  }

  /** Adding bytes to one block leaves the others as they are. */
  lemma BlockAppend(b: seq<Byte>, z: Sizes, head: seq<Byte>, pre: seq<Byte>, data: seq<Byte>, o: Out,
                    head2: seq<Byte>, pre2: seq<Byte>, data2: seq<Byte>, o2: Out, j: Block, x: seq<Byte>)
    requires Laid(b, z, head, pre, data, o)
    requires forall k: Block | k != j :: Content(head2, pre2, data2, o2, k) == Content(head, pre, data, o, k)
    requires Content(head2, pre2, data2, o2, j) == Content(head, pre, data, o, j) + x
    requires |Content(head, pre, data, o, j)| + |x| <= Length(z, j)
    ensures var at := Start(z, j) + |Content(head, pre, data, o, j)|;
            at + |x| <= |b| && Laid(Overwrite(b, at, x), z, head2, pre2, data2, o2)
  {
    hide Holds, Length, Start, Content, Laid, Overwrite;
    LaidBlocks(b, z, head, pre, data, o);
    HoldsRoom(b, Start(z, j), Length(z, j), Content(head, pre, data, o, j));
    HoldsAppend(b, Start(z, j), Length(z, j), Content(head, pre, data, o, j), x);
    var c := Overwrite(b, Start(z, j) + |Content(head, pre, data, o, j)|, x);
    forall k: Block
      ensures Holds(c, Start(z, k), Length(z, k), Content(head2, pre2, data2, o2, k))
    {
      if k != j {
        BlocksApart(z, j, k);
        HoldsElsewhere(b, Start(z, k), Length(z, k), Content(head, pre, data, o, k),
                       Start(z, j) + |Content(head, pre, data, o, j)|, x);
      }
    }
    LaidBlocks(c, z, head2, pre2, data2, o2);
  }

  lemma HoldsRoom(b: seq<Byte>, at: nat, n: nat, bytes: seq<Byte>)
    requires Holds(b, at, n, bytes)
    ensures at + n <= |b| && |bytes| <= n
  {
  }

  // ---------------------------------------------------------------- the code

  /** m_pbOutputBuffer and how much of it has been handed out. */
  class Output {
    var buffer: array<Byte>   // m_pbOutputBuffer, of m_cbOutputBuffer bytes
    const virtAddr: nat       // m_nOutputVirtAddr
    var virtSize: nat         // m_nOutputVirtSize

    constructor (buffer: array<Byte>, virtAddr: nat)
      ensures this.buffer == buffer && this.virtAddr == virtAddr && virtSize == 0
    {
      this.buffer, this.virtAddr, this.virtSize := buffer, virtAddr, 0;
    }

    /** SizeOutputBuffer: at least `n` bytes, zero beyond the old ones; `newOk` tells whether there is memory. */
    method SizeOutputBuffer(n: nat, fileAlignment: nat, newOk: bool) returns (ok: bool)
      requires fileAlignment > 0
      modifies this`buffer
      ensures ok == (n <= old(buffer).Length || newOk) && (buffer == old(buffer) || fresh(buffer))
      ensures ok ==> n <= buffer.Length
      ensures buffer.Length >= old(buffer).Length && buffer[..old(buffer).Length] == old(buffer[..])
      ensures n <= old(buffer).Length || !ok ==> buffer == old(buffer)
      ensures ok && n > old(buffer).Length ==>
                && n <= buffer.Length && 1024 <= buffer.Length && buffer.Length % fileAlignment == 0
                && buffer.Length < (if n < 1024 then 1024 else n) + fileAlignment
                && forall i | old(buffer).Length <= i < buffer.Length :: buffer[i] == 0
      ensures old(buffer).Length % fileAlignment == 0 ==> buffer.Length % fileAlignment == 0
    {
      if buffer.Length >= n {
        return true;
      }
      if !newOk {
        return false;
      }
      var size := Align(if n < 1024 then 1024 else n, fileAlignment);
      var larger := new Byte[size];
      forall i | 0 <= i < size { larger[i] := if i < buffer.Length then buffer[i] else 0; }
      assert larger[..buffer.Length] == buffer[..];
      buffer := larger;
      return true;
    }

    /** AllocateOutput: the next `n` bytes, rounded up to a multiple of 8 and cleared. */
    method AllocateOutput(n: nat) returns (at: Option<nat>, va: nat)
      requires virtSize <= buffer.Length
      modifies this`virtSize, buffer
      ensures virtSize == old(virtSize) + QuadAlign(n) && va == virtAddr + old(virtSize)
      ensures at == if virtSize <= buffer.Length then Some(old(virtSize)) else None
      ensures at.Some? ==> buffer[..] == Overwrite(old(buffer[..]), at.value, Zeros(QuadAlign(n)))
      ensures at.None? ==> buffer[..] == old(buffer[..])
    {
      hide QuadAlign;
      var start, size := virtSize, QuadAlign(n);
      va := virtAddr + virtSize;
      virtSize := virtSize + size;
      if virtSize > buffer.Length {
        return None, va;
      }
      forall i | 0 <= i < size { buffer[start + i] := 0; }
      return Some(start), va;
    }

    method Write(at: nat, bytes: seq<Byte>)
      requires at + |bytes| <= buffer.Length
      modifies buffer
      ensures buffer[..] == Overwrite(old(buffer[..]), at, bytes)
    {
      forall i | 0 <= i < |bytes| { buffer[at + i] := bytes[i]; }
    }
  }

  /** CImageThunks: a table of double words that fills up. */
  class CImageThunks {
    const output: Output
    var at: nat               // m_pThunks
    var used: nat             // m_nThunks
    const max: nat            // m_nThunksMax
    var virt: nat             // m_nThunkVirtAddr

    /** The table at `at`, which AllocateOutput has just returned. */
    constructor (output: Output, max: nat, at: nat, virt: nat)
      ensures this.output == output && this.max == max && this.at == at && this.virt == virt && used == 0
    {
      this.output, this.max, this.at, this.virt, this.used := output, max, at, virt, 0;
    }

    function Current(): nat
      reads this
    {
      if max > 1 then virt else 0
    }

    method Allocate(data: Dword) returns (va: nat)
      requires used < max ==> at + 4 <= output.buffer.Length
      modifies this, output.buffer
      ensures old(used) < max ==>
                && va == old(virt) && used == old(used) + 1 && at == old(at) + 4 && virt == old(virt) + 4
                && output.buffer[..] == Overwrite(old(output.buffer[..]), old(at), DwordBytes(data))
      ensures old(used) >= max ==>
                va == 0 && used == old(used) && at == old(at) && virt == old(virt)
                  && output.buffer[..] == old(output.buffer[..])
    {
      if used >= max {
        return 0;
      }
      va := virt;
      output.Write(at, DwordBytes(data));
      used, virt, at := used + 1, virt + 4, at + 4;
    }
  }

  /** CImageChars: a table of names that fills up. */
  class CImageChars {
    const output: Output
    var at: nat               // m_pChars
    var used: nat             // m_nChars
    const max: nat            // m_nCharsMax
    var virt: nat             // m_nCharVirtAddr

    constructor (output: Output, max: nat, at: nat, virt: nat)
      ensures this.output == output && this.max == max && this.at == at && this.virt == virt && used == 0
    {
      this.output, this.max, this.at, this.virt, this.used := output, max, at, virt, 0;
    }

    /** Both forms of Allocate: `hint` is there for a symbol. */
    method Allocate(hint: Option<Word>, s: CString) returns (va: nat)
      requires var n := Even((if hint.Some? then 2 else 0) + |s| + 1); used + n <= max ==>
                 at + n <= output.buffer.Length
      modifies this, output.buffer
      ensures var n := Even((if hint.Some? then 2 else 0) + |s| + 1);
              if old(used) + n <= max
              then && va == old(virt) && used == old(used) + n && at == old(at) + n && virt == old(virt) + n
                   && output.buffer[..] == Overwrite(old(output.buffer[..]), old(at), Text(hint, s) + [0])
              else && va == 0 && used == old(used) && at == old(at) && virt == old(virt)
                   && output.buffer[..] == old(output.buffer[..])
    {
      var n := |s| + 1;
      if hint.Some? {
        n := n + 2;
      }
      n := n + n % 2;
      if used + n > max {
        return 0;
      }
      va := virt;
      output.Write(at, Text(hint, s) + [0]);
      at, used, virt := at + n, used + n, virt + n;
    }
  }

  /** A hint, if there is one, and a name. */
  function Text(hint: Option<Word>, s: CString): (r: seq<Byte>)
    ensures |r| == (if hint.Some? then 2 else 0) + |s|
  {
    (match hint case Some(h) => [h % 0x100, h / 0x100] case None => []) + s
  }

  lemma TextPadded(hint: Option<Word>, s: CString)
    ensures var r := Text(hint, s) + [0];
            var x := match hint case Some(h) => HintName(h, s) case None => NameBytes(s);
            && |r| <= |x| && x == r + Zeros(|x| - |r|)
  {
    FillOne(Even(|s| + 1) - |s|);
    FillOne(Even(2 + |s| + 1) - 2 - |s|);
  }

  lemma FillOne(n: nat)
    requires n == 1 || n == 2
    ensures Zeros(n) == [0] + Zeros(n - 1)
  {
  }
}
