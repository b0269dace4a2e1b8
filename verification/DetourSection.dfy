/**
 The .detour section of an image: how CImage::Write makes it and how CImage::Read takes it away again
 (loader_dll/detours/image.cpp, 1002-1033, 1112-1133, 1276-1332 and 1684-1884).
 */
module DetourSection {
  import opened Bytes
  import opened Options
  import opened Alignment
  import opened ImportList
  import opened ImportTable
  import opened OutputBuffer
  import opened ImportWriter

  datatype Dir = Dir(address: Dword, size: Dword)

  /** IMAGE_SECTION_HEADER, as far as the file is concerned. */
  datatype SectionHeader = SectionHeader(name: CString, virtAddr: Dword, virtSize: Dword, pointer: Dword, size: Dword)

  /** The parts of the PE headers that an edit changes. */
  datatype Headers = Headers(sections: seq<SectionHeader>, imports: Dir, bound: Dir, iat: Dir, sizeOfImage: Dword)

  const DETOUR_NAME: CString := [0x2e, 0x64, 0x65, 0x74, 0x6f, 0x75, 0x72]
  const SIGNATURE: Dword := 0x0072_7444
  const HEADER_SIZE: nat := 64

  /** The fields of DETOUR_SECTION_HEADER. */
  function HeaderFields(h: Headers, dataOffset: Dword, dataEnd: Dword, pre: Dword, clrFlags: Dword): (r: seq<Dword>)
    ensures |r| == 16
  {
    [64, SIGNATURE, dataOffset, dataEnd, h.imports.address, h.imports.size, h.bound.address, h.bound.size,
     h.iat.address, h.iat.size, h.sizeOfImage, pre, clrFlags, 0, 0, 0]
  }

  /** What a write leaves: the headers, and the raw data of the section if there is one. */
  datatype Written = Written(headers: Headers, section: Option<seq<Byte>>)

  /** What a read finds: the headers without the section, where the saved headers and the payload lie. */
  datatype Reopened = Reopened(headers: Headers, hadSection: bool, preAt: nat, preSize: nat, dataAt: nat, dataSize: nat)

  // ---------------------------------------------------------------- writing

  class CImage {
    const fileAlignment: nat
    const sectionAlignment: nat
    const output: Output
    var nextFileAddr: nat      // m_nNextFileAddr
    var nextVirtAddr: nat      // m_nNextVirtAddr

    constructor (fileAlignment: nat, sectionAlignment: nat, output: Output, nextFileAddr: nat, nextVirtAddr: nat)
      ensures this.fileAlignment == fileAlignment && this.sectionAlignment == sectionAlignment && this.output == output
      ensures this.nextFileAddr == nextFileAddr && this.nextVirtAddr == nextVirtAddr
    {
      this.fileAlignment, this.sectionAlignment, this.output := fileAlignment, sectionAlignment, output;
      this.nextFileAddr, this.nextVirtAddr := nextFileAddr, nextVirtAddr;
    }

    /** AlignFileData.  It clears the output buffer, in ZeroFileData, when it has to fill a gap in the file. */
    method AlignFileData(newOk: bool) returns (ok: bool)
      requires fileAlignment > 0 && sectionAlignment > 0
      modifies this`nextFileAddr, this`nextVirtAddr, output`buffer, output.buffer
      ensures nextFileAddr == Align(old(nextFileAddr), fileAlignment)
      ensures nextVirtAddr == Align(old(nextVirtAddr), sectionAlignment)
      ensures nextFileAddr == old(nextFileAddr) ==>
                ok && output.buffer == old(output.buffer) && output.buffer[..] == old(output.buffer[..])
    {
      var last := nextFileAddr;
      nextFileAddr := Align(nextFileAddr, fileAlignment);
      nextVirtAddr := Align(nextVirtAddr, sectionAlignment);
      if nextFileAddr > last {
        ok := output.SizeOutputBuffer(4096, fileAlignment, newOk);
        if !ok {
          return;
        }
        output.Write(0, Zeros(4096));
      }
      return true;
    }

    /** Allocate the head, the saved headers, the import tables and the payload, and fill in what is not
        an import table. */
    method LayOut(h: Headers, z: Sizes, pre: seq<Byte>, payload: seq<Byte>, clrFlags: Dword) returns (w: Writer)
      requires output.virtSize == 0 && z.End() <= output.buffer.Length && output.virtAddr + z.End() <= ORDINAL_FLAG
      requires |pre| == z.pre && z.pre % 8 == 0 && |payload| == z.data
      modifies output`virtSize, output.buffer
      ensures fresh(w) && fresh(w.lookups) && fresh(w.bounds) && fresh(w.names) && w.output == output
      ensures w.Valid() && w.out == Nothing && w.z == z && w.pre == pre && w.data == payload
      ensures w.head == Dwords(HeaderFields(h, z.Data(), z.Data() + z.data, z.pre, clrFlags))
      ensures output.virtSize == z.End()
    {
      hide QuadAlign, Overwrite, Fill, Laid, Dwords, Cleared, HeaderFields, Align;
      var vaLookups, vaBounds, vaNames, vaData := AllocateBlocks(z);
      var offset := vaData - output.virtAddr;
      var fields := Dwords(HeaderFields(h, offset, offset + z.data, z.pre, clrFlags));
      CopyBlocks(z, fields, pre, payload);
      w := MakeWriter(z, fields, pre, payload, vaLookups, vaBounds, vaNames);
    }

    method MakeWriter(z: Sizes, ghost fields: seq<Byte>, ghost pre: seq<Byte>, ghost payload: seq<Byte>, vaLookups: nat,
                      vaBounds: nat, vaNames: nat)
      returns (w: Writer)
      requires Laid(output.buffer[..], z, fields, pre, payload, Nothing)
      requires vaLookups == output.virtAddr + z.Lookups() && vaBounds == output.virtAddr + z.Bounds()
      requires vaNames == output.virtAddr + z.Names()
      ensures fresh(w) && fresh(w.lookups) && fresh(w.bounds) && fresh(w.names) && w.output == output
      ensures w.Valid() && w.out == Nothing && w.z == z && w.pre == pre && w.data == payload && w.head == fields
    {
      hide QuadAlign, Laid;
      var lookupTable := new CImageThunks(output, z.thunks, z.Lookups(), vaLookups);
      var boundTable := new CImageThunks(output, z.thunks, z.Bounds(), vaBounds);
      var nameTable := new CImageChars(output, z.chars, z.Names(), vaNames);
      w := new Writer(output, lookupTable, boundTable, nameTable, z.Table(), z, fields, pre, payload);
    }

    /** Copy in what is known, and allocate the import table. */
    method CopyBlocks(z: Sizes, fields: seq<Byte>, pre: seq<Byte>, payload: seq<Byte>)
      requires output.virtSize == z.Table() && z.End() <= output.buffer.Length && Cleared(output.buffer[..], z.Table())
      requires |fields| == 64 && |pre| == z.pre && |payload| == z.data
      modifies output`virtSize, output.buffer
      ensures output.virtSize == z.End() && Laid(output.buffer[..], z, fields, pre, payload, Nothing)
    {
      hide QuadAlign, Overwrite, Fill, Laid, Cleared;
      CopiesLaid(output.buffer[..], z, fields, pre, payload);
      output.Write(0, fields);
      output.Write(64, pre);
      output.Write(z.Data(), payload);
      TableLaid(output.buffer[..], z, fields, pre, payload);
      var _, _ := output.AllocateOutput(20 * z.tables);
    }

    /** The six allocations before the import table: each succeeds, and they follow one another. */
    method AllocateBlocks(z: Sizes) returns (vaLookups: nat, vaBounds: nat, vaNames: nat, vaData: nat)
      requires output.virtSize == 0 && z.Table() <= output.buffer.Length && z.pre % 8 == 0
      modifies output`virtSize, output.buffer
      ensures output.virtSize == z.Table() && Cleared(output.buffer[..], z.Table())
      ensures vaLookups == output.virtAddr + z.Lookups() && vaBounds == output.virtAddr + z.Bounds()
      ensures vaNames == output.virtAddr + z.Names() && vaData == output.virtAddr + z.Data()
    {
      hide QuadAlign, Overwrite, Fill, Cleared;
      var va;
      QuadStays(64);
      QuadStays(z.pre);
      NothingCleared(output.buffer[..]);
      va := AllocateNext(HEADER_SIZE);
      va := AllocateNext(z.pre);
      vaLookups := AllocateNext(4 * z.thunks);
      vaBounds := AllocateNext(4 * z.thunks);
      vaNames := AllocateNext(z.chars);
      vaData := AllocateNext(z.data);
    }

    method AllocateNext(n: nat) returns (va: nat)
      requires output.virtSize + QuadAlign(n) <= output.buffer.Length && Cleared(output.buffer[..], output.virtSize)
      modifies output`virtSize, output.buffer
      ensures output.virtSize == old(output.virtSize) + QuadAlign(n) && Cleared(output.buffer[..], output.virtSize)
      ensures va == output.virtAddr + old(output.virtSize)
    {
      hide QuadAlign, Overwrite, Fill, Cleared;
      ghost var b, k := output.buffer[..], output.virtSize;
      var at;
      at, va := output.AllocateOutput(n);
      MoreCleared(b, k, QuadAlign(n));
    }

    /** File addresses and the buffer are file-aligned, as the AlignFileData calls before have left them, there is room
        for one more section header, and the sizes fit. */
    ghost predicate CanWrite(h: Headers, files: seq<ImportFile>, pre: nat, payload: nat)
      reads this, output
    {
      && fileAlignment > 0 && sectionAlignment > 0 && output.buffer.Length % fileAlignment == 0
      && nextFileAddr % fileAlignment == 0 && output.virtSize == 0 && output.virtAddr == nextVirtAddr > 0
      && pre % 8 == 0 && |h.sections| < 16
      && Fits(files, pre, payload, nextVirtAddr, nextFileAddr, fileAlignment, sectionAlignment)
    }

    /** The image is as large as its sections, in whole section blocks, and the new section, which starts at `virtAddr`
        and at `fileAddr` in the file, has whole file blocks of raw data. */
    ghost predicate InImage(section: seq<Byte>, now: Headers, size: nat, fileAddr: nat, virtAddr: nat)
      reads this
    {
      && fileAlignment > 0 && sectionAlignment > 0
      && virtAddr + size <= now.sizeOfImage as int < virtAddr + size + sectionAlignment
      && now.sizeOfImage as int % sectionAlignment == 0
      && size <= |section| < size + fileAlignment && |section| % fileAlignment == 0
      && nextVirtAddr == now.sizeOfImage as int && nextFileAddr == fileAddr + |section|
    }

    /** The part of Write from CheckImportsNeeded to the raw data of the section; `newOk` tells whether there is
        memory for the output buffer. */
    method WriteSection(h: Headers, imports: CImports, pre: seq<Byte>, payload: seq<Byte>, clrFlags: Dword, newOk: bool)
      returns (r: Option<Written>)
      requires CanWrite(h, imports.files, |pre|, |payload|)
      modifies this`nextFileAddr, this`nextVirtAddr, output, output.buffer
      ensures r.None? <==>
                && !newOk && (Changed(imports.files) || payload != [])
                && old(output.buffer.Length) < Blocks(imports.files, |pre|, |payload|).End()
      ensures r.Some? ==> Outcome(r.value, h, imports.files, pre, payload, clrFlags, old(nextFileAddr),
                                  old(nextVirtAddr))
      ensures r.Some? && r.value.section.Some? ==>
                InImage(r.value.section.value, r.value.headers, Blocks(imports.files, |pre|, |payload|).End(),
                        old(nextFileAddr), old(nextVirtAddr))
    {
      hide QuadAlign, Laid, Dwords, Align, WrittenFor, HeaderFields, Fits, EmitFiles, Changed, Chars, ImportList.Thunks,
        Sizes.End;
      var needed, tables, thunks, chars := imports.CheckImportsNeeded();
      FitsParts(imports.files, |pre|, |payload|, nextVirtAddr, nextFileAddr, fileAlignment, sectionAlignment);
      if !needed && payload == [] {
        return Some(Written(h.(sizeOfImage := nextVirtAddr), None));
      }
      var z := Sizes(|pre|, thunks, chars, |payload|, tables);
      assert z == Blocks(imports.files, |pre|, |payload|);
      r := FillSection(h, imports, z, pre, payload, clrFlags, newOk);
    }

    /** The part of it that fills the output buffer, once the sizes are known. */
    method FillSection(h: Headers, imports: CImports, z: Sizes, pre: seq<Byte>, payload: seq<Byte>, clrFlags: Dword,
                       newOk: bool)
      returns (r: Option<Written>)
      requires CanWrite(h, imports.files, |pre|, |payload|) && z == Blocks(imports.files, |pre|, |payload|)
      modifies this`nextFileAddr, this`nextVirtAddr, output, output.buffer
      ensures r.None? <==> !newOk && old(output.buffer.Length) < z.End()
      ensures r.Some? ==>
                && r.value.section.Some?
                && InImage(r.value.section.value, r.value.headers, z.End(), old(nextFileAddr), old(nextVirtAddr))
                && WrittenFor(r.value.section.value, r.value.headers, h, imports.files, pre, payload, clrFlags,
                              old(nextFileAddr), old(nextVirtAddr))
    {
      hide QuadAlign, Laid, Dwords, Align, WrittenFor, HeaderFields, Fits, EmitFiles, Changed, Chars, ImportList.Thunks,
        Sizes.End, Sizes.Data, Sizes.Table;
      FitsParts(imports.files, |pre|, |payload|, nextVirtAddr, nextFileAddr, fileAlignment, sectionAlignment);
      QuadStays(HEADER_SIZE);
      var ok := output.SizeOutputBuffer(z.End(), fileAlignment, newOk);
      if !ok {
        return None;
      }
      var w := LayOut(h, z, pre, payload, clrFlags);
      w.AddFiles(imports.files);
      r := Finish(h, imports.files, z, pre, payload, clrFlags, newOk);
    }

    /** The addresses, the section header and the raw data, once the buffer is filled. */
    method Finish(h: Headers, ghost files: seq<ImportFile>, z: Sizes, ghost pre: seq<Byte>, ghost payload: seq<Byte>,
                  ghost clrFlags: Dword, newOk: bool)
      returns (r: Option<Written>)
      requires fileAlignment > 0 && sectionAlignment > 0 && output.buffer.Length % fileAlignment == 0
      requires nextFileAddr % fileAlignment == 0 && output.virtSize == z.End() <= output.buffer.Length
      requires nextVirtAddr > 0
      requires z == Sizes(|pre|, ImportList.Thunks(files), Chars(files), |payload|, |files| + 1)
      requires Fits(files, |pre|, |payload|, nextVirtAddr, nextFileAddr, fileAlignment, sectionAlignment)
      requires z.Data() + z.data < 0x1_0000_0000
      requires Laid(output.buffer[..], z, Dwords(HeaderFields(h, z.Data(), z.Data() + z.data, z.pre, clrFlags)), pre,
                    payload,
                    EmitFiles(files, z.Places(nextVirtAddr), Nothing))
      modifies this`nextFileAddr, this`nextVirtAddr, output`buffer, output.buffer
      ensures r.Some? && r.value.section.Some?
      ensures InImage(r.value.section.value, r.value.headers, z.End(), old(nextFileAddr), old(nextVirtAddr))
      ensures WrittenFor(r.value.section.value, r.value.headers, h, files, pre, payload, clrFlags, old(nextFileAddr),
                         old(nextVirtAddr))
    {
      hide QuadAlign, Laid, Dwords, Align, HeaderFields, Fits, EmitFiles, Chars, ImportList.Thunks;
      FitsParts(files, |pre|, |payload|, nextVirtAddr, nextFileAddr, fileAlignment, sectionAlignment);
      var size := Align(output.virtSize, fileAlignment);
      var virtAddr, fileAddr := nextVirtAddr, nextFileAddr;
      AlignedFits(output.virtSize, output.buffer.Length, fileAlignment);
      LaidPrefix(output.buffer[..], size, z, Dwords(HeaderFields(h, z.Data(), z.Data() + z.data, z.pre, clrFlags)), pre,
                 payload,
                 EmitFiles(files, z.Places(nextVirtAddr), Nothing));
      nextVirtAddr := nextVirtAddr + output.virtSize;
      nextFileAddr := nextFileAddr + size;
      StillAligned(fileAddr, size, fileAlignment);
      var ok := AlignFileData(newOk);
      var section := output.buffer[..size];
      assert section == output.buffer[..][..size];
      var headers := Headers(h.sections + [SectionHeader(DETOUR_NAME, virtAddr, output.virtSize, fileAddr, size)],
                             Dir(virtAddr + z.Table(), 20 * z.tables), Dir(0, 0), h.iat, nextVirtAddr);
      return Some(Written(headers, Some(section)));
    }
  }

  lemma FitsParts(files: seq<ImportFile>, pre: nat, payload: nat, virtAddr: nat, fileAddr: nat, fileAlignment: nat,
                  sectionAlignment: nat)
    requires fileAlignment > 0 && sectionAlignment > 0
    requires Fits(files, pre, payload, virtAddr, fileAddr, fileAlignment, sectionAlignment)
    ensures var z := Sizes(pre, ImportList.Thunks(files), Chars(files), payload, |files| + 1);
            && z.Data() + z.data <= z.End() <= Align(z.End(), fileAlignment) && z.Table() + 20 * z.tables <= z.End()
            && virtAddr + Align(z.End(), fileAlignment) <= ORDINAL_FLAG && virtAddr <= ORDINAL_FLAG
            && Align(virtAddr + z.End(), sectionAlignment) < 0x1_0000_0000 && fileAddr < 0x1_0000_0000
            && 4 * z.thunks <= z.End() && z.chars <= z.End() && z.pre <= z.End()
  {
    hide QuadAlign, Align, Sizes.End, Sizes.Data, Sizes.Table;
    var z := Sizes(pre, ImportList.Thunks(files), Chars(files), payload, |files| + 1);
    WithinEnd(z);
    assert Align(z.End(), fileAlignment) >= z.End();
  }

  /** No block of a section is larger than the section. */
  lemma WithinEnd(z: Sizes)
    ensures z.Data() + z.data <= z.End() && z.Table() + 20 * z.tables <= z.End()
    ensures 4 * z.thunks <= z.End() && z.chars <= z.End() && z.pre <= z.End()
  {
    hide QuadAlign;
    AlignUp(z.data);
    AlignUp(20 * z.tables);
    AlignUp(4 * z.thunks);
    AlignUp(z.chars);
  }

  /** The blocks of the section for a list of files, saved headers and a payload of these sizes. */
  function Blocks(files: seq<ImportFile>, pre: nat, payload: nat): Sizes
  {
    Sizes(pre, Thunks(files), Chars(files), payload, |files| + 1)
  }

  /** The sizes of an image stay within the 31 bits that tell an address from an ordinal. */
  predicate Fits(files: seq<ImportFile>, pre: nat, payload: nat, virtAddr: nat, fileAddr: nat, fileAlignment: nat,
                 sectionAlignment: nat)
    requires fileAlignment > 0 && sectionAlignment > 0
  {
    var end := Sizes(pre, Thunks(files), Chars(files), payload, |files| + 1).End();
    && virtAddr <= ORDINAL_FLAG && virtAddr + Align(end, fileAlignment) <= ORDINAL_FLAG
    && Align(virtAddr + end, sectionAlignment) < 0x1_0000_0000 && fileAddr < 0x1_0000_0000
  }

  /** A section is written exactly when an import has changed or there is a payload. */
  ghost predicate Outcome(w: Written, h: Headers, files: seq<ImportFile>, pre: seq<Byte>, payload: seq<Byte>,
                          clrFlags: Dword, fileAddr: nat, virtAddr: nat)
  {
    && w.section.None? == (!Changed(files) && payload == [])
    && (w.section.None? ==> virtAddr < 0x1_0000_0000 && w.headers == h.(sizeOfImage := virtAddr))
    && (w.section.Some? ==> WrittenFor(w.section.value, w.headers, h, files, pre, payload, clrFlags, fileAddr,
                                       virtAddr))
  }

  /** What a write promises of the section and of the headers. */
  ghost predicate WrittenFor(section: seq<Byte>, now: Headers, h: Headers, files: seq<ImportFile>, pre: seq<Byte>,
                             payload: seq<Byte>, clrFlags: Dword, fileAddr: nat, virtAddr: nat)
  {
    var z := Sizes(|pre|, Thunks(files), Chars(files), |payload|, |files| + 1);
    && z.Data() + z.data < 0x1_0000_0000 && |section| < 0x1_0000_0000 && z.End() < 0x1_0000_0000 && 0 < virtAddr
    && fileAddr < 0x1_0000_0000 && virtAddr + |section| <= ORDINAL_FLAG
    && Laid(section, z, Dwords(HeaderFields(h, z.Data(), z.Data() + z.data, z.pre, clrFlags)), pre, payload,
            EmitFiles(files, z.Places(virtAddr), Nothing))
    && now.sections == h.sections + [SectionHeader(DETOUR_NAME, virtAddr, z.End(), fileAddr, |section|)]
    && now.imports.address == virtAddr + z.Table() && now.imports.size == 20 * (|files| + 1)
    && now.bound == Dir(0, 0) && now.iat == h.iat
  }

  lemma StillAligned(a: nat, n: nat, size: nat)
    requires size > 0 && a % size == 0 && n % size == 0
    ensures (a + n) % size == 0 && Align(a + n, size) == a + n
  {
    var q := a / size + n / size;
    assert a + n == q * size + 0;
    DivisionUnique(a + n, size, q, 0);
    AlignedStays(a + n, size);
  }

  /** The buffer is a whole number of file blocks, so the rounded size is within it. */
  lemma AlignedFits(n: nat, length: nat, size: nat)
    requires size > 0 && n <= length && length % size == 0
    ensures Align(n, size) <= length
  {
    var r := Align(n, size);
    var d := r / size - length / size;
    assert r == r / size * size && length == length / size * size;
    assert d * size == r - length;
    Multiples(d, size);
  }

  lemma LaidPrefix(b: seq<Byte>, size: nat, z: Sizes, head: seq<Byte>, pre: seq<Byte>, data: seq<Byte>, o: Out)
    requires Laid(b, z, head, pre, data, o) && z.End() <= size <= |b|
    ensures Laid(b[..size], z, head, pre, data, o)
  {
    hide QuadAlign, Laid, Fill, Content;
    LaidBlocks(b, z, head, pre, data, o);
    forall k: Block
      ensures Holds(b[..size], Start(z, k), Length(z, k), Content(head, pre, data, o, k))
    {
      assert Holds(b, Start(z, k), Length(z, k), Content(head, pre, data, o, k));
      BlocksApart(z, if k == Head then Pre else Head, k);
      SlicePrefix(b, size, Start(z, k), Start(z, k) + Length(z, k));
    }
    LaidBlocks(b[..size], z, head, pre, data, o);
  }

  lemma SlicePrefix(b: seq<Byte>, size: nat, i: nat, j: nat)
    requires i <= j <= size <= |b|
    ensures b[..size][i..j] == b[i..j]
  {
  }

  // ---------------------------------------------------------------- the buffer while it is laid out

  /** The first `k` bytes are zero. */
  ghost predicate Cleared(b: seq<Byte>, k: nat)
  {
    k <= |b| && b[..k] == Zeros(k)
  }

  lemma NothingCleared(b: seq<Byte>)
    ensures Cleared(b, 0)
  {
  }

  lemma MoreCleared(b: seq<Byte>, k: nat, n: nat)
    requires Cleared(b, k) && k + n <= |b|
    ensures Cleared(Overwrite(b, k, Zeros(n)), k + n)
  {
    var c := Overwrite(b, k, Zeros(n));
    assert c[..k + n] == b[..k] + Zeros(n);
    ZerosSum(k, n);
  }

  lemma ZerosSum(k: nat, n: nat)
    ensures Zeros(k) + Zeros(n) == Zeros(k + n)
  {
  }

  lemma QuadStays(n: nat)
    requires n % 8 == 0
    ensures QuadAlign(n) == n
  {
    AlignedStays(n, 8);
  }

  lemma ClearedHolds(b: seq<Byte>, k: nat, at: nat, n: nat)
    requires Cleared(b, k) && at + n <= k
    ensures Holds(b, at, n, [])
  {
    assert b[at..at + n] == b[..k][at..at + n] == Zeros(n);
    assert [] + Zeros(n) == Zeros(n);
  }

  function NoTable(z: Sizes): Sizes { z.(tables := 0) }

  lemma ClearedLaid(b: seq<Byte>, z: Sizes)
    requires Cleared(b, z.Table())
    ensures Laid(b, NoTable(z), [], [], [], Nothing)
  {
    hide QuadAlign, Fill, Cleared, Holds, Laid;
    QuadStays(0);
    var y := NoTable(z);
    ClearedSize(b, z.Table());
    forall k: Block
      ensures Holds(b, Start(y, k), Length(y, k), Content([], [], [], Nothing, k))
    {
      BlocksApart(y, k, if k == Head then Pre else Head);
      BlocksApart(y, if k == Head then Pre else Head, k);
      ClearedHolds(b, z.Table(), Start(y, k), Length(y, k));
      assert Content([], [], [], Nothing, k) == [];
    }
    LaidBlocks(b, y, [], [], [], Nothing);
  }

  lemma ClearedSize(b: seq<Byte>, k: nat)
    requires Cleared(b, k)
    ensures k <= |b|
  {
  }

  /** The head, the saved headers and the payload are copied in. */
  lemma CopiesLaid(b: seq<Byte>, z: Sizes, head: seq<Byte>, pre: seq<Byte>, data: seq<Byte>)
    requires Cleared(b, z.Table()) && |head| == 64 && |pre| == z.pre && |data| == z.data
    ensures 64 + |pre| <= |b| && z.Data() + |data| <= |b|
    ensures Laid(Overwrite(Overwrite(Overwrite(b, 0, head), 64, pre), z.Data(), data), NoTable(z), head, pre, data,
                 Nothing)
  {
    hide QuadAlign, Fill, Cleared, Laid, Overwrite;
    var y := NoTable(z);
    ClearedLaid(b, z);
    AlignUp(z.data);
    BlockAppend(b, y, [], [], [], Nothing, head, [], [], Nothing, Head, head);
    var b1 := Overwrite(b, 0, head);
    BlockAppend(b1, y, head, [], [], Nothing, head, pre, [], Nothing, Pre, pre);
    var b2 := Overwrite(b1, 64, pre);
    BlockAppend(b2, y, head, pre, [], Nothing, head, pre, data, Nothing, Data, data);
  }

  /** The import table is allocated last. */
  lemma TableLaid(b: seq<Byte>, z: Sizes, head: seq<Byte>, pre: seq<Byte>, data: seq<Byte>)
    requires Laid(b, NoTable(z), head, pre, data, Nothing) && z.End() <= |b|
    ensures Laid(Overwrite(b, z.Table(), Zeros(QuadAlign(20 * z.tables))), z, head, pre, data, Nothing)
  {
    hide QuadAlign, Fill, Holds, Laid, Overwrite, Content;
    var y, n := NoTable(z), QuadAlign(20 * z.tables);
    var c := Overwrite(b, z.Table(), Zeros(n));
    LaidBlocks(b, y, head, pre, data, Nothing);
    forall k: Block
      ensures Holds(c, Start(z, k), Length(z, k), Content(head, pre, data, Nothing, k))
    {
      if k == Table {
        HoldsNothing(b, z.Table(), n);
        NoDescriptors(head, pre, data);
      } else {
        BlocksApart(z, k, Table);
        assert Holds(b, Start(y, k), Length(y, k), Content(head, pre, data, Nothing, k));
        BlockBefore(z, k);
        HoldsElsewhere(b, Start(z, k), Length(z, k), Content(head, pre, data, Nothing, k), z.Table(), Zeros(n));
      }
    }
    LaidBlocks(c, z, head, pre, data, Nothing);
  }

  lemma NoDescriptors(head: seq<Byte>, pre: seq<Byte>, data: seq<Byte>)
    ensures Content(head, pre, data, Nothing, Table) == []
  {
  }

  lemma BlockBefore(z: Sizes, k: Block)
    requires k != Table
    ensures Start(z, k) + Length(z, k) <= z.Table()
  {
    hide QuadAlign;
  }

  // ---------------------------------------------------------------- reading

  /** A field of the section header at `at`. */
  function Field(file: seq<Byte>, at: nat, k: nat): Dword
    requires k < 16 && at + HEADER_SIZE <= |file|
  {
    DwordAt(file, at + 4 * k)
  }

  predicate IsDetour(s: SectionHeader) { s.name == DETOUR_NAME }

  /** The headers of .detour sections are inside the file, and say where their data is. */
  ghost predicate Sane(file: seq<Byte>, sections: seq<SectionHeader>)
  {
    |sections| > 0 ==>
      && (IsDetour(sections[0]) ==>
            && sections[0].pointer + HEADER_SIZE <= |file|
            && DataOffset(file, sections[0].pointer) <= Field(file, sections[0].pointer, 3))
      && Sane(file, sections[1..])
  }

  function DataOffset(file: seq<Byte>, at: nat): Dword
    requires at + HEADER_SIZE <= |file|
  {
    if Field(file, at, 2) == 0 then Field(file, at, 0) else Field(file, at, 2)
  }

  /** The first loop over the sections: where the saved headers are. */
  function FindPre(file: seq<Byte>, sections: seq<SectionHeader>, at: nat, size: nat): (nat, nat)
    requires Sane(file, sections)
  {
    if |sections| == 0 then (at, size)
    else if IsDetour(sections[0]) && Field(file, sections[0].pointer, 11) != 0 then
      FindPre(file, sections[1..], sections[0].pointer + HEADER_SIZE, Field(file, sections[0].pointer, 11))
    else FindPre(file, sections[1..], at, size)
  }

  /** What a .detour section with its header at `at` makes of the headers and of the payload. */
  function Restored(file: seq<Byte>, at: nat, r: Reopened): Reopened
    requires at + HEADER_SIZE <= |file| && DataOffset(file, at) <= Field(file, at, 3)
  {
    var h := r.headers;
    r.(headers := h.(imports := Dir(Field(file, at, 4), Field(file, at, 5)),
                     bound := Dir(Field(file, at, 6), Field(file, at, 7)),
                     iat := Dir(Field(file, at, 8), Field(file, at, 9)), sizeOfImage := Field(file, at, 10)),
       hadSection := true, dataAt := at + DataOffset(file, at), dataSize := Field(file, at, 3) - DataOffset(file, at))
  }

  /** The second loop, from section `n` of `count` on: each .detour section makes the count one smaller. */
  function Parsed(file: seq<Byte>, sections: seq<SectionHeader>, n: nat, count: nat, r: Reopened): Reopened
    requires Sane(file, sections) && n <= count <= |sections|
    decreases count - n
  {
    if n == count then r.(headers := r.headers.(sections := sections[..count]))
    else if IsDetour(sections[n]) then
      SaneAt(file, sections, n);
      var next := Restored(file, sections[n].pointer, r);
      if n + 1 <= count - 1 then Parsed(file, sections, n + 1, count - 1, next)
      else next.(headers := next.headers.(sections := sections[..count - 1]))
    else Parsed(file, sections, n + 1, count, r)
  }

  lemma {:induction false} SaneAt(file: seq<Byte>, sections: seq<SectionHeader>, n: nat)
    requires Sane(file, sections) && n < |sections|
    ensures IsDetour(sections[n]) ==>
              && sections[n].pointer + HEADER_SIZE <= |file|
              && DataOffset(file, sections[n].pointer) <= Field(file, sections[n].pointer, 3)
    decreases n
  {
    if n > 0 {
      SaneAt(file, sections[1..], n - 1);
    }
  }

  function Opened(file: seq<Byte>, h: Headers, peOffset: nat): Reopened
    requires Sane(file, h.sections)
  {
    var pre := FindPre(file, h.sections, 0, QuadAlign(peOffset));
    Parsed(file, h.sections, 0, |h.sections|, Reopened(h, false, pre.0, pre.1, 0, 0))
  }

  /** The parts of Read that deal with the section; the PE header is at `peOffset`. */
  method Read(file: seq<Byte>, h: Headers, peOffset: nat) returns (r: Reopened)
    requires Sane(file, h.sections)
    ensures r == Opened(file, h, peOffset)
  {
    hide Field, QuadAlign, Restored;
    var preAt: nat, preSize: nat := 0, QuadAlign(peOffset);
    var rest := h.sections;
    while rest != []
      invariant Sane(file, rest)
      invariant FindPre(file, rest, preAt, preSize) == FindPre(file, h.sections, 0, QuadAlign(peOffset))
      decreases |rest|
    {
      var s := rest[0];
      if IsDetour(s) && Field(file, s.pointer, 11) != 0 {
        preAt, preSize := s.pointer + HEADER_SIZE, Field(file, s.pointer, 11);
      }
      rest := rest[1..];
    }
    r := Reopened(h, false, preAt, preSize, 0, 0);
    var n, count := 0, |h.sections|;
    while n < count
      invariant n <= count <= |h.sections| && Parsed(file, h.sections, n, count, r) == Opened(file, h, peOffset)
      decreases count - n
    {
      if IsDetour(h.sections[n]) {
        SaneAt(file, h.sections, n);
        r := Restored(file, h.sections[n].pointer, r);
        count := count - 1;
        if n + 1 > count {
          break;
        }
      }
      n := n + 1;
    }
    r := r.(headers := r.headers.(sections := h.sections[..count]));
  }

  // ---------------------------------------------------------------- what was written is read back

  predicate NoDetour(sections: seq<SectionHeader>)
  {
    |sections| > 0 ==> !IsDetour(sections[0]) && NoDetour(sections[1..])
  }

  lemma {:induction false} NoDetourAt(sections: seq<SectionHeader>, n: nat)
    requires NoDetour(sections) && n < |sections|
    ensures !IsDetour(sections[n])
    decreases n
  {
    if n > 0 {
      NoDetourAt(sections[1..], n - 1);
    }
  }

  lemma {:induction false} PreOfLast(file: seq<Byte>, sections: seq<SectionHeader>, s: SectionHeader, at: nat,
                                     size: nat)
    requires NoDetour(sections) && Sane(file, sections + [s]) && IsDetour(s)
    ensures s.pointer + HEADER_SIZE <= |file|
    ensures FindPre(file, sections + [s], at, size) ==
            if Field(file, s.pointer, 11) != 0 then (s.pointer + HEADER_SIZE, Field(file, s.pointer, 11))
              else (at, size)
    decreases |sections|
  {
    hide Field;
    if |sections| > 0 {
      assert (sections + [s])[1..] == sections[1..] + [s];
      PreOfLast(file, sections[1..], s, at, size);
    } else {
      assert (sections + [s])[1..] == [] && (sections + [s])[0] == s;
    }
  }

  lemma {:induction false} ParsedLast(file: seq<Byte>, sections: seq<SectionHeader>, s: SectionHeader, n: nat,
                                      r: Reopened)
    requires NoDetour(sections) && Sane(file, sections + [s]) && IsDetour(s) && n <= |sections|
    ensures s.pointer + HEADER_SIZE <= |file| && DataOffset(file, s.pointer) <= Field(file, s.pointer, 3)
    ensures var last := Restored(file, s.pointer, r);
            Parsed(file, sections + [s], n, |sections| + 1, r) == last.(headers := last.headers.(sections := sections))
    decreases |sections| - n
  {
    hide Field;
    var all := sections + [s];
    SaneAt(file, all, |sections|);
    if n < |sections| {
      NoDetourAt(sections, n);
      ParsedLast(file, sections, s, n + 1, r);
    } else {
      assert all[..|sections|] == sections;
    }
  }

  /** Without a .detour section the headers stay as they are. */
  lemma {:induction false} ParsedNone(file: seq<Byte>, sections: seq<SectionHeader>, n: nat, r: Reopened)
    requires NoDetour(sections) && Sane(file, sections) && n <= |sections|
    ensures Parsed(file, sections, n, |sections|, r) == r.(headers := r.headers.(sections := sections))
    decreases |sections| - n
  {
    if n < |sections| {
      NoDetourAt(sections, n);
      ParsedNone(file, sections, n + 1, r);
    } else {
      assert sections[..n] == sections;
    }
  }

  lemma FieldsOf(file: seq<Byte>, at: nat, section: seq<Byte>, fields: seq<Dword>, k: nat)
    requires |fields| == 16 && at + |section| <= |file| && file[at..at + |section|] == section
    requires Holds(section, 0, 64, Dwords(fields)) && k < 16
    ensures at + HEADER_SIZE <= |file| && Field(file, at, k) == fields[k]
  {
    hide Dwords, Holds, DwordAt;
    HoldsBytes(section, 0, 64, Dwords(fields));
    SliceOfSlice(file, at, at + |section|, 0, 64);
    DwordIn(file, at, fields, k);
  }

  lemma BlockIn(file: seq<Byte>, at: nat, section: seq<Byte>, to: nat, n: nat, bytes: seq<Byte>)
    requires at + |section| <= |file| && file[at..at + |section|] == section && Holds(section, to, n, bytes)
    ensures at + to + |bytes| <= |file| && file[at + to..at + to + |bytes|] == bytes
  {
    hide Holds;
    HoldsBytes(section, to, n, bytes);
    SliceOfSlice(file, at, at + |section|, to, to + |bytes|);
  }

  /** An image that was written with a .detour section, as it lies in a file. */
  ghost predicate InFile(file: seq<Byte>, section: seq<Byte>, now: Headers, h: Headers, files: seq<ImportFile>,
                         pre: seq<Byte>, payload: seq<Byte>, clrFlags: Dword, fileAddr: nat, virtAddr: nat)
  {
    && WrittenFor(section, now, h, files, pre, payload, clrFlags, fileAddr, virtAddr)
    && fileAddr + |section| <= |file| && file[fileAddr..fileAddr + |section|] == section && NoDetour(h.sections)
  }

  lemma HeaderBack(file: seq<Byte>, section: seq<Byte>, now: Headers, h: Headers, files: seq<ImportFile>,
                   pre: seq<Byte>, payload: seq<Byte>, clrFlags: Dword, fileAddr: nat, virtAddr: nat)
    requires InFile(file, section, now, h, files, pre, payload, clrFlags, fileAddr, virtAddr)
    ensures var z := Sizes(|pre|, ImportList.Thunks(files), Chars(files), |payload|, |files| + 1);
            && z.Data() + z.data < 0x1_0000_0000 && fileAddr + HEADER_SIZE <= |file|
            && forall k | 0 <= k < 16 ::
                 Field(file, fileAddr, k) == HeaderFields(h, z.Data(), z.Data() + z.data, z.pre, clrFlags)[k]
  {
    hide QuadAlign, Dwords, HeaderFields, Field, EmitFiles, ImportList.Thunks, Chars, Holds;
    var z := Sizes(|pre|, ImportList.Thunks(files), Chars(files), |payload|, |files| + 1);
    var fields := HeaderFields(h, z.Data(), z.Data() + z.data, z.pre, clrFlags);
    FieldsOf(file, fileAddr, section, fields, 0);
    forall k | 0 <= k < 16
      ensures Field(file, fileAddr, k) == fields[k]
    {
      FieldsOf(file, fileAddr, section, fields, k);
    }
  }

  lemma WrittenFields(file: seq<Byte>, section: seq<Byte>, now: Headers, h: Headers, files: seq<ImportFile>,
                      pre: seq<Byte>, payload: seq<Byte>, clrFlags: Dword, fileAddr: nat, virtAddr: nat)
    requires InFile(file, section, now, h, files, pre, payload, clrFlags, fileAddr, virtAddr)
    ensures fileAddr + HEADER_SIZE <= |file|
    ensures var z := Sizes(|pre|, ImportList.Thunks(files), Chars(files), |payload|, |files| + 1);
            && Field(file, fileAddr, 2) as int == z.Data() && z.Data() > 0
            && Field(file, fileAddr, 3) as int == z.Data() + |payload|
    ensures Dir(Field(file, fileAddr, 4), Field(file, fileAddr, 5)) == h.imports
    ensures Dir(Field(file, fileAddr, 6), Field(file, fileAddr, 7)) == h.bound
    ensures Dir(Field(file, fileAddr, 8), Field(file, fileAddr, 9)) == h.iat
    ensures Field(file, fileAddr, 10) == h.sizeOfImage && Field(file, fileAddr, 11) as int == |pre|
  {
    hide QuadAlign, Field, ImportList.Thunks, Chars, InFile, DwordAt, EmitFiles, Dwords;
    HeaderBack(file, section, now, h, files, pre, payload, clrFlags, fileAddr, virtAddr);
    var z := Sizes(|pre|, ImportList.Thunks(files), Chars(files), |payload|, |files| + 1);
    var fields := HeaderFields(h, z.Data(), z.Data() + z.data, z.pre, clrFlags);
    assert Field(file, fileAddr, 2) == fields[2] && Field(file, fileAddr, 3) == fields[3];
    assert Field(file, fileAddr, 4) == fields[4] && Field(file, fileAddr, 5) == fields[5];
    assert Field(file, fileAddr, 6) == fields[6] && Field(file, fileAddr, 7) == fields[7];
    assert Field(file, fileAddr, 8) == fields[8] && Field(file, fileAddr, 9) == fields[9];
    assert Field(file, fileAddr, 10) == fields[10] && Field(file, fileAddr, 11) == fields[11];
  }

  /** What the written header restores. */
  lemma RestoredWritten(file: seq<Byte>, section: seq<Byte>, now: Headers, h: Headers, files: seq<ImportFile>,
                        pre: seq<Byte>, payload: seq<Byte>, clrFlags: Dword, fileAddr: nat, virtAddr: nat, r: Reopened)
    requires InFile(file, section, now, h, files, pre, payload, clrFlags, fileAddr, virtAddr)
    ensures fileAddr + HEADER_SIZE <= |file| && DataOffset(file, fileAddr) <= Field(file, fileAddr, 3)
    ensures Field(file, fileAddr, 11) == |pre|
    ensures var z := Sizes(|pre|, ImportList.Thunks(files), Chars(files), |payload|, |files| + 1);
            Restored(file, fileAddr, r) ==
            r.(headers := h.(sections := r.headers.sections), hadSection := true, dataAt := fileAddr + z.Data(),
               dataSize := |payload|)
  {
    hide QuadAlign, Field, ImportList.Thunks, Chars, InFile, DwordAt, EmitFiles, Dwords, HeaderFields;
    WrittenFields(file, section, now, h, files, pre, payload, clrFlags, fileAddr, virtAddr);
  }

  /** The header starts with its size and "Dtr", keeps the flags of the CLR header, and ends with reserved zeros. */
  lemma HeaderMarked(file: seq<Byte>, section: seq<Byte>, now: Headers, h: Headers, files: seq<ImportFile>,
                     pre: seq<Byte>, payload: seq<Byte>, clrFlags: Dword, fileAddr: nat, virtAddr: nat)
    requires InFile(file, section, now, h, files, pre, payload, clrFlags, fileAddr, virtAddr)
    ensures fileAddr + 64 <= |file| && DwordAt(file, fileAddr) == 64 && DwordAt(file, fileAddr + 4) == 0x0072_7444
    ensures DwordAt(file, fileAddr + 48) == clrFlags
    ensures DwordAt(file, fileAddr + 52) == DwordAt(file, fileAddr + 56) == DwordAt(file, fileAddr + 60) == 0
  {
    hide QuadAlign, DwordAt, ImportList.Thunks, Chars, InFile;
    HeaderBack(file, section, now, h, files, pre, payload, clrFlags, fileAddr, virtAddr);
    var z := Sizes(|pre|, ImportList.Thunks(files), Chars(files), |payload|, |files| + 1);
    var fields := HeaderFields(h, z.Data(), z.Data() + z.data, z.pre, clrFlags);
    assert Field(file, fileAddr, 0) == fields[0] && Field(file, fileAddr, 1) == fields[1]
      && Field(file, fileAddr, 12) == fields[12];
    assert Field(file, fileAddr, 13) == fields[13] && Field(file, fileAddr, 14) == fields[14]
      && Field(file, fileAddr, 15) == fields[15];
  }

  lemma {:induction false} SaneLast(file: seq<Byte>, sections: seq<SectionHeader>, s: SectionHeader)
    requires NoDetour(sections) && s.pointer + HEADER_SIZE <= |file|
    requires DataOffset(file, s.pointer) <= Field(file, s.pointer, 3)
    ensures Sane(file, sections + [s])
    decreases |sections|
  {
    hide Field;
    if |sections| > 0 {
      assert (sections + [s])[1..] == sections[1..] + [s];
      SaneLast(file, sections[1..], s);
    } else {
      assert (sections + [s])[1..] == [] && (sections + [s])[0] == s;
    }
  }

  lemma ReadHeaders(file: seq<Byte>, section: seq<Byte>, now: Headers, h: Headers, files: seq<ImportFile>,
                    pre: seq<Byte>, payload: seq<Byte>, clrFlags: Dword, fileAddr: nat, virtAddr: nat, peOffset: nat)
    requires InFile(file, section, now, h, files, pre, payload, clrFlags, fileAddr, virtAddr) && |pre| > 0
    ensures Sane(file, now.sections)
    ensures var z := Sizes(|pre|, ImportList.Thunks(files), Chars(files), |payload|, |files| + 1);
            Opened(file, now, peOffset) ==
              Reopened(h, true, fileAddr + HEADER_SIZE, |pre|, fileAddr + z.Data(), |payload|)
  {
    hide QuadAlign, Dwords, Field, EmitFiles, ImportList.Thunks, Chars, Holds, Laid, Restored, DataOffset, FindPre,
      Parsed, Sane, NoDetour, HeaderFields;
    var s := now.sections[|h.sections|];
    assert now.sections == h.sections + [s];
    var r := Reopened(now, false, fileAddr + HEADER_SIZE, |pre|, 0, 0);
    RestoredWritten(file, section, now, h, files, pre, payload, clrFlags, fileAddr, virtAddr, r);
    SaneLast(file, h.sections, s);
    PreOfLast(file, h.sections, s, 0, QuadAlign(peOffset));
    ParsedLast(file, h.sections, s, 0, r);
  }

  lemma ReadBytes(file: seq<Byte>, section: seq<Byte>, now: Headers, h: Headers, files: seq<ImportFile>, pre: seq<Byte>,
                    payload: seq<Byte>, clrFlags: Dword, fileAddr: nat, virtAddr: nat)
    requires InFile(file, section, now, h, files, pre, payload, clrFlags, fileAddr, virtAddr)
    ensures var z := Sizes(|pre|, ImportList.Thunks(files), Chars(files), |payload|, |files| + 1);
            && fileAddr + HEADER_SIZE + |pre| <= |file|
            && file[fileAddr + HEADER_SIZE..fileAddr + HEADER_SIZE + |pre|] == pre
            && fileAddr + z.Data() + |payload| <= |file|
            && file[fileAddr + z.Data()..fileAddr + z.Data() + |payload|] == payload
  {
    hide *;
    var z := Sizes(|pre|, ImportList.Thunks(files), Chars(files), |payload|, |files| + 1);
    InFileParts(file, section, now, h, files, pre, payload, clrFlags, fileAddr, virtAddr);
    WrittenBlocks(section, now, h, files, pre, payload, clrFlags, fileAddr, virtAddr);
    BlockIn(file, fileAddr, section, HEADER_SIZE, |pre|, pre);
    BlockIn(file, fileAddr, section, z.Data(), QuadAlign(|payload|), payload);
  }

  lemma InFileParts(file: seq<Byte>, section: seq<Byte>, now: Headers, h: Headers, files: seq<ImportFile>,
                    pre: seq<Byte>, payload: seq<Byte>, clrFlags: Dword, fileAddr: nat, virtAddr: nat)
    requires InFile(file, section, now, h, files, pre, payload, clrFlags, fileAddr, virtAddr)
    ensures WrittenFor(section, now, h, files, pre, payload, clrFlags, fileAddr, virtAddr)
    ensures fileAddr + |section| <= |file| && file[fileAddr..fileAddr + |section|] == section && NoDetour(h.sections)
  {
    hide WrittenFor;
  }

  lemma WrittenBlocks(section: seq<Byte>, now: Headers, h: Headers, files: seq<ImportFile>, pre: seq<Byte>,
                      payload: seq<Byte>, clrFlags: Dword, fileAddr: nat, virtAddr: nat)
    requires WrittenFor(section, now, h, files, pre, payload, clrFlags, fileAddr, virtAddr)
    ensures var z := Sizes(|pre|, ImportList.Thunks(files), Chars(files), |payload|, |files| + 1);
            Holds(section, HEADER_SIZE, |pre|, pre) && Holds(section, z.Data(), QuadAlign(|payload|), payload)
  {
    hide QuadAlign, Dwords, EmitFiles, ImportList.Thunks, Chars, Holds, HeaderFields;
  }

  /** Reading what was written gives back the section list, the import, bound-import and IAT entries and the size of
      the image, the saved headers byte for byte, and the payload byte for byte: so edits never nest. */
  lemma ReadWritten(file: seq<Byte>, section: seq<Byte>, now: Headers, h: Headers, files: seq<ImportFile>,
                    pre: seq<Byte>, payload: seq<Byte>, clrFlags: Dword, fileAddr: nat, virtAddr: nat, peOffset: nat)
    requires InFile(file, section, now, h, files, pre, payload, clrFlags, fileAddr, virtAddr) && |pre| > 0
    ensures Sane(file, now.sections)
    ensures var r := Opened(file, now, peOffset);
            && r.headers == h && r.hadSection && NoDetour(r.headers.sections)
            && r.preSize == |pre| && r.preAt + r.preSize <= |file| && file[r.preAt..r.preAt + r.preSize] == pre
            && r.dataSize == |payload| && r.dataAt + r.dataSize <= |file|
            && file[r.dataAt..r.dataAt + r.dataSize] == payload
  {
    hide QuadAlign, ImportList.Thunks, Chars, WrittenFor, NoDetour, Opened, Sane;
    ReadHeaders(file, section, now, h, files, pre, payload, clrFlags, fileAddr, virtAddr, peOffset);
    ReadBytes(file, section, now, h, files, pre, payload, clrFlags, fileAddr, virtAddr);
  }

  // ---------------------------------------------------------------- and so are the imports

  function TableOffsets(z: Sizes): Offsets { Offsets(z.Names(), z.Lookups(), z.Bounds(), z.Table()) }

  lemma LaidEmitted(b: seq<Byte>, z: Sizes, head: seq<Byte>, pre: seq<Byte>, data: seq<Byte>, o: Out)
    requires Laid(b, z, head, pre, data, o) && |o.table| + 5 <= 5 * z.tables
    ensures Emitted(b, TableOffsets(z), o)
  {
    hide Holds, QuadAlign, Dwords, DwordAt;
    HoldsBytes(b, z.Names(), QuadAlign(z.chars), o.names);
    HoldsBytes(b, z.Lookups(), QuadAlign(4 * z.thunks), Dwords(o.lookups));
    HoldsBytes(b, z.Bounds(), QuadAlign(4 * z.thunks), Dwords(o.bounds));
    HoldsBytes(b, z.Table(), QuadAlign(20 * z.tables), Dwords(o.table));
    AlignUp(20 * z.tables);
    HoldsTail(b, z.Table(), QuadAlign(20 * z.tables), Dwords(o.table), 20);
  }

  lemma HoldsTail(b: seq<Byte>, at: nat, n: nat, bytes: seq<Byte>, k: nat)
    requires Holds(b, at, n, bytes) && |bytes| + k <= n && k >= 4
    ensures at + |bytes| + k <= |b| && DwordAt(b, at + |bytes|) == 0
  {
    var j := |bytes|;
    var x := b[at..at + n];
    assert forall i | j <= i < n :: x[i] == 0;
    assert b[at + j] == x[j] && b[at + j + 1] == x[j + 1] && b[at + j + 2] == x[j + 2] && b[at + j + 3] == x[j + 3];
  }

  /** A reader of the section finds the import list that was written, exactly when it is not one file without
      symbols. */
  lemma ImportsWritten(section: seq<Byte>, now: Headers, h: Headers, files: seq<ImportFile>, pre: seq<Byte>,
                       payload: seq<Byte>, clrFlags: Dword, fileAddr: nat, virtAddr: nat)
    requires WrittenFor(section, now, h, files, pre, payload, clrFlags, fileAddr, virtAddr)
    requires AllReadable(files, virtAddr, |section|)
    ensures now.imports.address >= virtAddr
    ensures var z := Sizes(|pre|, ImportList.Thunks(files), Chars(files), |payload|, |files| + 1);
            FilesAt(section, virtAddr, now.imports.address - virtAddr) ==
              Some(SeenList(files, z.Places(virtAddr), Nothing))
            <==> ImportList.Thunks(files) != 1
  {
    hide QuadAlign, Dwords, EmitFiles, ImportList.Thunks, Chars, Laid, FilesAt, SeenList, AllReadable, Emitted;
    var z := Sizes(|pre|, ImportList.Thunks(files), Chars(files), |payload|, |files| + 1);
    var p := z.Places(virtAddr);
    SizesPredicted(files, p, Nothing);
    LaidEmitted(section, z, Dwords(HeaderFields(h, z.Data(), z.Data() + z.data, z.pre, clrFlags)), pre, payload,
                EmitFiles(files, p, Nothing));
    ImportsBack(section, virtAddr, TableOffsets(z), p, files);
  }

  /** A .detour section that is not the last one stays in the list, and the last section is lost instead. */
  lemma DetourMustBeLast(file: seq<Byte>, before: seq<SectionHeader>, s: SectionHeader, after: seq<SectionHeader>,
                         h: Headers, peOffset: nat)
    requires NoDetour(before) && NoDetour(after) && IsDetour(s) && h.sections == before + [s] + after
    requires Sane(file, h.sections)
    ensures NoDetour(Opened(file, h, peOffset).headers.sections) <==> after == []
  {
    hide Field, QuadAlign, Restored, FindPre;
    var all := h.sections;
    var pre := FindPre(file, all, 0, QuadAlign(peOffset));
    ParsedThrough(file, before, s, after, 0, Reopened(h, false, pre.0, pre.1, 0, 0));
    var kept := all[..|all| - 1];
    if after == [] {
      assert kept == before;
    } else {
      assert kept[|before|] == s;
      if NoDetour(kept) {
        NoDetourAt(kept, |before|);
      }
    }
  }

  lemma FieldZero(file: seq<Byte>, k: nat)
    requires k < 16 && file == Fill(0, 64)
    ensures Field(file, 0, k) == 0
  {
    hide Fill;
  }

  /** A file with two sections, .detour and another one behind it: the other one is dropped. */
  lemma LastSectionDropped(file: seq<Byte>, imports: Dir, peOffset: nat)
    requires file == Fill(0, 64)
    ensures var detour := SectionHeader(DETOUR_NAME, 0x1000, 0x1000, 0, 0x200);
            var data := SectionHeader([0x64, 0x61, 0x74, 0x61], 0x2000, 0x1000, 0x200, 0x200);
            var h := Headers([detour, data], imports, imports, imports, 0x3000);
            && Sane(file, h.sections) && !NoDetour(Opened(file, h, peOffset).headers.sections)
            && |Opened(file, h, peOffset).headers.sections| == 1
  {
    hide QuadAlign, Fill, FindPre;
    var detour := SectionHeader(DETOUR_NAME, 0x1000, 0x1000, 0, 0x200);
    var data := SectionHeader([0x64, 0x61, 0x74, 0x61], 0x2000, 0x1000, 0x200, 0x200);
    var h := Headers([detour, data], imports, imports, imports, 0x3000);
    assert |DETOUR_NAME| != |data.name|;
    FieldZero(file, 0);
    FieldZero(file, 2);
    FieldZero(file, 3);
    assert h.sections[1..] == [data] && [data][1..] == [] && h.sections == [] + [detour] + [data];
    assert Sane(file, [data]) && NoDetour([data]);
    assert DataOffset(file, 0) == 0;
    assert Sane(file, h.sections);
    DetourMustBeLast(file, [], detour, [data], h, peOffset);
    var pre := FindPre(file, h.sections, 0, QuadAlign(peOffset));
    ParsedThrough(file, [], detour, [data], 0, Reopened(h, false, pre.0, pre.1, 0, 0));
  }

  lemma {:induction false} ParsedThrough(file: seq<Byte>, before: seq<SectionHeader>, s: SectionHeader,
                                         after: seq<SectionHeader>, n: nat, r: Reopened)
    requires NoDetour(before) && NoDetour(after) && IsDetour(s) && Sane(file, before + [s] + after) && n <= |before|
    ensures var all := before + [s] + after;
            Parsed(file, all, n, |all|, r).headers.sections == all[..|all| - 1]
    decreases |before| - n
  {
    hide Field, Restored;
    var all := before + [s] + after;
    if n < |before| {
      NoDetourAt(before, n);
      assert all[n] == before[n];
      ParsedThrough(file, before, s, after, n + 1, r);
    } else {
      SaneAt(file, all, n);
      assert all[n] == s;
      if after != [] {
        ParsedRest(file, all, |before| + 1, |all| - 1, Restored(file, s.pointer, r), before + [s], after);
      }
    }
  }

  lemma {:induction false} ParsedRest(file: seq<Byte>, all: seq<SectionHeader>, n: nat, count: nat, r: Reopened,
                                      x: seq<SectionHeader>, y: seq<SectionHeader>)
    requires all == x + y && NoDetour(y) && |x| <= n <= count <= |all| && Sane(file, all)
    ensures Parsed(file, all, n, count, r).headers.sections == all[..count]
    decreases count - n
  {
    hide Field, Restored;
    if n < count {
      NoDetourAt(y, n - |x|);
      assert all[n] == y[n - |x|];
      ParsedRest(file, all, n + 1, count, r, x, y);
    }
  }
}
