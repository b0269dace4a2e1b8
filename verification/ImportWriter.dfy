/** The loop of CImage::Write that steps through the imports (loader_dll/detours/image.cpp, 1787-1844). */
module ImportWriter {
  import opened Bytes
  import opened Options
  import opened Alignment
  import opened ImportList
  import opened ImportTable
  import opened OutputBuffer

  /** The import tables being written; `out` is what they hold so far. */
  class Writer {
    const output: Output
    const lookups: CImageThunks
    const bounds: CImageThunks
    const names: CImageChars
    var next: nat             // piidDst
    ghost const z: Sizes
    ghost const head: seq<Byte>
    ghost const pre: seq<Byte>
    ghost const data: seq<Byte>
    ghost var out: Out

    constructor (output: Output, lookups: CImageThunks, bounds: CImageThunks, names: CImageChars, next: nat,
                 ghost z: Sizes, ghost head: seq<Byte>, ghost pre: seq<Byte>, ghost data: seq<Byte>)
      requires Laid(output.buffer[..], z, head, pre, data, Nothing) && lookups != bounds && next == z.Table()
      requires lookups.output == output && lookups.max == z.thunks && lookups.used == 0
      requires lookups.at == z.Lookups() && lookups.virt == output.virtAddr + z.Lookups()
      requires bounds.output == output && bounds.max == z.thunks && bounds.used == 0
      requires bounds.at == z.Bounds() && bounds.virt == output.virtAddr + z.Bounds()
      requires names.output == output && names.max == z.chars && names.used == 0
      requires names.at == z.Names() && names.virt == output.virtAddr + z.Names()
      ensures Valid() && out == Nothing && this.output == output && this.lookups == lookups && this.bounds == bounds
      ensures this.names == names
      ensures this.z == z && this.head == head && this.pre == pre && this.data == data
    {
      this.output, this.lookups, this.bounds, this.names, this.next := output, lookups, bounds, names, next;
      this.z, this.head, this.pre, this.data, this.out := z, head, pre, data, Nothing;
    }

    ghost predicate Valid()
      reads this, output, output.buffer, lookups, bounds, names
    {
      && Laid(output.buffer[..], z, head, pre, data, out) && lookups != bounds && next == z.Table() + 4 * |out.table|
      && lookups.output == output && lookups.max == z.thunks && lookups.used == |out.lookups| <= z.thunks
      && lookups.at == z.Lookups() + 4 * |out.lookups| && lookups.virt == output.virtAddr + lookups.at
      && bounds.output == output && bounds.max == z.thunks && bounds.used == |out.bounds| <= z.thunks
      && bounds.at == z.Bounds() + 4 * |out.bounds| && bounds.virt == output.virtAddr + bounds.at
      && names.output == output && names.max == z.chars && names.used == |out.names| <= z.chars
      && names.at == z.Names() + |out.names| && names.virt == output.virtAddr + names.at
    }

    method AddName(hint: Option<Word>, s: CString) returns (va: Dword)
      requires Valid() && |out.names| + Even((if hint.Some? then 2 else 0) + |s| + 1) <= z.chars
      modifies this`out, output.buffer, names
      ensures Valid() && va == Wrap(output.virtAddr + z.Names() + |old(out.names)|)
      ensures out == old(out).(names := out.names)
      ensures out.names == old(out.names) + (match hint case Some(h) => HintName(h, s) case None => NameBytes(s))
    {
      hide Laid, QuadAlign, Even, HintName, NameBytes, Text, Overwrite, Fill;
      NameAppend(output.buffer[..], z, head, pre, data, out, hint, s);
      var v := names.Allocate(hint, s);
      va := Wrap(v);
      out := out.(names := out.names + (match hint case Some(h) => HintName(h, s) case None => NameBytes(s)));
    }

    method AddLookup(v: Dword) returns (va: Dword)
      requires Valid() && |out.lookups| < z.thunks
      modifies this`out, output.buffer, lookups
      ensures Valid() && va == Wrap(output.virtAddr + z.Lookups() + 4 * |old(out.lookups)|)
      ensures out == old(out).(lookups := old(out.lookups) + [v])
    {
      hide Laid, QuadAlign, Overwrite, DwordBytes;
      LookupAppend(output.buffer[..], z, head, pre, data, out, v);
      var u := lookups.Allocate(v);
      va := Wrap(u);
      out := out.(lookups := out.lookups + [v]);
    }

    method AddBound(v: Dword) returns (va: Dword)
      requires Valid() && |out.bounds| < z.thunks
      modifies this`out, output.buffer, bounds
      ensures Valid() && va == Wrap(output.virtAddr + z.Bounds() + 4 * |old(out.bounds)|)
      ensures out == old(out).(bounds := old(out.bounds) + [v])
    {
      hide Laid, QuadAlign, Overwrite, DwordBytes;
      BoundAppend(output.buffer[..], z, head, pre, data, out, v);
      var u := bounds.Allocate(v);
      va := Wrap(u);
      out := out.(bounds := out.bounds + [v]);
    }

    /** The five fields of *piidDst. */
    method AddDescriptor(d: seq<Dword>)
      requires Valid() && |d| == 5 && |out.table| + 5 <= 5 * z.tables
      modifies this`out, this`next, output.buffer
      ensures Valid() && out == old(out).(table := old(out.table) + d)
    {
      hide Laid, QuadAlign, Overwrite, DwordBytes, Dwords;
      TableAppend(output.buffer[..], z, head, pre, data, out, d);
      output.Write(next, Dwords(d));
      next := next + 20;
      out := out.(table := out.table + d);
    }

    /** One file. */
    method AddFile(f: ImportFile)
      requires Valid() && |out.names| + FileChars(f) <= z.chars && |out.lookups| + FileThunks(f) <= z.thunks
      requires |out.bounds| + FileThunks(f) <= z.thunks && |out.table| + 5 <= 5 * z.tables
      modifies this`out, this`next, output.buffer, lookups, bounds, names
      ensures Valid() && out == EmitFile(f, z.Places(output.virtAddr), old(out))
    {
      hide Laid, QuadAlign, Even, HintName, NameBytes;
      ghost var o := out;
      var name := AddName(None, f.name);
      if f.byway {
        AddByway(f, name, o);
      } else {
        AddOwn(f, name, o);
      }
    }

    /** The tables of a byway, once its name is there. */
    method AddByway(f: ImportFile, name: Dword, ghost o: Out)
      requires Valid() && f.byway && out == o.(names := o.names + NameBytes(f.name))
      requires name == Wrap(output.virtAddr + z.Names() + |o.names|)
      requires |out.lookups| + 2 <= z.thunks && |out.bounds| + 2 <= z.thunks && |out.table| + 5 <= 5 * z.tables
      modifies this`out, this`next, output.buffer, lookups, bounds
      ensures Valid() && out == EmitFile(f, z.Places(output.virtAddr), o)
    {
      hide Laid, QuadAlign, Even, HintName, NameBytes;
      var lookup := AddLookup(ORDINAL_FLAG + 1);
      var first := AddBound(ORDINAL_FLAG + 1);
      var _ := AddLookup(0);
      var _ := AddBound(0);
      AddDescriptor([lookup, 0, f.forwarder, name, first]);
      assert out.lookups == o.lookups + [ORDINAL_FLAG + 1, 0] && out.bounds == o.bounds + [ORDINAL_FLAG + 1, 0];
    }

    /** The tables of a file of the image's own, once its name is there. */
    method AddOwn(f: ImportFile, name: Dword, ghost o: Out)
      requires Valid() && !f.byway && out == o.(names := o.names + NameBytes(f.name))
      requires name == Wrap(output.virtAddr + z.Names() + |o.names|)
      requires |out.names| + SymbolChars(f.symbols) <= z.chars && |out.lookups| + |f.symbols| + 1 <= z.thunks
      requires |out.table| + 5 <= 5 * z.tables
      modifies this`out, this`next, output.buffer, lookups, names
      ensures Valid() && out == EmitFile(f, z.Places(output.virtAddr), o)
    {
      hide Laid, QuadAlign, Even, HintName, NameBytes;
      ghost var p, named := z.Places(output.virtAddr), out;
      var lookup := Wrap(lookups.Current());
      SymbolSizes(f.symbols, p, named);
      AddSymbols(f.symbols);
      var _ := AddLookup(0);
      AddDescriptor([lookup, 0, f.forwarder, name, f.first]);
      SymbolsTable(f.symbols, p, named, o.table + Descriptor(f, p, o));
    }

    method AddSymbols(symbols: seq<Symbol>)
      requires Valid() && |out.names| + SymbolChars(symbols) <= z.chars && |out.lookups| + |symbols| <= z.thunks
      modifies this`out, output.buffer, lookups, names
      ensures Valid() && out == EmitSymbols(symbols, z.Places(output.virtAddr), old(out))
    {
      hide Laid, QuadAlign, Even, HintName, NameBytes;
      ghost var p := z.Places(output.virtAddr);
      var rest := symbols;
      while rest != []
        invariant Valid() && EmitSymbols(rest, p, out) == EmitSymbols(symbols, p, old(out))
        invariant |out.names| + SymbolChars(rest) <= z.chars && |out.lookups| + |rest| <= z.thunks
        decreases |rest|
      {
        var s := rest[0];
        match s.name {
          case Some(name) =>
            var at := AddName(Some(s.hint), name);
            var _ := AddLookup(at);
          case None =>
            var _ := AddLookup(Wrap(ORDINAL_FLAG + s.ordinal));
        }
        rest := rest[1..];
      }
    }

    /** All files: what CheckImportsNeeded counted is enough for every Allocate on the way, and is used up. */
    method AddFiles(files: seq<ImportFile>)
      requires Valid() && out == Nothing
      requires z.chars == Chars(files) && z.thunks == Thunks(files) && z.tables == |files| + 1
      modifies this`out, this`next, output.buffer, lookups, bounds, names
      ensures Valid() && out == EmitFiles(files, z.Places(output.virtAddr), Nothing)
      ensures names.used == z.chars && lookups.used == z.thunks && next == z.Table() + 20 * |files|
    {
      hide Laid, QuadAlign, EmitFile, FileChars, FileThunks;
      ghost var p := z.Places(output.virtAddr);
      SizesPredicted(files, p, Nothing);
      var rest := files;
      while rest != []
        invariant Valid() && EmitFiles(rest, p, out) == EmitFiles(files, p, Nothing)
        invariant |out.names| + Chars(rest) <= z.chars && |out.lookups| + Thunks(rest) <= z.thunks
        invariant |out.bounds| + Thunks(rest) <= z.thunks && |out.table| + 5 * |rest| + 5 <= 5 * z.tables
        decreases |rest|
      {
        FileSizes(rest[0], p, out);
        AddFile(rest[0]);
        rest := rest[1..];
      }
    }
  }

  // ---------------------------------------------------------------- each write

  lemma NameAppend(b: seq<Byte>, z: Sizes, head: seq<Byte>, pre: seq<Byte>, data: seq<Byte>, o: Out, hint: Option<Word>,
                   s: CString)
    requires Laid(b, z, head, pre, data, o) && |o.names| + Even((if hint.Some? then 2 else 0) + |s| + 1) <= z.chars
    ensures var x := match hint case Some(h) => HintName(h, s) case None => NameBytes(s);
            && z.Names() + |o.names| + |x| <= |b|
            && |Text(hint, s)| + 1 <= |x| == Even((if hint.Some? then 2 else 0) + |s| + 1)
            && Laid(Overwrite(b, z.Names() + |o.names|, Text(hint, s) + [0]), z, head, pre, data,
                    o.(names := o.names + x))
  {
    hide Laid, QuadAlign, HintName, NameBytes, Text, Overwrite, Fill;
    var x := match hint case Some(h) => HintName(h, s) case None => NameBytes(s);
    var t := Text(hint, s) + [0];
    TextPadded(hint, s);
    AlignUp(z.chars);
    var mid := o.(names := o.names + t);
    BlockAppend(b, z, head, pre, data, o, head, pre, data, mid, Names, t);
    LaidSize(b, z, head, pre, data, o, Names);
    NamesZeros(Overwrite(b, z.Names() + |o.names|, t), z, head, pre, data, mid, |x| - |t|);
    assert o.names + x == o.names + t + Zeros(|x| - |t|);
  }

  lemma AlignUp(n: nat)
    ensures QuadAlign(n) >= n
  {
  }

  lemma LaidSize(b: seq<Byte>, z: Sizes, head: seq<Byte>, pre: seq<Byte>, data: seq<Byte>, o: Out, k: Block)
    requires Laid(b, z, head, pre, data, o)
    ensures Start(z, k) + Length(z, k) <= |b| && |Content(head, pre, data, o, k)| <= Length(z, k)
  {
    hide QuadAlign, Fill;
  }

  lemma NamesZeros(b: seq<Byte>, z: Sizes, head: seq<Byte>, pre: seq<Byte>, data: seq<Byte>, o: Out, k: nat)
    requires Laid(b, z, head, pre, data, o) && |o.names| + k <= QuadAlign(z.chars)
    ensures Laid(b, z, head, pre, data, o.(names := o.names + Zeros(k)))
  {
    hide Holds, QuadAlign;
    HoldsZeros(b, z.Names(), QuadAlign(z.chars), o.names, k);
  }

  lemma LookupAppend(b: seq<Byte>, z: Sizes, head: seq<Byte>, pre: seq<Byte>, data: seq<Byte>, o: Out, v: Dword)
    requires Laid(b, z, head, pre, data, o) && |o.lookups| < z.thunks
    ensures var at := z.Lookups() + 4 * |o.lookups|;
            at + 4 <= |b| && Laid(Overwrite(b, at, DwordBytes(v)), z, head, pre, data, o.(lookups := o.lookups + [v]))
  {
    hide Laid, QuadAlign, Overwrite, DwordBytes, Dwords;
    DwordsAppend(o.lookups, [v]);
    OneDword(v);
    AlignUp(4 * z.thunks);
    BlockAppend(b, z, head, pre, data, o, head, pre, data, o.(lookups := o.lookups + [v]), Lookups, DwordBytes(v));
  }

  lemma BoundAppend(b: seq<Byte>, z: Sizes, head: seq<Byte>, pre: seq<Byte>, data: seq<Byte>, o: Out, v: Dword)
    requires Laid(b, z, head, pre, data, o) && |o.bounds| < z.thunks
    ensures var at := z.Bounds() + 4 * |o.bounds|;
            at + 4 <= |b| && Laid(Overwrite(b, at, DwordBytes(v)), z, head, pre, data, o.(bounds := o.bounds + [v]))
  {
    hide Laid, QuadAlign, Overwrite, DwordBytes, Dwords;
    DwordsAppend(o.bounds, [v]);
    OneDword(v);
    AlignUp(4 * z.thunks);
    BlockAppend(b, z, head, pre, data, o, head, pre, data, o.(bounds := o.bounds + [v]), Bounds, DwordBytes(v));
  }

  lemma TableAppend(b: seq<Byte>, z: Sizes, head: seq<Byte>, pre: seq<Byte>, data: seq<Byte>, o: Out, d: seq<Dword>)
    requires Laid(b, z, head, pre, data, o) && |d| == 5 && |o.table| + 5 <= 5 * z.tables
    ensures var at := z.Table() + 4 * |o.table|;
            at + 20 <= |b| && Laid(Overwrite(b, at, Dwords(d)), z, head, pre, data, o.(table := o.table + d))
  {
    hide Laid, QuadAlign, Overwrite, DwordBytes, Dwords;
    DwordsAppend(o.table, d);
    AlignUp(20 * z.tables);
    BlockAppend(b, z, head, pre, data, o, head, pre, data, o.(table := o.table + d), Table, Dwords(d));
  }

  /** Symbols do not add descriptors. */
  lemma {:induction false} SymbolsTable(symbols: seq<Symbol>, p: Places, o: Out, t: seq<Dword>)
    ensures EmitSymbols(symbols, p, o.(table := t)) == EmitSymbols(symbols, p, o).(table := t)
    decreases |symbols|
  {
    hide HintName;
    if |symbols| > 0 {
      SymbolsTable(symbols[1..], p, EmitSymbol(symbols[0], p, o), t);
      assert EmitSymbol(symbols[0], p, o.(table := t)) == EmitSymbol(symbols[0], p, o).(table := t);
    }
  }
}
