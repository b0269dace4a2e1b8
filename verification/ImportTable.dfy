/**
 The import table that CImage::Write emits into the .detour section and CImage::Read finds there
 (loader_dll/detours/image.cpp, 638-767, 1190-1275 and 1787-1844), as functions on the tables' contents.
 */
module ImportTable {
  import opened Bytes
  import opened Options
  import opened ImportList

  const ORDINAL_FLAG: Dword := 0x8000_0000

  /** What has been emitted: the name table, the lookup and bound thunks, and the descriptors, five
      double words each. */
  datatype Out = Out(names: seq<Byte>, lookups: seq<Dword>, bounds: seq<Dword>, table: seq<Dword>)

  /** The virtual addresses of the tables; `many` tells whether the lookup table has room for more than one thunk. */
  datatype Places = Places(names: nat, lookups: nat, bounds: nat, many: bool)

  const Nothing := Out([], [], [], [])

  /** A name and its NUL, and one more byte if that makes the size even. */
  function NameBytes(s: CString): (r: seq<Byte>)
    ensures |r| == Even(|s| + 1)
  {
    s + Fill(0, Even(|s| + 1) - |s|)
  }

  /** IMAGE_IMPORT_BY_NAME. */
  function HintName(hint: Word, s: CString): (r: seq<Byte>)
    ensures |r| == Even(2 + |s| + 1)
  {
    [hint % 0x100, hint / 0x100] + s + Fill(0, Even(2 + |s| + 1) - 2 - |s|)
  }

  function EmitSymbol(s: Symbol, p: Places, o: Out): Out
  {
    match s.name
    case Some(name) => o.(names := o.names + HintName(s.hint, name), lookups := o.lookups + [Wrap(p.names + |o.names|)])
    case None => o.(lookups := o.lookups + [Wrap(ORDINAL_FLAG + s.ordinal)])
  }

  function EmitSymbols(symbols: seq<Symbol>, p: Places, o: Out): Out
  {
    if |symbols| == 0 then o else EmitSymbols(symbols[1..], p, EmitSymbol(symbols[0], p, o))
  }

  /** OriginalFirstThunk, TimeDateStamp, ForwarderChain, Name and FirstThunk of a file. */
  function Descriptor(f: ImportFile, p: Places, o: Out): (r: seq<Dword>)
    ensures |r| == 5
  {
    var lookup := Wrap(p.lookups + 4 * |o.lookups|);
    [if f.byway || p.many then lookup else 0, 0, f.forwarder, Wrap(p.names + |o.names|),
     if f.byway then Wrap(p.bounds + 4 * |o.bounds|) else f.first]
  }

  function EmitFile(f: ImportFile, p: Places, o: Out): Out
  {
    var named := o.(names := o.names + NameBytes(f.name), table := o.table + Descriptor(f, p, o));
    if f.byway then
      named.(lookups := o.lookups + [ORDINAL_FLAG + 1, 0], bounds := o.bounds + [ORDINAL_FLAG + 1, 0])
    else
      var all := EmitSymbols(f.symbols, p, named);
      all.(lookups := all.lookups + [0])
  }

  function EmitFiles(files: seq<ImportFile>, p: Places, o: Out): Out
  {
    if |files| == 0 then o else EmitFiles(files[1..], p, EmitFile(files[0], p, o))
  }

  /** A byway imports ordinal 1 and nothing else, by its lookup table and by its bound table, which its descriptor
      names.  No descriptor has a time stamp. */
  lemma BywayThunks(f: ImportFile, p: Places, o: Out)
    ensures var e := EmitFile(f, p, o);
            && |e.table| == |o.table| + 5 && e.table[..|o.table|] == o.table && e.table[|o.table| + 1] == 0
            && (f.byway ==>
                  && e.lookups == o.lookups + [0x8000_0001, 0] && e.bounds == o.bounds + [0x8000_0001, 0]
                  && e.table[|o.table|] == Wrap(p.lookups + 4 * |o.lookups|)
                  && e.table[|o.table| + 4] == Wrap(p.bounds + 4 * |o.bounds|))
  {
    var named := o.(names := o.names + NameBytes(f.name), table := o.table + Descriptor(f, p, o));
    SymbolsKeepTable(f.symbols, p, named);
  }

  lemma {:induction false} SymbolsKeepTable(symbols: seq<Symbol>, p: Places, o: Out)
    ensures EmitSymbols(symbols, p, o).table == o.table
    decreases |symbols|
  {
    if |symbols| > 0 {
      SymbolsKeepTable(symbols[1..], p, EmitSymbol(symbols[0], p, o));
    }
  }

  // ---------------------------------------------------------------- the sizing pass

  /** CheckImportsNeeded predicts what is emitted: every byte of the name table and every lookup thunk is used;
      the bound thunks are at most as many. */
  lemma {:induction false} SizesPredicted(files: seq<ImportFile>, p: Places, o: Out)
    ensures var z := EmitFiles(files, p, o);
            && |z.names| == |o.names| + Chars(files) && |z.lookups| == |o.lookups| + Thunks(files)
            && |z.bounds| <= |o.bounds| + Thunks(files) && |z.table| == |o.table| + 5 * |files|
    decreases |files|
  {
    if |files| > 0 {
      FileSizes(files[0], p, o);
      SizesPredicted(files[1..], p, EmitFile(files[0], p, o));
    }
  }

  lemma FileSizes(f: ImportFile, p: Places, o: Out)
    ensures var z := EmitFile(f, p, o);
            && |z.names| == |o.names| + FileChars(f) && |z.lookups| == |o.lookups| + FileThunks(f)
            && |z.bounds| <= |o.bounds| + FileThunks(f) && |z.table| == |o.table| + 5
  {
    hide Descriptor, NameBytes;
    SymbolSizes(f.symbols, p, o.(names := o.names + NameBytes(f.name), table := o.table + Descriptor(f, p, o)));
  }

  lemma {:induction false} SymbolSizes(symbols: seq<Symbol>, p: Places, o: Out)
    ensures var z := EmitSymbols(symbols, p, o);
            && |z.names| == |o.names| + SymbolChars(symbols) && |z.lookups| == |o.lookups| + |symbols|
            && z.bounds == o.bounds && z.table == o.table
    decreases |symbols|
  {
    hide HintName;
    if |symbols| > 0 {
      SymbolSizes(symbols[1..], p, EmitSymbol(symbols[0], p, o));
    }
  }

  // ---------------------------------------------------------------- emitting only adds

  predicate Extends(o: Out, z: Out)
  {
    o.names <= z.names && o.lookups <= z.lookups && o.bounds <= z.bounds && o.table <= z.table
  }

  lemma ExtendsTrans(a: Out, b: Out, c: Out)
    requires Extends(a, b) && Extends(b, c)
    ensures Extends(a, c)
  {
  }

  lemma {:induction false} SymbolsExtend(symbols: seq<Symbol>, p: Places, o: Out)
    ensures Extends(o, EmitSymbols(symbols, p, o))
    decreases |symbols|
  {
    hide HintName;
    if |symbols| > 0 {
      SymbolsExtend(symbols[1..], p, EmitSymbol(symbols[0], p, o));
      ExtendsTrans(o, EmitSymbol(symbols[0], p, o), EmitSymbols(symbols, p, o));
    }
  }

  lemma FileExtends(f: ImportFile, p: Places, o: Out)
    ensures Extends(o, EmitFile(f, p, o))
    ensures o.names + NameBytes(f.name) <= EmitFile(f, p, o).names
    ensures o.table + Descriptor(f, p, o) <= EmitFile(f, p, o).table
  {
    hide Descriptor, NameBytes;
    var named := o.(names := o.names + NameBytes(f.name), table := o.table + Descriptor(f, p, o));
    SymbolsExtend(f.symbols, p, named);
  }

  lemma {:induction false} FilesExtend(files: seq<ImportFile>, p: Places, o: Out)
    ensures Extends(o, EmitFiles(files, p, o))
    decreases |files|
  {
    hide EmitFile;
    if |files| > 0 {
      FileExtends(files[0], p, o);
      FilesExtend(files[1..], p, EmitFile(files[0], p, o));
      ExtendsTrans(o, EmitFile(files[0], p, o), EmitFiles(files, p, o));
    }
  }

  // ---------------------------------------------------------------- reading the table

  /** What a reader sees of a symbol and of a file. */
  datatype SeenSymbol = ByName(hint: Word, name: CString) | ByOrdinal(ordinal: Word)
  datatype SeenFile = SeenFile(byway: bool, name: CString, forwarder: Dword, first: Dword, symbols: seq<SeenSymbol>)

  /** The string at `at`, up to its NUL. */
  function StringAt(b: seq<Byte>, at: nat): Option<CString>
    decreases |b| - at
  {
    if at >= |b| then None
    else if b[at] == 0 then Some([])
    else match StringAt(b, at + 1) case None => None case Some(s) => Some([b[at]] + s)
  }

  /** A thunk: the ordinal flag, or the address of a hint and a name.  The section starts at `va`. */
  function SymbolAt(b: seq<Byte>, va: nat, thunk: Dword): Option<SeenSymbol>
  {
    if thunk >= ORDINAL_FLAG then Some(ByOrdinal(thunk % 0x1_0000))
    else if thunk < va || thunk - va + 2 > |b| then None
    else match StringAt(b, thunk - va + 2)
      case None => None
      case Some(s) => Some(ByName(WordAt(b, thunk - va), s))
  }

  /** The symbols of the thunks from `at` on, up to a thunk of 0. */
  function SymbolsAt(b: seq<Byte>, va: nat, at: nat): Option<seq<SeenSymbol>>
    decreases |b| - at
  {
    if at + 4 > |b| then None
    else
      var thunk := DwordAt(b, at);
      if thunk == 0 then Some([])
      else match SymbolAt(b, va, thunk)
        case None => None
        case Some(s) =>
          match SymbolsAt(b, va, at + 4) case None => None case Some(rest) => Some([s] + rest)
  }

  /** A file by its descriptor: a byway is known by a bound table inside the section. */
  function FileAt(b: seq<Byte>, va: nat, lookup: Dword, forwarder: Dword, name: Dword, first: Dword): Option<SeenFile>
  {
    if name < va then None
    else match StringAt(b, name - va)
      case None => None
      case Some(s) =>
        if va <= first < va + |b| then Some(SeenFile(true, s, forwarder, first, []))
        else if lookup < va then None
        else match SymbolsAt(b, va, lookup - va)
          case None => None
          case Some(symbols) => Some(SeenFile(false, s, forwarder, first, symbols))
  }

  /** The files of the descriptors from `at` on, up to one whose OriginalFirstThunk is 0. */
  function FilesAt(b: seq<Byte>, va: nat, at: nat): Option<seq<SeenFile>>
    decreases |b| - at
  {
    if at + 20 > |b| then None
    else if DwordAt(b, at) == 0 then Some([])
    else match FileAt(b, va, DwordAt(b, at), DwordAt(b, at + 8), DwordAt(b, at + 12), DwordAt(b, at + 16))
      case None => None
      case Some(f) =>
        match FilesAt(b, va, at + 20) case None => None case Some(rest) => Some([f] + rest)
  }

  /** An ordinal does not run into the flag. */
  predicate OrdinalFits(s: Symbol)
  {
    s.name.None? ==> s.ordinal < ORDINAL_FLAG
  }

  predicate AllOrdinalsFit(symbols: seq<Symbol>)
  {
    |symbols| > 0 ==> OrdinalFits(symbols[0]) && AllOrdinalsFit(symbols[1..])
  }

  function Seen(s: Symbol): SeenSymbol
  {
    match s.name case Some(name) => ByName(s.hint, name) case None => ByOrdinal(s.ordinal % 0x1_0000)
  }

  function SeenSymbols(symbols: seq<Symbol>): seq<SeenSymbol>
  {
    if |symbols| == 0 then [] else [Seen(symbols[0])] + SeenSymbols(symbols[1..])
  }

  /** `first` is the FirstThunk that was emitted. */
  function SeenOf(f: ImportFile, first: Dword): SeenFile
  {
    SeenFile(f.byway, f.name, f.forwarder, first, if f.byway then [] else SeenSymbols(f.symbols))
  }

  function SeenList(files: seq<ImportFile>, p: Places, o: Out): seq<SeenFile>
  {
    if |files| == 0 then []
    else [SeenOf(files[0], Descriptor(files[0], p, o)[4])] + SeenList(files[1..], p, EmitFile(files[0], p, o))
  }

  // ---------------------------------------------------------------- the tables in the section

  function Dwords(xs: seq<Dword>): (r: seq<Byte>)
    ensures |r| == 4 * |xs|
  {
    if |xs| == 0 then [] else DwordBytes(xs[0]) + Dwords(xs[1..])
  }

  /** Where the tables lie in the section, and that they hold what has been emitted. */
  datatype Offsets = Offsets(names: nat, lookups: nat, bounds: nat, table: nat)

  ghost predicate Emitted(b: seq<Byte>, at: Offsets, z: Out)
  {
    && at.names + |z.names| <= |b| && b[at.names..at.names + |z.names|] == z.names
    && at.lookups + 4 * |z.lookups| <= |b| && b[at.lookups..at.lookups + 4 * |z.lookups|] == Dwords(z.lookups)
    && at.bounds + 4 * |z.bounds| <= |b|
    && at.table + 4 * |z.table| + 20 <= |b| && b[at.table..at.table + 4 * |z.table|] == Dwords(z.table)
    && DwordAt(b, at.table + 4 * |z.table|) == 0
  }

  /** The addresses that were emitted are those of the tables, and small enough to be told from ordinals. */
  predicate Placed(p: Places, at: Offsets, va: nat, size: nat)
  {
    && p.names == va + at.names && p.lookups == va + at.lookups && p.bounds == va + at.bounds
    && 0 < va && va + size <= ORDINAL_FLAG
  }

  lemma {:induction false} DwordOf(xs: seq<Dword>, k: nat)
    requires k < |xs|
    ensures DwordAt(Dwords(xs), 4 * k) == xs[k]
    decreases k
  {
    hide DwordBytes;
    var d, rest := DwordBytes(xs[0]), Dwords(xs[1..]);
    var b := Dwords(xs);
    if k == 0 {
      DwordRoundTrip(xs[0]);
      assert b[0] == d[0] && b[1] == d[1] && b[2] == d[2] && b[3] == d[3];
    } else {
      DwordOf(xs[1..], k - 1);
      assert b[4..] == rest;
      var j := 4 * (k - 1);
      assert b[j + 4] == rest[j] && b[j + 5] == rest[j + 1] && b[j + 6] == rest[j + 2] && b[j + 7] == rest[j + 3];
    }
  }

  lemma DwordOfSlice(b: seq<Byte>, lo: nat, hi: nat, j: nat)
    requires lo <= hi <= |b| && j + 4 <= hi - lo
    ensures DwordAt(b[lo..hi], j) == DwordAt(b, lo + j)
  {
    var s := b[lo..hi];
    assert s[j] == b[lo + j] && s[j + 1] == b[lo + j + 1] && s[j + 2] == b[lo + j + 2] && s[j + 3] == b[lo + j + 3];
  }

  lemma DwordIn(b: seq<Byte>, at: nat, xs: seq<Dword>, k: nat)
    requires at + 4 * |xs| <= |b| && b[at..at + 4 * |xs|] == Dwords(xs) && k < |xs|
    ensures at + 4 * k + 4 <= |b| && DwordAt(b, at + 4 * k) == xs[k]
  {
    hide Dwords, DwordAt;
    DwordOf(xs, k);
    DwordOfSlice(b, at, at + 4 * |xs|, 4 * k);
  }

  lemma {:induction false} StringIn(b: seq<Byte>, at: nat, s: CString)
    requires at + |s| < |b| && b[at..at + |s|] == s && b[at + |s|] == 0
    ensures StringAt(b, at) == Some(s)
    decreases |s|
  {
    if |s| > 0 {
      assert b[at..at + |s|][0] == s[0] && s[0] in s;
      assert b[at + 1..at + 1 + |s[1..]|] == b[at..at + |s|][1..];
      StringIn(b, at + 1, s[1..]);
      assert [s[0]] + s[1..] == s;
    }
  }

  lemma StringWithin(b: seq<Byte>, n: nat, x: seq<Byte>, k: nat, s: CString)
    requires n + |x| <= |b| && b[n..n + |x|] == x && k + |s| < |x| && x[k..k + |s|] == s && x[k + |s|] == 0
    ensures StringAt(b, n + k) == Some(s)
  {
    hide StringAt;
    SliceOfSlice(b, n, n + |x|, k, k + |s|);
    assert b[n + k + |s|] == b[n..n + |x|][k + |s|];
    StringIn(b, n + k, s);
  }

  lemma NameShape(s: CString)
    ensures |NameBytes(s)| > |s| && NameBytes(s)[0..|s|] == s && NameBytes(s)[|s|] == 0
  {
  }

  lemma HintNameShape(hint: Word, s: CString)
    ensures |HintName(hint, s)| > 2 + |s| && HintName(hint, s)[2..2 + |s|] == s && HintName(hint, s)[2 + |s|] == 0
    ensures WordAt(HintName(hint, s), 0) == hint
  {
  }

  lemma EmittedNames(b: seq<Byte>, at: Offsets, z: Out)
    requires Emitted(b, at, z)
    ensures at.names + |z.names| <= |b| && b[at.names..at.names + |z.names|] == z.names
  {
  }

  /** A name in the name table. */
  lemma NameIn(b: seq<Byte>, at: Offsets, z: Out, before: seq<Byte>, s: CString)
    requires Emitted(b, at, z) && Within(before, NameBytes(s), z.names)
    ensures StringAt(b, at.names + |before|) == Some(s)
  {
    hide *;
    EmittedNames(b, at, z);
    NameInTable(b, at.names, z.names, before, s);
  }

  lemma NameInTable(b: seq<Byte>, at: nat, all: seq<Byte>, before: seq<Byte>, s: CString)
    requires at + |all| <= |b| && b[at..at + |all|] == all && Within(before, NameBytes(s), all)
    ensures StringAt(b, at + |before|) == Some(s)
  {
    hide NameBytes, StringAt;
    InTable(b, at, all, before, NameBytes(s));
    NameShape(s);
    StringWithin(b, at + |before|, NameBytes(s), 0, s);
  }

  lemma InTable(b: seq<Byte>, at: nat, all: seq<Byte>, before: seq<Byte>, x: seq<Byte>)
    requires at + |all| <= |b| && b[at..at + |all|] == all && Within(before, x, all)
    ensures at + |before| + |x| <= |b| && b[at + |before|..at + |before| + |x|] == x
  {
    SliceOfSlice(b, at, at + |all|, |before|, |before| + |x|);
  }

  /** `x` lies in `all` behind a part as long as `before`. */
  ghost predicate Within(before: seq<Byte>, x: seq<Byte>, all: seq<Byte>)
  {
    |before| + |x| <= |all| && all[|before|..|before| + |x|] == x
  }

  lemma PrefixWithin(before: seq<Byte>, x: seq<Byte>, more: seq<Byte>, all: seq<Byte>)
    requires before + x <= more <= all
    ensures Within(before, x, all)
  {
    assert (before + x)[|before|..] == x;
    assert all[..|before| + |x|] == before + x;
    assert all[|before|..|before| + |x|] == all[..|before| + |x|][|before|..];
  }

  lemma HintNameIn(b: seq<Byte>, va: nat, at: Offsets, z: Out, before: seq<Byte>, hint: Word, s: CString)
    requires Emitted(b, at, z) && Within(before, HintName(hint, s), z.names) && va + |b| <= ORDINAL_FLAG
    ensures va + at.names + |before| < ORDINAL_FLAG
    ensures SymbolAt(b, va, va + at.names + |before|) == Some(ByName(hint, s))
  {
    hide Dwords, DwordAt, HintName, StringAt, Emitted;
    EmittedNames(b, at, z);
    var n := at.names + |before|;
    InTable(b, at.names, z.names, before, HintName(hint, s));
    HintNameShape(hint, s);
    StringWithin(b, n, HintName(hint, s), 2, s);
    WordWithin(b, n, HintName(hint, s));
  }

  lemma WordWithin(b: seq<Byte>, n: nat, x: seq<Byte>)
    requires n + |x| <= |b| && b[n..n + |x|] == x && |x| >= 2
    ensures WordAt(b, n) == WordAt(x, 0)
  {
    assert b[n..n + |x|][0] == b[n] && b[n..n + |x|][1] == b[n + 1];
  }

  // ---------------------------------------------------------------- reading back what was emitted

  /** The symbols of one file, read back. */
  lemma {:induction false} SymbolsBack(b: seq<Byte>, va: nat, at: Offsets, z: Out, p: Places, symbols: seq<Symbol>,
                                       o: Out)
    requires Emitted(b, at, z) && Placed(p, at, va, |b|)
    requires AllOrdinalsFit(symbols)
    requires var e := EmitSymbols(symbols, p, o); Extends(e.(lookups := e.lookups + [0]), z)
    ensures SymbolsAt(b, va, at.lookups + 4 * |o.lookups|) == Some(SeenSymbols(symbols))
    decreases |symbols|
  {
    hide HintName, DwordAt, Dwords, SymbolAt;
    var k := |o.lookups|;
    if |symbols| == 0 {
      DwordIn(b, at.lookups, z.lookups, k);
    } else {
      var next := EmitSymbol(symbols[0], p, o);
      SymbolsExtend(symbols[1..], p, next);
      DwordIn(b, at.lookups, z.lookups, k);
      SymbolBack(b, va, at, z, p, symbols[0], o);
      SymbolsBack(b, va, at, z, p, symbols[1..], next);
      assert at.lookups + 4 * |next.lookups| == at.lookups + 4 * k + 4;
    }
  }

  lemma SymbolBack(b: seq<Byte>, va: nat, at: Offsets, z: Out, p: Places, s: Symbol, o: Out)
    requires Emitted(b, at, z) && Placed(p, at, va, |b|) && Extends(EmitSymbol(s, p, o), z) && OrdinalFits(s)
    ensures |o.lookups| < |z.lookups| && z.lookups[|o.lookups|] != 0
    ensures SymbolAt(b, va, z.lookups[|o.lookups|]) == Some(Seen(s))
  {
    hide HintName, DwordAt, Dwords, StringAt, Emitted;
    if s.name.Some? {
      NamedBack(b, va, at, z, p, s, o);
    } else {
      assert z.lookups[|o.lookups|] == ORDINAL_FLAG + s.ordinal;
    }
  }

  lemma NamedBack(b: seq<Byte>, va: nat, at: Offsets, z: Out, p: Places, s: Symbol, o: Out)
    requires Emitted(b, at, z) && Placed(p, at, va, |b|) && Extends(EmitSymbol(s, p, o), z) && s.name.Some?
    ensures |o.lookups| < |z.lookups| && z.lookups[|o.lookups|] != 0
    ensures SymbolAt(b, va, z.lookups[|o.lookups|]) == Some(Seen(s))
  {
    hide HintName, DwordAt, Dwords, StringAt, Emitted;
    EmittedRoom(b, at, z);
    PrefixWithin(o.names, HintName(s.hint, s.name.value), EmitSymbol(s, p, o).names, z.names);
    HintNameIn(b, va, at, z, o.names, s.hint, s.name.value);
  }

  /** What the reader relies on in a file: ordinals that fit, and a FirstThunk that lies in the section only for a
      byway. */
  predicate Readable(f: ImportFile, va: nat, size: nat)
  {
    f.byway || (AllOrdinalsFit(f.symbols) && !(va <= f.first < va + size))
  }

  predicate AllReadable(files: seq<ImportFile>, va: nat, size: nat)
  {
    |files| > 0 ==> Readable(files[0], va, size) && AllReadable(files[1..], va, size)
  }

  /** One file, read back. */
  lemma FileBack(b: seq<Byte>, va: nat, at: Offsets, z: Out, p: Places, f: ImportFile, o: Out)
    requires Emitted(b, at, z) && Placed(p, at, va, |b|) && p.many && Readable(f, va, |b|)
    requires Extends(EmitFile(f, p, o), z)
    ensures var d := Descriptor(f, p, o);
            d[0] != 0 && FileAt(b, va, d[0], d[2], d[3], d[4]) == Some(SeenOf(f, d[4]))
  {
    hide Emitted, NameBytes, DwordAt, Dwords, StringAt, SymbolsAt, Even, SeenSymbols, EmitSymbols;
    FileExtends(f, p, o);
    PrefixWithin(o.names, NameBytes(f.name), EmitFile(f, p, o).names, z.names);
    NameIn(b, at, z, o.names, f.name);
    EmittedRoom(b, at, z);
    FileRoom(f, p, o);
    if !f.byway {
      var named := o.(names := o.names + NameBytes(f.name), table := o.table + Descriptor(f, p, o));
      SymbolsBack(b, va, at, z, p, f.symbols, named);
    }
  }

  lemma EmittedRoom(b: seq<Byte>, at: Offsets, z: Out)
    requires Emitted(b, at, z)
    ensures at.names + |z.names| <= |b| && at.lookups + 4 * |z.lookups| <= |b| && at.bounds + 4 * |z.bounds| <= |b|
  {
  }

  lemma FileRoom(f: ImportFile, p: Places, o: Out)
    ensures |EmitFile(f, p, o).lookups| > |o.lookups| && |EmitFile(f, p, o).names| > |o.names|
    ensures f.byway ==> |EmitFile(f, p, o).bounds| > |o.bounds|
  {
    hide Descriptor;
    SymbolSizes(f.symbols, p, o.(names := o.names + NameBytes(f.name), table := o.table + Descriptor(f, p, o)));
  }

  lemma {:induction false} FilesBack(b: seq<Byte>, va: nat, at: Offsets, z: Out, p: Places, files: seq<ImportFile>,
                                     o: Out)
    requires Emitted(b, at, z) && Placed(p, at, va, |b|) && p.many && AllReadable(files, va, |b|)
    requires EmitFiles(files, p, o) == z
    ensures FilesAt(b, va, at.table + 4 * |o.table|) == Some(SeenList(files, p, o))
    decreases |files|
  {
    hide EmitFile, Dwords, DwordAt, Descriptor, FileAt;
    var i := at.table + 4 * |o.table|;
    if |files| == 0 {
      TableEnd(b, at, z);
    } else {
      var f, d := files[0], Descriptor(files[0], p, o);
      var next := EmitFile(f, p, o);
      FilesExtend(files[1..], p, next);
      FileExtends(f, p, o);
      FileSizes(f, p, o);
      FileBack(b, va, at, z, p, f, o);
      DescriptorIn(b, at, z, o.table, d);
      FilesBack(b, va, at, z, p, files[1..], next);
      assert at.table + 4 * |next.table| == i + 20;
    }
  }

  lemma TableEnd(b: seq<Byte>, at: Offsets, z: Out)
    requires Emitted(b, at, z)
    ensures at.table + 4 * |z.table| + 20 <= |b| && DwordAt(b, at.table + 4 * |z.table|) == 0
  {
  }

  lemma DescriptorIn(b: seq<Byte>, at: Offsets, z: Out, before: seq<Dword>, d: seq<Dword>)
    requires Emitted(b, at, z) && |d| == 5 && before + d <= z.table
    ensures var i := at.table + 4 * |before|;
            && i + 20 <= |b| && DwordAt(b, i) == d[0] && DwordAt(b, i + 8) == d[2] && DwordAt(b, i + 12) == d[3]
            && DwordAt(b, i + 16) == d[4]
  {
    hide Dwords, DwordAt;
    var k := |before|;
    assert forall j | 0 <= j < 5 :: z.table[k + j] == d[j];
    DwordIn(b, at.table, z.table, k);
    DwordIn(b, at.table, z.table, k + 2);
    DwordIn(b, at.table, z.table, k + 3);
    DwordIn(b, at.table, z.table, k + 4);
  }

  /** With a lookup table of one thunk, the only file has no OriginalFirstThunk, and the reader finds no file at all. */
  lemma LoneFileLost(b: seq<Byte>, va: nat, at: Offsets, p: Places, files: seq<ImportFile>)
    requires Emitted(b, at, EmitFiles(files, p, Nothing)) && Thunks(files) == 1 && !p.many
    ensures |files| == 1 && !files[0].byway && FilesAt(b, va, at.table) == Some([])
  {
    hide Dwords, DwordAt;
    OneThunk(files);
    assert files == [files[0]];
    var z := EmitFiles(files, p, Nothing);
    assert z == EmitFile(files[0], p, Nothing);
    FileExtends(files[0], p, Nothing);
    DescriptorIn(b, at, z, [], Descriptor(files[0], p, Nothing));
  }

  lemma OneThunk(files: seq<ImportFile>)
    requires Thunks(files) == 1
    ensures |files| == 1 && !files[0].byway && files[0].symbols == []
  {
    ThunkEach(files);
  }

  lemma {:induction false} ThunkEach(files: seq<ImportFile>)
    ensures Thunks(files) >= |files|
    decreases |files|
  {
    if |files| > 0 {
      ThunkEach(files[1..]);
    }
  }

  /** What CImage::Write emits, CImage::Read reads back: every file with its name, forwarder chain, first thunk,
      kind and symbols, in order.  It holds exactly when the lookup table does not come to a single thunk, that
      is, unless the list is one file without symbols. */
  lemma ImportsBack(b: seq<Byte>, va: nat, at: Offsets, p: Places, files: seq<ImportFile>)
    requires Emitted(b, at, EmitFiles(files, p, Nothing)) && Placed(p, at, va, |b|)
    requires p.many == (Thunks(files) > 1) && AllReadable(files, va, |b|)
    ensures FilesAt(b, va, at.table) == Some(SeenList(files, p, Nothing)) <==> Thunks(files) != 1
  {
    hide Emitted, FilesAt;
    if Thunks(files) == 1 {
      LoneFileLost(b, va, at, p, files);
      assert |SeenList(files, p, Nothing)| == 1;
    } else if |files| == 0 {
      NoFiles(b, va, at, p, files);
    } else {
      assert Thunks(files) >= 1;
      FilesBack(b, va, at, EmitFiles(files, p, Nothing), p, files, Nothing);
    }
  }

  lemma NoFiles(b: seq<Byte>, va: nat, at: Offsets, p: Places, files: seq<ImportFile>)
    requires Emitted(b, at, EmitFiles(files, p, Nothing)) && |files| == 0
    ensures FilesAt(b, va, at.table) == Some([])
  {
    TableEnd(b, at, Nothing);
  }
}
