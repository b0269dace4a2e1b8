/**
 The import list of CImage (loader_dll/detours/image.cpp, 1335-1582 and 2096-2148): editing it through
 callbacks, resetting it, and the pass that sizes the table to be written.
 */
module ImportList {
  import opened Bytes
  import opened Options

  /** A NUL-terminated string without its NUL. */
  type CString = s: seq<Byte> | 0 !in s

  /** CImageImportName.  `origOrdinal` and `origName` are what the image had. */
  datatype Symbol = Symbol(hint: Word, origOrdinal: Dword, ordinal: Dword, origName: Option<CString>,
                           name: Option<CString>)

  /** CImageImportFile; `orig` is null for a byway. */
  datatype ImportFile = ImportFile(byway: bool, orig: Option<CString>, name: CString, symbols: seq<Symbol>,
                                   forwarder: Dword, first: Dword)

  // ---------------------------------------------------------------- callbacks

  /** The answer of a callback: the client's context afterwards, whether to go on, and the name. */
  datatype Answer<C> = Answer(context: C, go: bool, name: Option<CString>)
  datatype SymbolAnswer<C> = SymbolAnswer(context: C, go: bool, ordinal: Dword, name: Option<CString>)

  datatype Callbacks<!C> = Callbacks(
    byway: Option<(C, Option<CString>) -> Answer<C>>,
    file: Option<(C, Option<CString>, CString) -> Answer<C>>,
    symbol: Option<(C, Symbol) -> SymbolAnswer<C>>,
    commit: Option<C -> Answer<C>>)

  /** What the byway callback says between two files; none says nothing. */
  function Asked<C>(cb: Callbacks<C>, c: C): Answer<C>
  {
    match cb.byway case None => Answer(c, true, None) case Some(f) => f(c, None)
  }

  /** Asked for new byways again and again, the client comes to an end. */
  ghost predicate Settles<C(!new)>(cb: Callbacks<C>, limit: C -> nat)
  {
    forall c: C :: Asked(cb, c).go && Asked(cb, c).name.Some? ==> limit(Asked(cb, c).context) < limit(c)
  }

  function NewByway(name: CString): ImportFile
  {
    ImportFile(true, None, name, [], 0, 0)
  }

  /** A symbol after the callback's answer: a name wins over an ordinal, and no answer changes nothing. */
  function Renamed(s: Symbol, ordinal: Dword, name: Option<CString>): Symbol
  {
    if name.Some? then s.(ordinal := 0, name := name)
    else if ordinal != 0 then s.(ordinal := ordinal, name := None)
    else s
  }

  // ---------------------------------------------------------------- the edit, as a function

  datatype Edit<C, T> = Edit(result: T, context: C, ok: bool)

  function EditedSymbols<C>(cb: Callbacks<C>, c: C, symbols: seq<Symbol>): (e: Edit<C, seq<Symbol>>)
    ensures |e.result| == |symbols|
  {
    if |symbols| == 0 || cb.symbol.None? then Edit(symbols, c, true)
    else
      var a := cb.symbol.value(c, symbols[0]);
      if !a.go then Edit(symbols, a.context, false)
      else
        var rest := EditedSymbols(cb, a.context, symbols[1..]);
        Edit([Renamed(symbols[0], a.ordinal, a.name)] + rest.result, rest.context, rest.ok)
  }

  /** One file: None when it is a byway that the client deletes. */
  function EditedFile<C>(cb: Callbacks<C>, c: C, f: ImportFile): Edit<C, Option<ImportFile>>
  {
    if f.byway then
      if cb.byway.None? then Edit(Some(f), c, true)
      else
        var a := cb.byway.value(c, Some(f.name));
        if !a.go then Edit(Some(f), a.context, false)
        else if a.name.Some? then Edit(Some(f.(name := a.name.value)), a.context, true)
        else Edit(None, a.context, true)
    else
      var a := match cb.file case None => Answer(c, true, None) case Some(g) => g(c, f.orig, f.name);
      if !a.go then Edit(Some(f), a.context, false)
      else
        var named := if a.name.Some? then f.(name := a.name.value) else f;
        var e := EditedSymbols(cb, a.context, f.symbols);
        Edit(Some(named.(symbols := e.result)), e.context, e.ok)
  }

  function AsList(f: Option<ImportFile>): seq<ImportFile>
  {
    match f case None => [] case Some(x) => [x]
  }

  /** The rest of the list once the edit has gone through it. */
  ghost function Edited<C(!new)>(cb: Callbacks<C>, limit: C -> nat, c: C, rest: seq<ImportFile>): Edit<C,
    seq<ImportFile>>
    requires Settles(cb, limit)
    decreases |rest|, limit(c)
  {
    var a := Asked(cb, c);
    if !a.go then Edit(rest, a.context, false)
    else if a.name.Some? then
      var e := Edited(cb, limit, a.context, rest);
      Edit([NewByway(a.name.value)] + e.result, e.context, e.ok)
    else if |rest| == 0 then Edit([], a.context, true)
    else
      var f := EditedFile(cb, a.context, rest[0]);
      if !f.ok then Edit(AsList(f.result) + rest[1..], f.context, false)
      else
        var e := Edited(cb, limit, f.context, rest[1..]);
        Edit(AsList(f.result) + e.result, e.context, e.ok)
  }

  /** The edit with its commit callback. */
  ghost function EditedAll<C(!new)>(cb: Callbacks<C>, limit: C -> nat, c: C, files: seq<ImportFile>): Edit<C,
    seq<ImportFile>>
    requires Settles(cb, limit)
  {
    var e := Edited(cb, limit, c, files);
    if !e.ok || cb.commit.None? then e
    else
      var a := cb.commit.value(e.context);
      Edit(e.result, a.context, a.go)
  }

  // ---------------------------------------------------------------- what no edit changes

  /** What the image said of a symbol or of a file. */
  datatype SymbolOrigin = SymbolOrigin(hint: Word, ordinal: Dword, name: Option<CString>)
  datatype Origin = Origin(name: Option<CString>, symbols: seq<SymbolOrigin>, forwarder: Dword, first: Dword)

  function SymbolOrigins(symbols: seq<Symbol>): seq<SymbolOrigin>
  {
    if |symbols| == 0 then []
    else [SymbolOrigin(symbols[0].hint, symbols[0].origOrdinal, symbols[0].origName)] + SymbolOrigins(symbols[1..])
  }

  function Origins(files: seq<ImportFile>): seq<Origin>
  {
    if |files| == 0 then []
    else if files[0].byway then Origins(files[1..])
    else [Origin(files[0].orig, SymbolOrigins(files[0].symbols), files[0].forwarder,
                 files[0].first)] + Origins(files[1..])
  }

  /** However the callbacks answer, and even when one stops the edit, the image's own imports stay in the list in
      their order, with all that the image said of them. */
  lemma {:induction false} EditKeepsOrigins<C(!new)>(cb: Callbacks<C>, limit: C -> nat, c: C, rest: seq<ImportFile>)
    requires Settles(cb, limit)
    ensures Origins(Edited(cb, limit, c, rest).result) == Origins(rest)
    decreases |rest|, limit(c)
  {
    var a := Asked(cb, c);
    if a.go && a.name.Some? {
      EditKeepsOrigins(cb, limit, a.context, rest);
      OriginsConcat([NewByway(a.name.value)], Edited(cb, limit, a.context, rest).result);
    } else if a.go && |rest| > 0 {
      var f := EditedFile(cb, a.context, rest[0]);
      FileKeepsOrigin(cb, a.context, rest[0]);
      OriginsConcat([rest[0]], rest[1..]);
      assert [rest[0]] + rest[1..] == rest;
      if f.ok {
        EditKeepsOrigins(cb, limit, f.context, rest[1..]);
        OriginsConcat(AsList(f.result), Edited(cb, limit, f.context, rest[1..]).result);
      } else {
        OriginsConcat(AsList(f.result), rest[1..]);
      }
    }
  }

  lemma {:induction false} OriginsConcat(xs: seq<ImportFile>, ys: seq<ImportFile>)
    ensures Origins(xs + ys) == Origins(xs) + Origins(ys)
    decreases |xs|
  {
    if |xs| > 0 {
      assert (xs + ys)[1..] == xs[1..] + ys;
      OriginsConcat(xs[1..], ys);
    } else {
      assert xs + ys == ys;
    }
  }

  lemma FileKeepsOrigin<C>(cb: Callbacks<C>, c: C, f: ImportFile)
    ensures Origins(AsList(EditedFile(cb, c, f).result)) == Origins([f])
  {
    if !f.byway {
      var a := match cb.file case None => Answer(c, true, None) case Some(g) => g(c, f.orig, f.name);
      SymbolsKeepOrigin(cb, a.context, f.symbols);
    }
  }

  lemma {:induction false} SymbolsKeepOrigin<C>(cb: Callbacks<C>, c: C, symbols: seq<Symbol>)
    ensures SymbolOrigins(EditedSymbols(cb, c, symbols).result) == SymbolOrigins(symbols)
    decreases |symbols|
  {
    if |symbols| > 0 && cb.symbol.Some? {
      var a := cb.symbol.value(c, symbols[0]);
      if a.go {
        var rest := EditedSymbols(cb, a.context, symbols[1..]);
        SymbolsKeepOrigin(cb, a.context, symbols[1..]);
        assert ([Renamed(symbols[0], a.ordinal, a.name)] + rest.result)[1..] == rest.result;
      }
    }
  }

  // ---------------------------------------------------------------- two usual edits

  /** The callbacks of a client that wants one DLL more; its context tells whether it has asked for it. */
  function Adding(dll: CString): Callbacks<bool>
  {
    Callbacks(
      Some((asked: bool, name: Option<CString>) =>
             if name.Some? || asked then Answer(asked, true, name) else Answer(true, true, Some(dll))),
      None, None, None)
  }

  /** The DLL comes before all others, without symbols, and nothing else changes. */
  lemma DllAdded(dll: CString, limit: bool -> nat, files: seq<ImportFile>)
    requires Settles(Adding(dll), limit)
    ensures Edited(Adding(dll), limit, false, files) ==
            Edit([ImportFile(true, None, dll, [], 0, 0)] + files, true, true)
  {
    NothingMore(dll, limit, files);
  }

  lemma {:induction false} NothingMore(dll: CString, limit: bool -> nat, files: seq<ImportFile>)
    requires Settles(Adding(dll), limit)
    ensures Edited(Adding(dll), limit, true, files) == Edit(files, true, true)
    decreases |files|
  {
    if |files| > 0 {
      NothingMore(dll, limit, files[1..]);
      assert EditedFile(Adding(dll), true, files[0]) == Edit(Some(files[0]), true, true);
      assert [files[0]] + files[1..] == files;
    }
  }

  lemma AddingSettles(dll: CString)
    ensures Settles(Adding(dll), (asked: bool) => if asked then 0 else 1)
  {
  }

  /** The callbacks of a client that renames: `byway`, if there is one, and `file` give new names, or none, `symbol` an
      ordinal and a name. */
  function Renaming(byway: Option<CString -> Option<CString>>, file: CString -> Option<CString>,
                    symbol: Symbol -> (Dword, Option<CString>)): Callbacks<NoContext>
  {
    Callbacks(
      match byway
        case None => None
        case Some(rename) =>
          Some((c: NoContext, name: Option<CString>) =>
                 Answer(c, true, if name.Some? then rename(name.value) else None)),
      Some((c: NoContext, orig: Option<CString>, name: CString) => Answer(c, true, file(name))),
      Some((c: NoContext, s: Symbol) => SymbolAnswer(c, true, symbol(s).0, symbol(s).1)),
      None)
  }

  /** The symbol `t` is `s` after the answer: a new name, and no ordinal; or a new ordinal, and no name; or as
      before. */
  predicate SymbolIs(s: Symbol, t: Symbol, ordinal: Dword, name: Option<CString>)
  {
    && t.hint == s.hint && t.origOrdinal == s.origOrdinal && t.origName == s.origName
    && (name.Some? ==> t.name == name && t.ordinal == 0)
    && (name.None? && ordinal != 0 ==> t.name == None && t.ordinal == ordinal)
    && (name.None? && ordinal == 0 ==> t == s)
  }

  ghost predicate FileIs(f: ImportFile, g: ImportFile, file: CString -> Option<CString>,
                         symbol: Symbol -> (Dword, Option<CString>))
  {
    && g == f.(name := g.name, symbols := g.symbols)
    && g.name == (match file(f.name) case None => f.name case Some(n) => n)
    && |g.symbols| == |f.symbols|
    && forall i | 0 <= i < |f.symbols| :: SymbolIs(f.symbols[i], g.symbols[i], symbol(f.symbols[i]).0,
                                                   symbol(f.symbols[i]).1)
  }

  /** On a list without byways, whose order and size stay: each file and each symbol has the new name or ordinal. */
  lemma {:induction false} FilesRenamed(byway: Option<CString -> Option<CString>>, file: CString -> Option<CString>,
                                        symbol: Symbol -> (Dword, Option<CString>), limit: NoContext -> nat,
                                        files: seq<ImportFile>)
    requires Settles(Renaming(byway, file, symbol), limit) && forall f | f in files :: !f.byway
    ensures var e := Edited(Renaming(byway, file, symbol), limit, NoContext, files);
            && e.ok && |e.result| == |files|
            && forall i | 0 <= i < |files| :: FileIs(files[i], e.result[i], file, symbol)
    decreases |files|
  {
    hide FileIs;
    var cb := Renaming(byway, file, symbol);
    if |files| > 0 {
      assert files[0] in files && forall f | f in files[1..] :: f in files;
      FilesRenamed(byway, file, symbol, limit, files[1..]);
      FileRenamed(byway, file, symbol, files[0]);
      var e, rest := Edited(cb, limit, NoContext, files), Edited(cb, limit, NoContext, files[1..]);
      var f := EditedFile(cb, NoContext, files[0]);
      assert e.result == [f.result.value] + rest.result;
      forall i | 0 <= i < |files|
        ensures FileIs(files[i], e.result[i], file, symbol)
      {
        if i > 0 {
          assert files[i] == files[1..][i - 1] && e.result[i] == rest.result[i - 1];
        }
      }
    }
  }

  lemma FileRenamed(byway: Option<CString -> Option<CString>>, file: CString -> Option<CString>,
                    symbol: Symbol -> (Dword, Option<CString>), f: ImportFile)
    requires !f.byway
    ensures var e := EditedFile(Renaming(byway, file, symbol), NoContext, f);
            e.ok && e.context == NoContext && e.result.Some? && FileIs(f, e.result.value, file, symbol)
  {
    SymbolsRenamed(byway, file, symbol, f.symbols);
  }

  lemma {:induction false} SymbolsRenamed(byway: Option<CString -> Option<CString>>, file: CString -> Option<CString>,
                                          symbol: Symbol -> (Dword, Option<CString>), symbols: seq<Symbol>)
    ensures var e := EditedSymbols(Renaming(byway, file, symbol), NoContext, symbols);
            && e.ok && e.context == NoContext && |e.result| == |symbols|
            && forall i | 0 <= i < |symbols| :: SymbolIs(symbols[i], e.result[i], symbol(symbols[i]).0,
                                                         symbol(symbols[i]).1)
    decreases |symbols|
  {
    if |symbols| > 0 {
      SymbolsRenamed(byway, file, symbol, symbols[1..]);
      var e := EditedSymbols(Renaming(byway, file, symbol), NoContext, symbols);
      var rest := EditedSymbols(Renaming(byway, file, symbol), NoContext, symbols[1..]);
      forall i | 0 <= i < |symbols|
        ensures SymbolIs(symbols[i], e.result[i], symbol(symbols[i]).0, symbol(symbols[i]).1)
      {
        if i > 0 {
          assert symbols[i] == symbols[1..][i - 1] && e.result[i] == rest.result[i - 1];
        }
      }
    }
  }

  // ---------------------------------------------------------------- resetting

  datatype NoContext = NoContext

  /** The callbacks of DetourBinaryResetImports, which ignore their context. */
  function Reset(): Callbacks<NoContext>
  {
    Callbacks(
      Some((c: NoContext, name: Option<CString>) => Answer(c, true, None)),
      Some((c: NoContext, orig: Option<CString>, name: CString) => Answer(c, true, orig)),
      Some((c: NoContext, s: Symbol) => SymbolAnswer(c, true, s.origOrdinal, s.origName)),
      None)
  }

  function ResetSymbols(symbols: seq<Symbol>): seq<Symbol>
  {
    if |symbols| == 0 then []
    else [Renamed(symbols[0], symbols[0].origOrdinal, symbols[0].origName)] + ResetSymbols(symbols[1..])
  }

  function ResetFile(f: ImportFile): ImportFile
  {
    f.(name := if f.orig.Some? then f.orig.value else f.name, symbols := ResetSymbols(f.symbols))
  }

  function ResetList(files: seq<ImportFile>): seq<ImportFile>
  {
    if |files| == 0 then []
    else if files[0].byway then ResetList(files[1..])
    else [ResetFile(files[0])] + ResetList(files[1..])
  }

  lemma ResetSettles()
    ensures Settles(Reset(), (c: NoContext) => 0)
  {
  }

  lemma {:induction false} ResetEdit(limit: NoContext -> nat, files: seq<ImportFile>)
    requires Settles(Reset(), limit)
    ensures Edited(Reset(), limit, NoContext, files) == Edit(ResetList(files), NoContext, true)
    decreases |files|
  {
    if |files| > 0 {
      ResetEdit(limit, files[1..]);
      ResetEditedSymbols(files[0].symbols);
      var f := EditedFile(Reset(), NoContext, files[0]);
      assert f == Edit(if files[0].byway then None else Some(ResetFile(files[0])), NoContext, true);
      assert AsList(f.result) + ResetList(files[1..]) == ResetList(files);
    }
  }

  lemma {:induction false} ResetEditedSymbols(symbols: seq<Symbol>)
    ensures EditedSymbols(Reset(), NoContext, symbols) == Edit(ResetSymbols(symbols), NoContext, true)
    decreases |symbols|
  {
    if |symbols| > 0 {
      ResetEditedSymbols(symbols[1..]);
    }
  }

  // ---------------------------------------------------------------- what CheckImportsNeeded looks for

  predicate SymbolsChanged(symbols: seq<Symbol>)
  {
    |symbols| > 0 && (symbols[0].name != symbols[0].origName || SymbolsChanged(symbols[1..]))
  }

  predicate FileChanged(f: ImportFile)
  {
    f.byway || Some(f.name) != f.orig || SymbolsChanged(f.symbols)
  }

  /** A byway, or a name that is not the original one. */
  predicate Changed(files: seq<ImportFile>)
  {
    |files| > 0 && (FileChanged(files[0]) || Changed(files[1..]))
  }

  /** The reset leads back to the original name. */
  predicate Restorable(s: Symbol)
  {
    s.origName.Some? || s.origOrdinal != 0 || s.name.None?
  }

  predicate AllRestorable(symbols: seq<Symbol>)
  {
    |symbols| > 0 ==> Restorable(symbols[0]) && AllRestorable(symbols[1..])
  }

  predicate FilesRestorable(files: seq<ImportFile>)
  {
    |files| > 0 ==>
      && (!files[0].byway ==> files[0].orig.Some? && AllRestorable(files[0].symbols))
      && FilesRestorable(files[1..])
  }

  /** After a reset nothing needs a .detour section exactly when every file has its original name, and every
      symbol an original name, an original ordinal other than 0, or no name to begin with. */
  lemma {:induction false} ResetUnchanged(files: seq<ImportFile>)
    ensures Changed(ResetList(files)) <==> !FilesRestorable(files)
    decreases |files|
  {
    if |files| > 0 {
      ResetUnchanged(files[1..]);
      if !files[0].byway {
        SymbolsUnchanged(files[0].symbols);
        assert ResetList(files)[1..] == ResetList(files[1..]);
      }
    }
  }

  lemma {:induction false} SymbolsUnchanged(symbols: seq<Symbol>)
    ensures SymbolsChanged(ResetSymbols(symbols)) <==> !AllRestorable(symbols)
    decreases |symbols|
  {
    if |symbols| > 0 {
      SymbolsUnchanged(symbols[1..]);
      assert ResetSymbols(symbols)[1..] == ResetSymbols(symbols[1..]);
    }
  }

  /** A symbol that the image imports by the ordinal 0 keeps the name a client gave it. */
  lemma OrdinalZeroStays(name: CString)
    ensures var s := Symbol(0, 0, 0, None, Some(name));
            ResetSymbols([s]) == [s] && SymbolsChanged(ResetSymbols([s]))
  {
    var s := Symbol(0, 0, 0, None, Some(name));
    assert [s][1..] == [];
  }

  /** Resetting twice is resetting once. */
  lemma {:induction false} ResetTwice(files: seq<ImportFile>)
    ensures ResetList(ResetList(files)) == ResetList(files)
    decreases |files|
  {
    if |files| > 0 {
      ResetTwice(files[1..]);
      if !files[0].byway {
        SymbolsTwice(files[0].symbols);
        assert ResetList(files)[1..] == ResetList(files[1..]);
      }
    }
  }

  lemma {:induction false} SymbolsTwice(symbols: seq<Symbol>)
    ensures ResetSymbols(ResetSymbols(symbols)) == ResetSymbols(symbols)
    decreases |symbols|
  {
    if |symbols| > 0 {
      SymbolsTwice(symbols[1..]);
      assert ResetSymbols(symbols)[1..] == ResetSymbols(symbols[1..]);
    }
  }

  // ---------------------------------------------------------------- the sizes

  function Even(n: nat): (r: nat)
    ensures n <= r <= n + 1 && r % 2 == 0
  {
    n + n % 2
  }

  function SymbolChars(symbols: seq<Symbol>): nat
  {
    if |symbols| == 0 then 0
    else (if symbols[0].name.Some? then Even(2 + |symbols[0].name.value| + 1) else 0) + SymbolChars(symbols[1..])
  }

  /** Bytes for the names of a file, thunks for its lookup table. */
  function FileChars(f: ImportFile): nat { Even(|f.name| + 1) + if f.byway then 0 else SymbolChars(f.symbols) }
  function FileThunks(f: ImportFile): nat { if f.byway then 2 else |f.symbols| + 1 }

  function Chars(files: seq<ImportFile>): nat
  {
    if |files| == 0 then 0 else FileChars(files[0]) + Chars(files[1..])
  }

  function Thunks(files: seq<ImportFile>): nat
  {
    if |files| == 0 then 0 else FileThunks(files[0]) + Thunks(files[1..])
  }

  lemma EvenSum(chars: nat, n: nat)
    requires chars % 2 == 0
    ensures chars + n + (chars + n) % 2 == chars + Even(n)
  {
  }

  lemma Rejoin<T>(x: seq<T>, y: seq<T>, z: seq<T>)
    ensures x + (y + z) == x + y + z
  {
  }

  // ---------------------------------------------------------------- one round of the edit

  /** The edit has made `done` of the first files and has `rest` before it. */
  ghost predicate Editing<C(!new)>(cb: Callbacks<C>, limit: C -> nat, goal: Edit<C, seq<ImportFile>>,
                                   done: seq<ImportFile>, c: C, rest: seq<ImportFile>)
    requires Settles(cb, limit)
  {
    var e := Edited(cb, limit, c, rest);
    goal.result == done + e.result && goal.context == e.context && goal.ok == e.ok
  }

  lemma StartEdit<C(!new)>(cb: Callbacks<C>, limit: C -> nat, c: C, files: seq<ImportFile>)
    requires Settles(cb, limit)
    ensures Editing(cb, limit, Edited(cb, limit, c, files), files[..0], c, files)
    ensures files[0..] == files
  {
    assert files[..0] + Edited(cb, limit, c, files).result == Edited(cb, limit, c, files).result;
  }

  lemma EditStep<C(!new)>(cb: Callbacks<C>, limit: C -> nat, goal: Edit<C, seq<ImportFile>>, done: seq<ImportFile>,
                          c: C, rest: seq<ImportFile>)
    requires Settles(cb, limit) && Editing(cb, limit, goal, done, c, rest) && |rest| > 0
    ensures var a := Asked(cb, c);
            && (!a.go ==> goal == Edit(done + rest, a.context, false))
            && (a.go && a.name.Some? ==>
                  Editing(cb, limit, goal, done + [NewByway(a.name.value)], a.context, rest)
                    && limit(a.context) < limit(c))
            && (a.go && a.name.None? ==>
                  var f := EditedFile(cb, a.context, rest[0]);
                  && (!f.ok ==> goal == Edit(done + AsList(f.result) + rest[1..], f.context, false))
                  && (f.ok ==> Editing(cb, limit, goal, done + AsList(f.result), f.context, rest[1..])))
  {
    hide EditedFile;
    var a := Asked(cb, c);
    if a.go && a.name.Some? {
      Rejoin(done, [NewByway(a.name.value)], Edited(cb, limit, a.context, rest).result);
    } else if a.go {
      var f := EditedFile(cb, a.context, rest[0]);
      Rejoin(done, AsList(f.result), rest[1..]);
      if f.ok {
        Rejoin(done, AsList(f.result), Edited(cb, limit, f.context, rest[1..]).result);
      }
    }
  }

  lemma EditEnds<C(!new)>(cb: Callbacks<C>, limit: C -> nat, goal: Edit<C, seq<ImportFile>>, done: seq<ImportFile>,
                          c: C, rest: seq<ImportFile>)
    requires Settles(cb, limit) && Editing(cb, limit, goal, done, c, rest) && rest == []
    ensures var e := Edited(cb, limit, c, []);
            goal.result == done + e.result && goal.context == e.context && goal.ok == e.ok
  {
  }

  lemma EditedWith<C(!new)>(cb: Callbacks<C>, limit: C -> nat, c: C, files: seq<ImportFile>)
    requires Settles(cb, limit)
    ensures var e := Edited(cb, limit, c, files);
            EditedAll(cb, limit, c, files) ==
            if !e.ok || cb.commit.None? then e
            else Edit(e.result, cb.commit.value(e.context).context, cb.commit.value(e.context).go)
  {
  }

  // ---------------------------------------------------------------- the code

  class CImports {
    var files: seq<ImportFile>   // m_pImportFiles and the list behind it
    var count: nat               // m_nImportFiles

    constructor (files: seq<ImportFile>)
      ensures this.files == files && Valid()
    {
      this.files, count := files, |files|;
    }

    ghost predicate Valid()
      reads this
    {
      count == |files|
    }

    /** EditImports.  `ghost limit` bounds the byways that the client still wants to insert. */
    method EditImports<C(!new)>(cb: Callbacks<C>, context: C, ghost limit: C -> nat) returns (ok: bool, c: C)
      requires Valid() && Settles(cb, limit)
      modifies this
      ensures Valid() && Edit(files, c, ok) == EditedAll(cb, limit, context, old(files))
    {
      hide Edited, EditedFile, EditedAll, Editing, Settles;
      var i := 0;
      c := context;
      ghost var goal := Edited(cb, limit, context, files);
      ghost var rest := files;
      StartEdit(cb, limit, c, rest);
      while i < |files|
        invariant Valid() && i <= |files| && rest == files[i..]
        invariant Editing(cb, limit, goal, files[..i], c, rest)
        decreases |rest|, limit(c)
      {
        ghost var before := files[..i];
        EditStep(cb, limit, goal, before, c, rest);
        var a := Asked(cb, c);
        if !a.go {
          assert files == before + rest;
          EditedWith(cb, limit, context, old(files));
          return false, a.context;
        }
        if a.name.Some? {
          Insert(i, NewByway(a.name.value));
          i := i + 1;
          assert files[..i] == before + [NewByway(a.name.value)] && files[i..] == rest;
          c := a.context;
          continue;
        }
        assert rest[0] == files[i] && rest[1..] == files[i + 1..];
        ghost var f := files[i];
        var go, kept;
        go, c, kept := EditFile(cb, a.context, i);
        if !go {
          EditedWith(cb, limit, context, old(files));
          return false, c;
        }
        if kept {
          i := i + 1;
        }
        rest := rest[1..];
        assert files[..i] == before + AsList(EditedFile(cb, a.context, f).result);
        assert rest == files[i..];
      }
      assert rest == [] && files[..i] == files;
      EditEnds(cb, limit, goal, files, c, rest);
      ok, c := InsertLast(cb, c, limit);
      EditedWith(cb, limit, context, old(files));
      if !ok || cb.commit.None? {
        return;
      }
      var a := cb.commit.value(c);
      ok, c := a.go, a.context;
    }

    /** The byways behind the last file. */
    method InsertLast<C(!new)>(cb: Callbacks<C>, context: C, ghost limit: C -> nat) returns (ok: bool, c: C)
      requires Valid() && Settles(cb, limit)
      modifies this
      ensures Valid()
      ensures var e := Edited(cb, limit, context, []); files == old(files) + e.result && c == e.context && ok == e.ok
    {
      c := context;
      ghost var goal := Edited(cb, limit, context, []);
      while true
        invariant Valid()
        invariant var e := Edited(cb, limit, c, []);
                  old(files) + goal.result == files + e.result && goal.context == e.context && goal.ok == e.ok
        decreases limit(c)
      {
        var a := Asked(cb, c);
        c := a.context;
        if !a.go {
          return false, c;
        }
        if a.name.None? {
          return true, c;
        }
        ghost var all := files;
        Insert(|files|, NewByway(a.name.value));
        assert files == all + [NewByway(a.name.value)];
        Rejoin(all, [NewByway(a.name.value)], Edited(cb, limit, c, []).result);
      }
    }

    /** One file of the list; `kept` tells whether it is still in it. */
    method EditFile<C(!new)>(cb: Callbacks<C>, context: C, i: nat) returns (go: bool, c: C, kept: bool)
      requires Valid() && i < |files|
      modifies this
      ensures Valid()
      ensures var e := EditedFile(cb, context, old(files[i]));
              && go == e.ok && c == e.context && kept == e.result.Some?
              && files == old(files[..i]) + AsList(e.result) + old(files[i + 1..])
    {
      var f := files[i];
      kept := true;
      if f.byway {
        if cb.byway.None? {
          return true, context, true;
        }
        var a := cb.byway.value(context, Some(f.name));
        if !a.go {
          return false, a.context, true;
        }
        if a.name.Some? {
          files := files[i := f.(name := a.name.value)];
        } else {
          files := files[..i] + files[i + 1..];
          count := count - 1;
          kept := false;
        }
        return true, a.context, kept;
      }
      var a := match cb.file case None => Answer(context, true, None) case Some(g) => g(context, f.orig, f.name);
      if !a.go {
        return false, a.context, true;
      }
      if a.name.Some? {
        f := f.(name := a.name.value);
      }
      var symbols;
      symbols, go, c := EditSymbols(cb, a.context, f.symbols);
      files := files[i := f.(symbols := symbols)];
    }

    /** The symbols of a file, one after the other. */
    method EditSymbols<C>(cb: Callbacks<C>, context: C, symbols: seq<Symbol>)
      returns (edited: seq<Symbol>, go: bool, c: C)
      ensures var e := EditedSymbols(cb, context, symbols); edited == e.result && c == e.context && go == e.ok
    {
      edited, go, c := symbols, true, context;
      if cb.symbol.None? {
        return;
      }
      ghost var goal := EditedSymbols(cb, context, symbols);
      assert symbols[0..] == symbols && edited[..0] == [];
      for n := 0 to |symbols|
        invariant |edited| == |symbols| && edited[n..] == symbols[n..] && go
        invariant var e := EditedSymbols(cb, c, symbols[n..]);
                  goal.result == edited[..n] + e.result && goal.context == e.context && goal.ok == e.ok
      {
        var a := cb.symbol.value(c, symbols[n]);
        c := a.context;
        ghost var rest := symbols[n..];
        assert rest[0] == symbols[n] && rest[1..] == symbols[n + 1..];
        if !a.go {
          assert edited == edited[..n] + rest;
          return edited, false, c;
        }
        ghost var before := edited[..n];
        edited := edited[n := Renamed(symbols[n], a.ordinal, a.name)];
        assert edited[..n + 1] == before + [Renamed(symbols[n], a.ordinal, a.name)];
        assert edited[n + 1..] == symbols[n + 1..];
        Rejoin(before, [Renamed(symbols[n], a.ordinal, a.name)], EditedSymbols(cb, c, symbols[n + 1..]).result);
      }
      assert edited[..|symbols|] == edited && symbols[|symbols|..] == [];
    }

    /** DetourBinaryResetImports. */
    method ResetImports() returns (ok: bool)
      requires Valid()
      modifies this
      ensures Valid() && ok && files == ResetList(old(files))
    {
      ghost var limit := (c: NoContext) => 0;
      ResetSettles();
      ResetEdit(limit, files);
      var c;
      ok, c := EditImports(Reset(), NoContext, limit);
    }

    /** CheckImportsNeeded. */
    method CheckImportsNeeded() returns (needed: bool, tables: nat, thunks: nat, chars: nat)
      ensures needed == Changed(files) && tables == |files| + 1
      ensures thunks == Thunks(files) && chars == Chars(files)
    {
      hide SymbolChars, SymbolsChanged, Even;
      needed, tables, thunks, chars := false, 0, 0, 0;
      var rest := files;
      while rest != []
        invariant tables + |rest| == |files|
        invariant thunks + Thunks(rest) == Thunks(files)
        invariant chars + Chars(rest) == Chars(files) && chars % 2 == 0
        invariant Changed(files) == (needed || Changed(rest))
        decreases |rest|
      {
        var f := rest[0];
        EvenSum(chars, |f.name| + 1);
        chars := chars + |f.name| + 1;
        chars := chars + chars % 2;
        if f.byway {
          needed, thunks := true, thunks + 1;
        } else {
          if !needed && Some(f.name) != f.orig {
            needed := true;
          }
          var more, n := CheckSymbols(f.symbols, needed);
          needed, thunks, chars := more, thunks + |f.symbols|, chars + n;
        }
        thunks := thunks + 1;
        tables := tables + 1;
        rest := rest[1..];
      }
      tables := tables + 1;
    }

    /** The symbols of one file, for CheckImportsNeeded; `chars` is even whenever they come up. */
    method CheckSymbols(all: seq<Symbol>, already: bool) returns (needed: bool, chars: nat)
      ensures needed == (already || SymbolsChanged(all)) && chars == SymbolChars(all) && chars % 2 == 0
    {
      needed, chars := already, 0;
      var symbols := all;
      while symbols != []
        invariant chars + SymbolChars(symbols) == SymbolChars(all) && chars % 2 == 0
        invariant already || SymbolsChanged(all) <==> needed || SymbolsChanged(symbols)
        decreases |symbols|
      {
        var s := symbols[0];
        if !needed && s.name != s.origName {
          needed := true;
        }
        if s.name.Some? {
          chars := chars + 2;
          chars := chars + |s.name.value| + 1;
          chars := chars + chars % 2;
        }
        symbols := symbols[1..];
      }
    }

    method Insert(i: nat, f: ImportFile)
      requires Valid() && i <= |files|
      modifies this
      ensures Valid() && files == old(files[..i]) + [f] + old(files[i..])
    {
      files := files[..i] + [f] + files[i..];
      count := count + 1;
    }
  }
}
