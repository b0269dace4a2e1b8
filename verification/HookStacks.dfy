/** Hooks on code that is hooked already, as what they write: when taking hooks back in some order gives the code
    back. */
module HookStacks {
  import opened Bytes
  import opened Options
  import opened HookList

  predicate Fits(c: seq<Byte>, h: Hook)
  {
    5 <= h.Size() && h.target + h.Size() <= |c|
  }

  predicate AllFit(c: seq<Byte>, hs: seq<Hook>)
  {
    |hs| > 0 ==> Fits(c, hs[0]) && AllFit(c, hs[1..])
  }

  /** The code once the jump of `h` has been written, and once its saved code has been written back. */
  function On(c: seq<Byte>, h: Hook): (r: seq<Byte>)
    ensures |r| == |c|
  {
    if Fits(c, h) then Overwrite(c, h.target, Patch(h)) else c
  }

  function Off(c: seq<Byte>, h: Hook): (r: seq<Byte>)
    ensures |r| == |c|
  {
    if Fits(c, h) then Overwrite(c, h.target, h.saved) else c
  }

  function OnAll(c: seq<Byte>, hs: seq<Hook>): (r: seq<Byte>)
    ensures |r| == |c|
    decreases |hs|
  {
    if |hs| == 0 then c else OnAll(On(c, hs[0]), hs[1..])
  }

  function OffAll(c: seq<Byte>, hs: seq<Hook>): (r: seq<Byte>)
    ensures |r| == |c|
    decreases |hs|
  {
    if |hs| == 0 then c else OffAll(Off(c, hs[0]), hs[1..])
  }

  /** Hooks that are attached and committed one after the other: each saves what it finds. */
  predicate Stacked(c: seq<Byte>, hs: seq<Hook>)
    decreases |hs|
  {
    |hs| > 0 ==>
      && Fits(c, hs[0]) && c[hs[0].target..hs[0].target + hs[0].Size()] == hs[0].saved
      && Stacked(On(c, hs[0]), hs[1..])
  }

  // ---------------------------------------------------------------- byte by byte

  predicate Over(h: Hook, x: int)
  {
    5 <= h.Size() && h.target <= x < h.target + h.Size()
  }

  /** The first and the last hook of the list whose window has the byte at `x`. */
  function FirstOver(hs: seq<Hook>, x: int): Option<Hook>
  {
    if |hs| == 0 then None else if Over(hs[0], x) then Some(hs[0]) else FirstOver(hs[1..], x)
  }

  function LastOver(hs: seq<Hook>, x: int): (r: Option<Hook>)
    ensures r.Some? ==> Over(r.value, x)
  {
    if |hs| == 0 then None
    else
      var later := LastOver(hs[1..], x);
      if later.Some? then later else if Over(hs[0], x) then Some(hs[0]) else None
  }

  /** What the hook writes at `x` when it is switched on. */
  function PatchByte(h: Hook, x: int): Byte
    requires Over(h, x)
  {
    Patch(h)[x - h.target]
  }

  lemma WriteAt(c: seq<Byte>, h: Hook, bytes: seq<Byte>, x: nat)
    requires Fits(c, h) && |bytes| == h.Size() && x < |c|
    ensures Overwrite(c, h.target, bytes)[x] == if Over(h, x) then bytes[x - h.target] else c[x]
  {
    OverwriteIndex(c, h.target, bytes, x);
  }

  /** After the jumps of all hooks, each byte is that of the last hook over it. */
  lemma {:induction false} OnAt(c: seq<Byte>, hs: seq<Hook>, x: nat)
    requires AllFit(c, hs) && x < |c|
    ensures OnAll(c, hs)[x] == match LastOver(hs, x) case None => c[x] case Some(h) => PatchByte(h, x)
    decreases |hs|
  {
    hide Patch, Overwrite;
    if |hs| > 0 {
      WriteAt(c, hs[0], Patch(hs[0]), x);
      StillFit(c, On(c, hs[0]), hs[1..]);
      OnAt(On(c, hs[0]), hs[1..], x);
    }
  }

  /** After the saved code of all hooks, each byte is what the last hook over it had saved. */
  lemma {:induction false} OffAt(c: seq<Byte>, hs: seq<Hook>, x: nat)
    requires AllFit(c, hs) && x < |c|
    ensures OffAll(c, hs)[x] == match LastOver(hs, x) case None => c[x] case Some(h) => h.saved[x - h.target]
    decreases |hs|
  {
    hide Patch, Overwrite;
    if |hs| > 0 {
      WriteAt(c, hs[0], hs[0].saved, x);
      StillFit(c, Off(c, hs[0]), hs[1..]);
      OffAt(Off(c, hs[0]), hs[1..], x);
    }
  }

  lemma {:induction false} StillFit(c: seq<Byte>, d: seq<Byte>, hs: seq<Hook>)
    requires AllFit(c, hs) && |c| == |d|
    ensures AllFit(d, hs)
    decreases |hs|
  {
    if |hs| > 0 {
      StillFit(c, d, hs[1..]);
    }
  }

  lemma {:induction false} StackedFit(c: seq<Byte>, hs: seq<Hook>)
    requires Stacked(c, hs)
    ensures AllFit(c, hs)
    decreases |hs|
  {
    if |hs| > 0 {
      StackedFit(On(c, hs[0]), hs[1..]);
      StillFit(On(c, hs[0]), c, hs[1..]);
    }
  }

  /** The hook whose jump was at `x` when the hook `h` of the list was attached. */
  function Under(hs: seq<Hook>, h: Hook, x: int): (r: Option<Hook>)
    ensures r.Some? ==> Over(r.value, x)
  {
    if |hs| == 0 || hs[0] == h then None
    else
      var later := Under(hs[1..], h, x);
      if later.Some? then later else if Over(hs[0], x) then Some(hs[0]) else None
  }

  /** What a hook has saved: the code, or the jump of the hook under it. */
  lemma {:induction false} SavedAt(c: seq<Byte>, hs: seq<Hook>, h: Hook, x: nat)
    requires Stacked(c, hs) && h in hs && Over(h, x)
    ensures x < |c| && h.saved[x - h.target] == match Under(hs, h, x) case None => c[x] case Some(g) => PatchByte(g, x)
    decreases |hs|
  {
    hide Patch, Overwrite;
    var g := hs[0];
    if g == h {
      assert c[g.target..g.target + g.Size()][x - g.target] == c[x];
    } else {
      SavedAt(On(c, g), hs[1..], h, x);
      WriteAt(c, g, Patch(g), x);
    }
  }

  // ---------------------------------------------------------------- taking hooks back

  /** Taken back in the order `ds`, the byte at `x` is the original one: the last hook over it was put on the code
      itself, or on a jump that has the same byte there. */
  predicate Recovered(c: seq<Byte>, hs: seq<Hook>, ds: seq<Hook>, x: nat)
    requires x < |c|
  {
    match LastOver(ds, x)
    case None => true
    case Some(h) => (match Under(hs, h, x) case None => true case Some(g) => PatchByte(g, x) == c[x])
  }

  /** Hooks that were attached one after the other, on any code, hooked or not, are all taken back in any order: the
      code is as before if and only if every byte is recovered. */
  lemma UnhookedIff(c: seq<Byte>, hs: seq<Hook>, ds: seq<Hook>)
    requires Stacked(c, hs) && multiset(ds) == multiset(hs)
    ensures OffAll(OnAll(c, hs), ds) == c <==> forall x: nat | x < |c| :: Recovered(c, hs, ds, x)
  {
    hide Stacked, OnAll, OffAll, PatchByte, Recovered, Over;
    var r := OffAll(OnAll(c, hs), ds);
    forall x: nat | x < |c|
      ensures r[x] == c[x] <==> Recovered(c, hs, ds, x)
    {
      UnhookedAt(c, hs, ds, x);
    }
    if forall x: nat | x < |c| :: Recovered(c, hs, ds, x) {
      assert forall x: nat | x < |c| :: r[x] == c[x];
    }
  }

  lemma UnhookedAt(c: seq<Byte>, hs: seq<Hook>, ds: seq<Hook>, x: nat)
    requires Stacked(c, hs) && multiset(ds) == multiset(hs) && x < |c|
    ensures OffAll(OnAll(c, hs), ds)[x] == c[x] <==> Recovered(c, hs, ds, x)
  {
    hide Stacked, OnAll, OffAll, PatchByte, Over;
    StackedFit(c, hs);
    SameFit(c, hs, ds);
    StillFit(c, OnAll(c, hs), ds);
    OffAt(OnAll(c, hs), ds, x);
    OnAt(c, hs, x);
    match LastOver(ds, x) {
      case None =>
        NoneOver(hs, ds, x);
      case Some(h) =>
        LastIsIn(ds, x);
        assert h in multiset(ds);
        SavedAt(c, hs, h, x);
    }
  }

  lemma {:induction false} LastIsIn(ds: seq<Hook>, x: int)
    requires LastOver(ds, x).Some?
    ensures LastOver(ds, x).value in ds
    decreases |ds|
  {
    if LastOver(ds[1..], x).Some? {
      LastIsIn(ds[1..], x);
    }
  }

  lemma {:induction false} NotOver(ds: seq<Hook>, x: int, h: Hook)
    requires LastOver(ds, x).None? && h in ds
    ensures !Over(h, x)
    decreases |ds|
  {
    if ds[0] != h {
      NotOver(ds[1..], x, h);
    }
  }

  lemma NoneOver(hs: seq<Hook>, ds: seq<Hook>, x: int)
    requires multiset(ds) == multiset(hs) && LastOver(ds, x).None?
    ensures LastOver(hs, x).None?
  {
    if LastOver(hs, x).Some? {
      LastIsIn(hs, x);
      var h := LastOver(hs, x).value;
      assert h in multiset(hs);
      assert h in ds;
      NotOver(ds, x, h);
    }
  }

  lemma {:induction false} FitsIn(c: seq<Byte>, hs: seq<Hook>, h: Hook)
    requires AllFit(c, hs) && h in hs
    ensures Fits(c, h)
    decreases |hs|
  {
    if hs[0] != h {
      FitsIn(c, hs[1..], h);
    }
  }

  lemma {:induction false} AllFitFrom(c: seq<Byte>, ds: seq<Hook>)
    requires forall h | h in ds :: Fits(c, h)
    ensures AllFit(c, ds)
    decreases |ds|
  {
    if |ds| > 0 {
      assert ds[0] in ds && forall h | h in ds[1..] :: h in ds;
      AllFitFrom(c, ds[1..]);
    }
  }

  lemma SameFit(c: seq<Byte>, hs: seq<Hook>, ds: seq<Hook>)
    requires AllFit(c, hs) && multiset(ds) == multiset(hs)
    ensures AllFit(c, ds)
  {
    forall h | h in ds
      ensures Fits(c, h)
    {
      assert h in multiset(ds);
      FitsIn(c, hs, h);
    }
    AllFitFrom(c, ds);
  }

  // ---------------------------------------------------------------- the order

  /** Over each byte, the hook that came first goes last. */
  ghost predicate FirstGoesLast(hs: seq<Hook>, ds: seq<Hook>)
  {
    forall x: nat :: FirstOver(hs, x) == LastOver(ds, x)
  }

  /** No hook writes a byte that the code has already. */
  predicate Marks(c: seq<Byte>, h: Hook)
  {
    forall x: nat | x < |c| && Over(h, x) :: PatchByte(h, x) != c[x]
  }

  lemma {:induction false} FirstHasNoneUnder(hs: seq<Hook>, x: int)
    requires FirstOver(hs, x).Some?
    ensures FirstOver(hs, x).value in hs && Over(FirstOver(hs, x).value, x)
    ensures Under(hs, FirstOver(hs, x).value, x).None?
    decreases |hs|
  {
    if !Over(hs[0], x) {
      FirstHasNoneUnder(hs[1..], x);
    }
  }

  lemma {:induction false} OthersHaveOneUnder(hs: seq<Hook>, h: Hook, x: int)
    requires h in hs && Over(h, x) && FirstOver(hs, x) != Some(h)
    ensures Under(hs, h, x).Some? && Under(hs, h, x).value in hs
    decreases |hs|
  {
    if !Over(hs[0], x) {
      OthersHaveOneUnder(hs[1..], h, x);
    } else if Under(hs[1..], h, x).Some? {
      UnderIsIn(hs[1..], h, x);
    }
  }

  lemma {:induction false} UnderIsIn(hs: seq<Hook>, h: Hook, x: int)
    requires Under(hs, h, x).Some?
    ensures Under(hs, h, x).value in hs
    decreases |hs|
  {
    if Under(hs[1..], h, x).Some? {
      UnderIsIn(hs[1..], h, x);
    }
  }

  lemma {:induction false} SomeFirst(hs: seq<Hook>, h: Hook, x: int)
    requires h in hs && Over(h, x)
    ensures FirstOver(hs, x).Some?
    decreases |hs|
  {
    if !Over(hs[0], x) {
      SomeFirst(hs[1..], h, x);
    }
  }

  /** When over each byte the first hook goes last, the code is given back. */
  lemma FirstLastRestores(c: seq<Byte>, hs: seq<Hook>, ds: seq<Hook>)
    requires Stacked(c, hs) && multiset(ds) == multiset(hs) && FirstGoesLast(hs, ds)
    ensures OffAll(OnAll(c, hs), ds) == c
  {
    hide Stacked, OnAll, OffAll, PatchByte, Over, FirstOver, LastOver, Under;
    forall x: nat | x < |c|
      ensures Recovered(c, hs, ds, x)
    {
      assert FirstOver(hs, x) == LastOver(ds, x);
      if FirstOver(hs, x).Some? {
        FirstHasNoneUnder(hs, x);
      }
    }
    UnhookedIff(c, hs, ds);
  }

  /** When no jump has a byte in common with the code it covers, the code is given back only then. */
  lemma RestoredIffFirstLast(c: seq<Byte>, hs: seq<Hook>, ds: seq<Hook>)
    requires Stacked(c, hs) && multiset(ds) == multiset(hs) && forall h | h in hs :: Marks(c, h)
    ensures OffAll(OnAll(c, hs), ds) == c <==> FirstGoesLast(hs, ds)
  {
    hide Stacked, OnAll, OffAll, PatchByte, Over, FirstOver, LastOver, Under;
    if OffAll(OnAll(c, hs), ds) == c {
      UnhookedIff(c, hs, ds);
      forall x: nat
        ensures FirstOver(hs, x) == LastOver(ds, x)
      {
        if x < |c| {
          assert Recovered(c, hs, ds, x);
          MarkedAt(c, hs, ds, x);
        } else {
          NothingOver(c, hs, ds, x);
        }
      }
    } else if FirstGoesLast(hs, ds) {
      FirstLastRestores(c, hs, ds);
    }
  }

  lemma MarkedAt(c: seq<Byte>, hs: seq<Hook>, ds: seq<Hook>, x: nat)
    requires multiset(ds) == multiset(hs) && (forall h | h in hs :: Marks(c, h))
    requires x < |c| && Recovered(c, hs, ds, x)
    ensures FirstOver(hs, x) == LastOver(ds, x)
  {
    hide PatchByte, Over, FirstOver, LastOver, Under;
    match LastOver(ds, x) {
      case None =>
        if FirstOver(hs, x).Some? {
          FirstHasNoneUnder(hs, x);
          assert FirstOver(hs, x).value in multiset(hs);
          NotOver(ds, x, FirstOver(hs, x).value);
        }
      case Some(h) =>
        LastIsIn(ds, x);
        assert h in multiset(ds);
        if FirstOver(hs, x) != Some(h) {
          OthersHaveOneUnder(hs, h, x);
        }
    }
  }

  lemma NothingOver(c: seq<Byte>, hs: seq<Hook>, ds: seq<Hook>, x: nat)
    requires Stacked(c, hs) && multiset(ds) == multiset(hs) && x >= |c|
    ensures FirstOver(hs, x) == LastOver(ds, x)
  {
    hide Stacked, PatchByte, FirstOver, LastOver, Under;
    StackedFit(c, hs);
    if FirstOver(hs, x).Some? {
      FirstHasNoneUnder(hs, x);
      FitsIn(c, hs, FirstOver(hs, x).value);
    }
    if LastOver(ds, x).Some? {
      LastIsIn(ds, x);
      assert LastOver(ds, x).value in multiset(ds);
      FitsIn(c, hs, LastOver(ds, x).value);
    }
  }

  /** The reverse of the order of attaching. */
  function Reversed(hs: seq<Hook>): seq<Hook>
  {
    if |hs| == 0 then [] else Reversed(hs[1..]) + [hs[0]]
  }

  /** Hooks that go in the reverse of the order in which they came give the code back, however they overlap. */
  lemma {:induction false} ReverseRestores(c: seq<Byte>, hs: seq<Hook>)
    requires Stacked(c, hs)
    ensures OffAll(OnAll(c, hs), Reversed(hs)) == c
    decreases |hs|
  {
    hide Patch, Overwrite;
    if |hs| > 0 {
      var h := hs[0];
      ReverseRestores(On(c, h), hs[1..]);
      OffLast(OnAll(c, hs), Reversed(hs[1..]), h);
      OverwriteSame(c, h.target, Patch(h), h.saved);
      OverwriteRestores(c, h.target, h.saved);
    }
  }

  lemma {:induction false} OffLast(c: seq<Byte>, ds: seq<Hook>, h: Hook)
    ensures OffAll(c, ds + [h]) == Off(OffAll(c, ds), h)
    decreases |ds|
  {
    hide Off;
    if |ds| > 0 {
      assert (ds + [h])[1..] == ds[1..] + [h];
      OffLast(Off(c, ds[0]), ds[1..], h);
    } else {
      assert ds + [h] == [h] && [h][1..] == [];
    }
  }

  predicate Overlap(g: Hook, h: Hook)
  {
    5 <= g.Size() && 5 <= h.Size() && g.target < h.target + h.Size() && h.target < g.target + g.Size()
  }

  /** Of two hooks that overlap, the later one goes first. */
  predicate LaterGoesFirst(hs: seq<Hook>, ds: seq<Hook>)
  {
    forall i, j, k, l | 0 <= i < j < |hs| && 0 <= k < |ds| && 0 <= l < |ds| && ds[k] == hs[i] && ds[l] == hs[j] ::
      Overlap(hs[i], hs[j]) ==> l < k
  }

  lemma {:induction false} FirstIndex(hs: seq<Hook>, x: int) returns (i: nat)
    requires FirstOver(hs, x).Some?
    ensures i < |hs| && hs[i] == FirstOver(hs, x).value && Over(hs[i], x) && forall j | 0 <= j < i :: !Over(hs[j], x)
    decreases |hs|
  {
    i := 0;
    if !Over(hs[0], x) {
      var k := FirstIndex(hs[1..], x);
      i := k + 1;
      assert forall j | 0 < j < i :: hs[j] == hs[1..][j - 1];
    }
  }

  lemma {:induction false} LastIndex(hs: seq<Hook>, x: int) returns (i: nat)
    requires LastOver(hs, x).Some?
    ensures i < |hs| && hs[i] == LastOver(hs, x).value && forall j | i < j < |hs| :: !Over(hs[j], x)
    decreases |hs|
  {
    i := 0;
    if LastOver(hs[1..], x).Some? {
      var k := LastIndex(hs[1..], x);
      i := k + 1;
      assert forall j | i < j < |hs| :: hs[j] == hs[1..][j - 1];
    } else {
      forall j | 0 < j < |hs|
        ensures !Over(hs[j], x)
      {
        assert hs[j] == hs[1..][j - 1];
        NotOver(hs[1..], x, hs[j]);
      }
    }
  }

  /** If every two hooks that overlap go in the reverse of the order in which they came, the code is given back; hooks
      that do not overlap may go in any order. */
  lemma OverlapsReversed(c: seq<Byte>, hs: seq<Hook>, ds: seq<Hook>)
    requires Stacked(c, hs) && multiset(ds) == multiset(hs) && LaterGoesFirst(hs, ds)
    ensures OffAll(OnAll(c, hs), ds) == c
  {
    hide Stacked, OnAll, OffAll, FirstOver, LastOver;
    forall x: nat
      ensures FirstOver(hs, x) == LastOver(ds, x)
    {
      LaterFirstAt(hs, ds, x);
    }
    FirstLastRestores(c, hs, ds);
  }

  lemma BothOver(g: Hook, h: Hook, x: int)
    requires Over(g, x) && Over(h, x)
    ensures Overlap(g, h)
  {
  }

  lemma LaterFirst(hs: seq<Hook>, ds: seq<Hook>, i: nat, j: nat, k: nat, l: nat)
    requires i < j < |hs| && k < |ds| && l < |ds| && ds[k] == hs[i] && ds[l] == hs[j] && Overlap(hs[i], hs[j])
    ensures LaterGoesFirst(hs, ds) ==> l < k
  {
  }

  lemma LaterFirstAt(hs: seq<Hook>, ds: seq<Hook>, x: nat)
    requires multiset(ds) == multiset(hs) && LaterGoesFirst(hs, ds)
    ensures FirstOver(hs, x) == LastOver(ds, x)
  {
    hide FirstOver, LastOver, Over, Overlap, LaterGoesFirst;
    if LastOver(ds, x).None? {
      NoneOver(hs, ds, x);
      if FirstOver(hs, x).Some? {
        FirstHasNoneUnder(hs, x);
        NotOver(hs, x, FirstOver(hs, x).value);
      }
    } else {
      var l := LastIndex(ds, x);
      assert ds[l] in multiset(ds) && ds[l] in hs;
      SomeFirst(hs, ds[l], x);
      var i := FirstIndex(hs, x);
      assert hs[i] in multiset(hs) && hs[i] in ds;
      var j :| 0 <= j < |hs| && hs[j] == ds[l];
      var k :| 0 <= k < |ds| && ds[k] == hs[i];
      var there := Over(ds[k], x);
      BothOver(hs[i], hs[j], x);
      if i < j {
        LaterFirst(hs, ds, i, j, k, l);
      }
    }
  }

  // ---------------------------------------------------------------- two hooks, and three

  /** Two hooks, taken back in the order in which they came: the code is given back if and only if the first hook's jump
      has the bytes of the code wherever both are. */
  lemma TwoInOrder(c: seq<Byte>, a: Hook, b: Hook)
    requires Stacked(c, [a, b]) && a != b
    ensures OffAll(OnAll(c, [a, b]), [a, b]) == c <==>
            forall x: nat | x < |c| && Over(a, x) && Over(b, x) :: PatchByte(a, x) == c[x]
  {
    hide Stacked, OnAll, OffAll, PatchByte, Over, Under, LastOver;
    UnhookedIff(c, [a, b], [a, b]);
    forall x: nat | x < |c|
      ensures Recovered(c, [a, b], [a, b], x) <==> (Over(a, x) && Over(b, x) ==> PatchByte(a, x) == c[x])
    {
      PairOver(a, b, x);
    }
    if forall x: nat | x < |c| && Over(a, x) && Over(b, x) :: PatchByte(a, x) == c[x] {
      assert forall x: nat | x < |c| :: Recovered(c, [a, b], [a, b], x);
    }
    if forall x: nat | x < |c| :: Recovered(c, [a, b], [a, b], x) {
      forall x: nat | x < |c| && Over(a, x) && Over(b, x)
        ensures PatchByte(a, x) == c[x]
      {
        assert Recovered(c, [a, b], [a, b], x);
      }
    }
  }

  lemma PairOver(a: Hook, b: Hook, x: int)
    ensures LastOver([a, b], x) == if Over(b, x) then Some(b) else if Over(a, x) then Some(a) else None
    ensures a != b ==> Under([a, b], b, x) == if Over(a, x) then Some(a) else None
    ensures Under([a, b], a, x).None?
  {
    assert [a, b][1..] == [b] && [b][1..] == [];
    assert LastOver([b], x) == if Over(b, x) then Some(b) else None;
    assert Under([b], b, x).None?;
  }

  /** Two hooks on one function, taken back in the order in which they came, leave the jump of the first one there. */
  lemma FirstJumpStays(c: seq<Byte>, a: Hook, b: Hook)
    requires Stacked(c, [a, b]) && a != b && a.target == b.target && a.Size() <= b.Size()
    ensures OffAll(OnAll(c, [a, b]), [a, b])[a.target..a.target + a.Size()] == Patch(a)
  {
    hide Stacked, OnAll, OffAll, PatchByte, Under, LastOver, Patch;
    StackedFit(c, [a, b]);
    FitsIn(c, [a, b], a);
    var r := OffAll(OnAll(c, [a, b]), [a, b]);
    forall i | 0 <= i < a.Size()
      ensures r[a.target + i] == Patch(a)[i]
    {
      FirstJumpAt(c, a, b, a.target + i);
    }
  }

  lemma FirstJumpAt(c: seq<Byte>, a: Hook, b: Hook, x: nat)
    requires Stacked(c, [a, b]) && a != b && x < |c| && Over(a, x) && Over(b, x)
    ensures OffAll(OnAll(c, [a, b]), [a, b])[x] == Patch(a)[x - a.target]
  {
    hide Stacked, OnAll, OffAll, Under, LastOver, Patch, Over;
    StackedFit(c, [a, b]);
    StillFit(c, OnAll(c, [a, b]), [a, b]);
    OffAt(OnAll(c, [a, b]), [a, b], x);
    PairOver(a, b, x);
    assert b in [a, b];
    SavedAt(c, [a, b], b, x);
  }

  /** Of three hooks on one function the first must go last; the other two may go in the order in which they came. */
  lemma NotOnlyReversed(c: seq<Byte>, h1: Hook, h2: Hook, h3: Hook)
    requires Stacked(c, [h1, h2, h3]) && h1 != h2 && h2 != h3 && h1 != h3
    requires h1.target == h2.target == h3.target && h1.Size() == h2.Size() == h3.Size()
    ensures OffAll(OnAll(c, [h1, h2, h3]), [h2, h3, h1]) == c
    ensures !LaterGoesFirst([h1, h2, h3], [h2, h3, h1])
  {
    hide Stacked, OnAll, OffAll, FirstOver, LastOver, LaterGoesFirst, Overlap;
    var hs, ds := [h1, h2, h3], [h2, h3, h1];
    StackedFit(c, hs);
    FitsIn(c, hs, h1);
    forall x: nat
      ensures FirstOver(hs, x) == LastOver(ds, x)
    {
      TripleOver(h1, h2, h3, x);
    }
    FirstLastRestores(c, hs, ds);
    FitsIn(c, hs, h2);
    SamePlace(h2, h3);
    LaterFirst(hs, ds, 1, 2, 0, 1);
  }

  lemma SamePlace(g: Hook, h: Hook)
    requires g.target == h.target && g.Size() == h.Size() >= 5
    ensures Overlap(g, h)
  {
  }

  lemma TripleOver(h1: Hook, h2: Hook, h3: Hook, x: int)
    requires Over(h1, x) == Over(h2, x) == Over(h3, x)
    ensures FirstOver([h1, h2, h3], x) == LastOver([h2, h3, h1], x)
  {
    hide Over;
    PairOver(h3, h1, x);
    assert [h2, h3, h1][1..] == [h3, h1];
    if !Over(h1, x) {
      assert FirstOver([], x).None?;
      assert [h3][1..] == [] && FirstOver([h3], x).None?;
      assert [h2, h3][1..] == [h3] && FirstOver([h2, h3], x).None?;
      assert [h1, h2, h3][1..] == [h2, h3] && FirstOver([h1, h2, h3], x).None?;
    }
  }

  /** An input: a hook on mov edi, edi; push ebp; mov ebp, esp at 0 with its detour at 0x100, a second one on its jump
      with the detour at 0x200.  Taken back in the order in which they came, they leave the jump to the first detour. */
  lemma StaleJump(c: seq<Byte>, a: Hook, b: Hook)
    requires c == [0x8b, 0xff, 0x55, 0x8b, 0xec]
    requires a == Hook(0x1_0060, 0, c, 0x100, true) && b == Hook(0x1_0080, 0, Jmp(0, 0x100), 0x200, true)
    ensures Stacked(c, [a, b]) && OffAll(OnAll(c, [a, b]), [a, b]) == Jmp(0, 0x100) != c
    ensures JumpsTo(OffAll(OnAll(c, [a, b]), [a, b]), 0, 0x100)
  {
    hide Jmp, OnAll, OffAll;
    FivePatch(a);
    OverwriteWhole(c, Patch(a));
    assert On(c, a) == Patch(a);
    assert [a, b][1..] == [b] && [b][1..] == [];
    assert Stacked(On(c, a), [b]);
    FirstJumpStays(c, a, b);
    assert OffAll(OnAll(c, [a, b]), [a, b]) == OffAll(OnAll(c, [a, b]), [a, b])[0..5];
    StartsWithE9(0, 0x100);
    JmpLeads(OffAll(OnAll(c, [a, b]), [a, b]), 0, 0x100);
  }

  lemma FivePatch(h: Hook)
    requires h.Size() == 5
    ensures Patch(h) == Jmp(h.target, h.detour)
  {
    hide Jmp;
    assert Brks(0) == [];
  }

  lemma OverwriteWhole(b: seq<Byte>, bytes: seq<Byte>)
    requires |bytes| == |b|
    ensures Overwrite(b, 0, bytes) == bytes
  {
  }

  lemma StartsWithE9(at: Dword, to: Dword)
    ensures Jmp(at, to)[0] == 0xe9
  {
  }

  // ---------------------------------------------------------------- one transaction

  /** Hooks that are attached in one transaction, before any of them is written, all save the same code. */
  predicate Together(c: seq<Byte>, hs: seq<Hook>)
  {
    |hs| > 0 ==>
      && Fits(c, hs[0]) && c[hs[0].target..hs[0].target + hs[0].Size()] == hs[0].saved
      && Together(c, hs[1..])
  }

  lemma {:induction false} TogetherSaved(c: seq<Byte>, hs: seq<Hook>, h: Hook, x: nat)
    requires Together(c, hs) && h in hs && Over(h, x)
    ensures x < |c| && h.saved[x - h.target] == c[x]
    decreases |hs|
  {
    if hs[0] == h {
      assert c[h.target..h.target + h.Size()][x - h.target] == c[x];
    } else {
      TogetherSaved(c, hs[1..], h, x);
    }
  }

  lemma {:induction false} TogetherFit(c: seq<Byte>, hs: seq<Hook>)
    requires Together(c, hs)
    ensures AllFit(c, hs)
    decreases |hs|
  {
    if |hs| > 0 {
      TogetherFit(c, hs[1..]);
    }
  }

  /** Hooks of one transaction may be taken back in any order, however they overlap; but while they are there, each byte
      belongs to the last one written. */
  lemma TogetherRestores(c: seq<Byte>, hs: seq<Hook>, ds: seq<Hook>)
    requires Together(c, hs) && multiset(ds) == multiset(hs)
    ensures OffAll(OnAll(c, hs), ds) == c
    ensures forall x: nat | x < |c| ::
              OnAll(c, hs)[x] == match LastOver(hs, x) case None => c[x] case Some(h) => PatchByte(h, x)
  {
    hide Together, OnAll, OffAll, PatchByte, Over, LastOver;
    TogetherFit(c, hs);
    SameFit(c, hs, ds);
    StillFit(c, OnAll(c, hs), ds);
    var r := OffAll(OnAll(c, hs), ds);
    forall x: nat | x < |c|
      ensures r[x] == c[x] && OnAll(c, hs)[x] == match LastOver(hs, x) case None => c[x] case Some(h) => PatchByte(h, x)
    {
      OffAt(OnAll(c, hs), ds, x);
      OnAt(c, hs, x);
      match LastOver(ds, x) {
        case None =>
          NoneOver(hs, ds, x);
        case Some(h) =>
          LastIsIn(ds, x);
          assert h in multiset(ds);
          TogetherSaved(c, hs, h, x);
      }
    }
  }
}
