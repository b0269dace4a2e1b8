/** Any list of attaches and detaches, each committed on its own: what is left outside the pool is what the hooks have
    written, so that it is the code from before exactly when `HookStacks.UnhookedIff` says so. */
module HookRuns {
  import opened Bytes
  import opened Options
  import opened Disasm
  import opened Relocation
  import opened Trampolines
  import opened HookList
  import opened HookSteps
  import opened Patching
  import opened Rollback
  import opened HookFacts
  import opened Hooks
  import opened HookRoundTrip
  import opened HookStacks
  import opened HookLayers

  /** An attach: the code `w` at `target`, and the two bytes after it. */
  datatype Layer = Layer(pointer: int, target: Dword, detour: Dword, sys: Answers, w: seq<Byte>, tail: seq<Byte>)

  datatype Step = Put(layer: Layer) | Take(pointer: int, detour: Dword)

  /** What there is before the first step: the pool, the regions that the system will map, and the pointers. */
  datatype Scene = Scene(t: Tables, regions: seq<Region>, grants: set<Dword>, pointers: map<int, Dword>)

  function HookOf(l: Layer): Hook { Hook(0, l.target, l.w, l.detour, false) }

  /** Hooks that write the same. */
  predicate Same(g: Hook, h: Hook)
  {
    g.target == h.target && g.saved == h.saved && g.detour == h.detour
  }

  lemma SameWrites(c: seq<Byte>, g: Hook, h: Hook)
    requires Same(g, h)
    ensures On(c, g) == On(c, h) && Off(c, g) == Off(c, h)
  {
    hide Overwrite, Jmp, Brks;
  }

  // ---------------------------------------------------------------- what a list of steps needs

  /** The byte at `i` is not memory of the pool, and will not be. */
  ghost predicate Away(s: Scene, i: int)
  {
    !InPool(s.regions, i) && forall g | g in s.grants :: i < g || g + 0x1_0000 <= i
  }

  ghost predicate AllAway(s: Scene, lo: nat, hi: nat)
  {
    forall i: int | lo <= i < hi :: Away(s, i)
  }

  /** A pointer to code that starts with no short jump leads to that code. */
  ghost predicate Direct(s: Scene, c: seq<Byte>, p: Dword)
  {
    p != 0 && p + 6 <= |c| && c[p] != 0xeb && Away(s, p)
  }

  /** The code of the layer is there, hooked already or not: whole instructions that the tables know. */
  ghost predicate LayerOk(s: Scene, c: seq<Byte>, l: Layer)
    requires WellFormed(s.t)
  {
    && |l.tail| == 2 && Window(s.t, l.w, 0) && AllKnown(s.t, l.w) && l.target + |l.w| < 0x1_0000_0000
    && l.target + |l.w| + 2 <= |c| && c[l.target..l.target + |l.w| + 2] == l.w + l.tail
    && AllAway(s, l.target, l.target + |l.w| + 2)
    && Direct(s, c, l.target) && Direct(s, c, l.detour) && !l.sys.targetImported && !l.sys.detourImported
    && l.pointer in s.pointers && s.pointers[l.pointer] == l.target
  }

  /** Each step fits the code `c` that the ones before it have left: an attach is through a pointer that is not in use,
      to code as above; a detach is of a hook in place.  No region is granted twice. */
  ghost predicate Ready(s: Scene, c: seq<Byte>, left: set<Dword>, on: map<int, Hook>, steps: seq<Step>)
    requires WellFormed(s.t)
    decreases |steps|
  {
    |steps| > 0 ==>
      match steps[0]
      case Put(l) =>
        && l.pointer !in on && LayerOk(s, c, l) && (l.sys.grant != 0 ==> l.sys.grant in left)
        && Ready(s, On(c, HookOf(l)), left - {l.sys.grant}, on[l.pointer := HookOf(l)], steps[1..])
      case Take(p, detour) =>
        && p in on && on[p].detour == detour && Direct(s, c, detour)
        && Ready(s, Off(c, on[p]), left, on - {p}, steps[1..])
  }

  lemma ReadyStep(s: Scene, c: seq<Byte>, left: set<Dword>, on: map<int, Hook>, steps: seq<Step>)
    requires WellFormed(s.t) && Ready(s, c, left, on, steps) && |steps| > 0
    ensures steps[0].Put? ==>
              var l := steps[0].layer;
              && l.pointer !in on && LayerOk(s, c, l) && (l.sys.grant != 0 ==> l.sys.grant in left)
              && Ready(s, On(c, HookOf(l)), left - {l.sys.grant}, on[l.pointer := HookOf(l)], steps[1..])
    ensures steps[0].Take? ==>
              var p := steps[0].pointer;
              && p in on && on[p].detour == steps[0].detour && Direct(s, c, steps[0].detour)
              && Ready(s, Off(c, on[p]), left, on - {p}, steps[1..])
  {
    hide LayerOk, Direct, On, Off;
  }

  // ---------------------------------------------------------------- what holds between the steps

  ghost predicate GrantFree(regions: seq<Region>, g: Dword)
  {
    forall i: int | g <= i < g + 0x1_0000 :: !InPool(regions, i)
  }

  /** The regions that are still to be mapped are free memory, and the pool has not come near any code. */
  ghost predicate PoolOk(s: Scene, size: nat, regions: seq<Region>, left: set<Dword>)
  {
    && left <= s.grants
    && (forall g | g in s.grants :: 0 < g <= 0xffff_0000 && g % 0x1_0000 == 0 && g + 0x1_0000 <= size)
    && (forall i: int | Away(s, i) :: !InPool(regions, i))
    && (forall g | g in left :: GrantFree(regions, g))
  }

  /** The hook `h` is in place of `g`, at the pointer `p`. */
  ghost predicate InPlace(s: Scene, m: seq<Byte>, regions: seq<Region>, pointers: map<int, Dword>, p: int, g: Hook,
                          h: Hook)
    requires WellFormed(s.t)
  {
    && Serves(s.t, m, regions, h) && Same(h, g) && p in pointers && pointers[p] == h.trampoline
    && p in s.pointers && s.pointers[p] == h.target && AllAway(s, h.target, h.target + h.Size())
  }

  ghost predicate Held(s: Scene, m: seq<Byte>, regions: seq<Region>, pointers: map<int, Dword>, on: map<int, Hook>,
                       held: map<int, Hook>)
    requires WellFormed(s.t)
  {
    && held.Keys == on.Keys
    && (forall p | p in held :: InPlace(s, m, regions, pointers, p, on[p], held[p]))
    && (forall p, q | p in held && q in held && p != q :: held[p].trampoline != held[q].trampoline)
    && (forall p | p in s.pointers && p !in held :: p in pointers && pointers[p] == s.pointers[p])
  }

  predicate Used(held: map<int, Hook>, x: Dword)
  {
    exists p | p in held :: held[p].trampoline == x
  }

  /** The trampolines in use are those from before the first step, and those of the hooks in place. */
  ghost predicate LiveOk(s: Scene, regions: seq<Region>, held: map<int, Hook>)
  {
    && (forall x: Dword :: IsLive(regions, x) <==> IsLive(s.regions, x) || Used(held, x))
    && (forall p | p in held :: !IsLive(s.regions, held[p].trampoline))
  }

  ghost predicate Running(s: Scene, m: seq<Byte>, regions: seq<Region>, pointers: map<int, Dword>, c: seq<Byte>,
                          left: set<Dword>, on: map<int, Hook>, held: map<int, Hook>)
    requires WellFormed(s.t)
  {
    && OutsideKept(c, m, regions) && PoolOk(s, |m|, regions, left) && Held(s, m, regions, pointers, on, held)
    && LiveOk(s, regions, held)
  }

  lemma AwayFromGrant(s: Scene, size: nat, regions: seq<Region>, left: set<Dword>, lo: nat, hi: nat, g: Dword)
    requires PoolOk(s, size, regions, left) && AllAway(s, lo, hi) && lo < hi && g in s.grants
    ensures hi <= g || g + 0x1_0000 <= lo
  {
    hide InPool, GrantFree;
    var atLo, atG := Away(s, lo), Away(s, g);
  }

  lemma DirectThere(s: Scene, c: seq<Byte>, m: seq<Byte>, regions: seq<Region>, left: set<Dword>, p: Dword)
    requires OutsideKept(c, m, regions) && PoolOk(s, |m|, regions, left) && Direct(s, c, p)
    ensures p != 0 && CanSkip(m, p, false) && SkipJmp(m, p, false) == p
  {
    hide InPool, GrantFree;
  }

  /** The code of the layer is in memory, where it can be attached to. */
  lemma LayerThere(s: Scene, c: seq<Byte>, m: seq<Byte>, regions: seq<Region>, left: set<Dword>, l: Layer)
    requires WellFormed(s.t) && OutsideKept(c, m, regions) && PoolOk(s, |m|, regions, left) && LayerOk(s, c, l)
    requires l.sys.grant != 0 ==> l.sys.grant in left
    ensures Attachable(s.t, m, regions, l.target, l.w, l.tail, l.sys.grant)
    ensures WindowOutside(regions, Ahead(l.target, l.w, l.tail))
  {
    hide InPool, WellFormed, Window, AllKnown, GrantFree, HasBase, Away, Direct, IsLive, SlotStart;
    var lo, hi, g := l.target, l.target + |l.w| + 2, l.sys.grant;
    forall i: int | lo <= i < hi
      ensures !InPool(regions, i) && m[i] == c[i]
    {
      assert Away(s, i);
    }
    assert m[lo..hi] == c[lo..hi];
    if g != 0 {
      AwayFromGrant(s, |m|, regions, left, lo, hi, g);
      NotMapped(regions, g);
      assert GrantFree(regions, g);
    }
  }

  lemma NotMapped(regions: seq<Region>, g: Dword)
    ensures GrantFree(regions, g) ==> !HasBase(regions, g)
  {
    hide InPool, HasBase;
    if HasBase(regions, g) {
      BaseInPool(regions, g);
      assert InPool(regions, g);
    }
  }

  /** Mapping a region that was granted leaves the other grants free, and all code outside the pool. */
  lemma PoolStays(s: Scene, size: nat, before: seq<Region>, after: seq<Region>, left: set<Dword>, grant: Dword)
    requires PoolOk(s, size, before, left) && Covers(after, before, grant) && (grant != 0 ==> grant in left)
    ensures PoolOk(s, size, after, left - {grant})
  {
    hide InPool;
    forall i: int | Away(s, i)
      ensures !InPool(after, i)
    {
      assert !InPool(before, i);
    }
    forall g | g in left - {grant}
      ensures GrantFree(after, g)
    {
      assert GrantFree(before, g);
      forall i: int | g <= i < g + 0x1_0000
        ensures !InPool(after, i)
      {
        assert !InPool(before, i);
        if grant != 0 && grant <= i < grant + 0x1_0000 {
          SameBlock(g, grant, i);
        }
      }
    }
  }

  lemma SameBlock(g: Dword, h: Dword, i: int)
    requires g % 0x1_0000 == 0 && h % 0x1_0000 == 0 && g <= i < g + 0x1_0000 && h <= i < h + 0x1_0000
    ensures g == h
  {
  }

  /** Every pointer without a hook is as before the first step, and so is the use of trampolines but for the hooks. */
  ghost predicate EndOk(s: Scene, regions: seq<Region>, pointers: map<int, Dword>, held: map<int, Hook>)
  {
    && (forall p | p in s.pointers && p !in held :: p in pointers && pointers[p] == s.pointers[p])
    && LiveOk(s, regions, held)
  }

  lemma AtEnd(s: Scene, m: seq<Byte>, regions: seq<Region>, pointers: map<int, Dword>, c: seq<Byte>, left: set<Dword>,
              on: map<int, Hook>, held: map<int, Hook>)
    requires WellFormed(s.t) && Running(s, m, regions, pointers, c, left, on, held)
    ensures EndOk(s, regions, pointers, held) && OutsideKept(c, m, regions)
  {
    hide WellFormed, OutsideKept, PoolOk, LiveOk, InPlace;
  }

  // ---------------------------------------------------------------- one step

  /** A hook has come into place, and the others are still there. */
  lemma HeldMore(s: Scene, m0: seq<Byte>, r0: seq<Region>, p0: map<int, Dword>, left: set<Dword>, on: map<int, Hook>,
                 held: map<int, Hook>, m: seq<Byte>, regions: seq<Region>, l: Layer, h: Hook)
    requires WellFormed(s.t) && Held(s, m0, r0, p0, on, held) && PoolOk(s, |m0|, r0, left)
    requires l.pointer !in held && Same(h, HookOf(l)) && l.pointer in s.pointers && s.pointers[l.pointer] == h.target
    requires Serves(s.t, m, regions, h) && !IsLive(r0, h.trampoline) && AllAway(s, h.target, h.target + h.Size())
    requires l.sys.grant != 0 ==> l.sys.grant in left
    requires forall g | Serves(s.t, m0, r0, g) && GrantClear(l.sys.grant, g) :: Serves(s.t, m, regions, g)
    ensures Held(s, m, regions, p0[l.pointer := h.trampoline], on[l.pointer := HookOf(l)], held[l.pointer := h])
  {
    hide Serves, AllAway, WellFormed, IsLive, GrantClear;
    forall p | p in held
      ensures Serves(s.t, m, regions, held[p]) && held[p].trampoline != h.trampoline
    {
      assert InPlace(s, m0, r0, p0, p, on[p], held[p]);
      ServedAway(s, m0, r0, left, l.sys.grant, held[p]);
    }
    var all, now, pointers := held[l.pointer := h], on[l.pointer := HookOf(l)], p0[l.pointer := h.trampoline];
    forall p | p in all
      ensures InPlace(s, m, regions, pointers, p, now[p], all[p])
    {
      assert p != l.pointer ==> InPlace(s, m0, r0, p0, p, on[p], held[p]);
    }
  }

  lemma ServedAway(s: Scene, m: seq<Byte>, regions: seq<Region>, left: set<Dword>, grant: Dword, h: Hook)
    requires WellFormed(s.t) && Serves(s.t, m, regions, h) && AllAway(s, h.target, h.target + h.Size())
    requires PoolOk(s, |m|, regions, left) && (grant != 0 ==> grant in left)
    ensures GrantClear(grant, h) && IsLive(regions, h.trampoline)
  {
    hide WellFormed, IsLive, WindowOutside, TrampolineOk, AllAway, PoolOk;
    ServesSize(s.t, m, regions, h);
    if grant != 0 {
      LeftGrants(s, |m|, regions, left, grant);
      AwayFromGrant(s, |m|, regions, left, h.target, h.target + h.Size(), grant);
    }
  }

  lemma LeftGrants(s: Scene, size: nat, regions: seq<Region>, left: set<Dword>, grant: Dword)
    requires PoolOk(s, size, regions, left)
    ensures (grant in left ==> grant in s.grants) && 0 !in left
  {
    hide GrantFree, Away, InPool;
    assert 0 in left ==> 0 in s.grants;
  }

  lemma ServesSize(t: Tables, m: seq<Byte>, regions: seq<Region>, h: Hook)
    requires WellFormed(t) && Serves(t, m, regions, h)
    ensures 5 <= h.Size()
  {
    hide IsLive, WindowOutside, WellFormed, Moved, AllKnown, Jmp, Fill, Window, DwordAt;
  }

  /** The first step of a list, when it is an attach.  Committed, it fails only if it is refused. */
  method PutOne(d: Detours, caller: int, l: Layer, ghost s: Scene, ghost c: seq<Byte>, ghost left: set<Dword>,
                ghost on: map<int, Hook>, ghost held: map<int, Hook>)
    returns (ok: bool, ghost h: Hook)
    requires d.Valid() && d.owner == 0 && caller != 0 && s.t == d.tables && WellFormed(s.t)
    requires Running(s, d.mem[..], d.pool.regions, d.pointers, c, left, on, held)
    requires l.pointer !in on && LayerOk(s, c, l) && (l.sys.grant != 0 ==> l.sys.grant in left)
    modifies d, d.mem, d.pool
    ensures d.Valid() && d.owner == 0 && Same(h, HookOf(l)) && |l.tail| == 2
    ensures TrampolineGiven(old(d.pool.regions), l.target, l.detour, l.sys, h.trampoline)
    ensures ok == d.Succeeds(l.target, l.detour, l.sys, l.w, l.tail, h.trampoline)
    ensures OutsideKept(if ok then On(c, h) else c, d.mem[..], d.pool.regions)
    ensures d.pointers == if ok then old(d.pointers)[l.pointer := h.trampoline] else old(d.pointers)
    ensures ok ==>
              && 5 <= h.Size() && d.pool.regions == Taking(old(d.pool.regions), l.sys.grant, h)
              && Running(s, d.mem[..], d.pool.regions, d.pointers, On(c, h), left - {l.sys.grant},
                         on[l.pointer := HookOf(l)], held[l.pointer := h])
  {
    hide Held, PoolOk, LiveOk, LayerOk, OutsideKept, On, Off, RegionList, DistinctBases, HasBase, WellFormed,
      Attachable, CanSkip, SkipJmp, Movable, TrampolineGiven, Taking, Covers, Detours.Valid, IsLive, Serves,
      WindowOutside, AllKnown, Patch, GrantClear, Detours.Succeeds;
    ghost var m, regions, pointers := d.mem[..], d.pool.regions, d.pointers;
    PutReady(s, m, regions, pointers, c, left, on, held, l);
    ok, h := HookOnce(d, caller, l.pointer, l.detour, l.sys, l.w, l.tail);
    PoolOf(d);
    PutDone(s, m, regions, pointers, c, left, on, held, l, h, ok, d.mem[..], d.pool.head, d.pool.regions);
  }

  lemma PutReady(s: Scene, m: seq<Byte>, regions: seq<Region>, pointers: map<int, Dword>, c: seq<Byte>,
                 left: set<Dword>, on: map<int, Hook>, held: map<int, Hook>, l: Layer)
    requires WellFormed(s.t) && Running(s, m, regions, pointers, c, left, on, held)
    requires l.pointer !in on && LayerOk(s, c, l) && (l.sys.grant != 0 ==> l.sys.grant in left)
    ensures l.pointer in pointers && pointers[l.pointer] == l.target != 0
    ensures CanSkip(m, l.target, l.sys.targetImported) && SkipJmp(m, l.target, l.sys.targetImported) == l.target
    ensures CanSkip(m, l.detour, l.sys.detourImported) && SkipJmp(m, l.detour, l.sys.detourImported) == l.detour
    ensures Attachable(s.t, m, regions, l.target, l.w, l.tail, l.sys.grant) && AllKnown(s.t, l.w) && |l.tail| == 2
    ensures WindowOutside(regions, Ahead(l.target, l.w, l.tail)) && AllAway(s, l.target, l.target + |l.w|)
    ensures !l.sys.targetImported && !l.sys.detourImported
  {
    hide OutsideKept, PoolOk, LiveOk, InPlace, Attachable, CanSkip, SkipJmp, WindowOutside, WellFormed, Window,
      AllKnown, Direct, Away;
    LayerThere(s, c, m, regions, left, l);
    DirectThere(s, c, m, regions, left, l.target);
    DirectThere(s, c, m, regions, left, l.detour);
  }

  lemma PutDone(s: Scene, m0: seq<Byte>, r0: seq<Region>, p0: map<int, Dword>, c: seq<Byte>, left: set<Dword>,
                on: map<int, Hook>, held: map<int, Hook>, l: Layer, h: Hook, ok: bool, m: seq<Byte>, head: Dword,
                regions: seq<Region>)
    requires WellFormed(s.t) && Running(s, m0, r0, p0, c, left, on, held) && RegionList(m, head, regions)
    requires l.pointer !in on && LayerOk(s, c, l) && (l.sys.grant != 0 ==> l.sys.grant in left) && Same(h, HookOf(l))
    requires Covers(regions, r0, l.sys.grant) && OutsideKept(if ok then On(m0, h) else m0, m, regions)
    requires ok ==> Serves(s.t, m, regions, h) && !IsLive(r0, h.trampoline)
    requires forall x: Dword :: IsLive(regions, x) <==> IsLive(r0, x) || (ok && x == h.trampoline)
    requires forall g | Serves(s.t, m0, r0, g) && GrantClear(l.sys.grant, g) :: Serves(s.t, m, regions, g)
    ensures OutsideKept(if ok then On(c, h) else c, m, regions)
    ensures ok ==>
              && 5 <= h.Size()
              && Running(s, m, regions, p0[l.pointer := h.trampoline], On(c, h), left - {l.sys.grant},
                         on[l.pointer := HookOf(l)], held[l.pointer := h])
  {
    hide Held, PoolOk, LiveOk, InPlace, OutsideKept, WellFormed, RegionList, Covers, On, Serves, IsLive, GrantClear,
      InPool, LayerOk, AllAway;
    KeptCovered(c, m0, r0, l.sys.grant, h, ok, m, regions);
    if ok {
      LayerPlace(s, c, l);
      OnKeys(s, m0, r0, p0, on, held);
      HeldMore(s, m0, r0, p0, left, on, held, m, regions, l, h);
      SameSize(m0, h, m, regions);
      PoolStays(s, |m0|, r0, regions, left, l.sys.grant);
      LiveMore(s, r0, held, regions, l.pointer, h);
      ServesParts(s.t, m, head, regions, h);
    }
  }

  lemma LiveMore(s: Scene, r0: seq<Region>, held: map<int, Hook>, regions: seq<Region>, p: int, h: Hook)
    requires LiveOk(s, r0, held) && p !in held && !IsLive(r0, h.trampoline)
    requires forall x: Dword :: IsLive(regions, x) <==> IsLive(r0, x) || x == h.trampoline
    ensures LiveOk(s, regions, held[p := h])
  {
    hide IsLive;
    forall x: Dword
      ensures Used(held[p := h], x) <==> Used(held, x) || x == h.trampoline
    {
      if Used(held, x) {
        var q :| q in held && held[q].trampoline == x;
        assert held[p := h][q].trampoline == x;
      }
      if x == h.trampoline {
        assert held[p := h][p].trampoline == x;
      }
    }
  }

  lemma LiveLess(s: Scene, r0: seq<Region>, held: map<int, Hook>, regions: seq<Region>, p: int)
    requires LiveOk(s, r0, held) && p in held
    requires forall q | q in held && q != p :: held[q].trampoline != held[p].trampoline
    requires forall x: Dword :: IsLive(regions, x) <==> IsLive(r0, x) && x != held[p].trampoline
    ensures LiveOk(s, regions, held - {p})
  {
    hide IsLive;
    forall x: Dword
      ensures Used(held - {p}, x) <==> Used(held, x) && x != held[p].trampoline
    {
      if Used(held, x) && x != held[p].trampoline {
        var q :| q in held && held[q].trampoline == x;
        assert (held - {p})[q].trampoline == x;
      }
    }
  }

  lemma SameSize(m0: seq<Byte>, h: Hook, m: seq<Byte>, regions: seq<Region>)
    requires OutsideKept(On(m0, h), m, regions) || OutsideKept(Off(m0, h), m, regions)
    ensures |m| == |m0|
  {
    hide On, Off;
  }

  lemma OnKeys(s: Scene, m: seq<Byte>, regions: seq<Region>, pointers: map<int, Dword>, on: map<int, Hook>,
               held: map<int, Hook>)
    requires WellFormed(s.t) && Held(s, m, regions, pointers, on, held)
    ensures forall p :: p in on <==> p in held
  {
    hide InPlace, WellFormed;
    assert forall p :: p in on <==> p in on.Keys;
  }

  lemma LayerPlace(s: Scene, c: seq<Byte>, l: Layer)
    requires WellFormed(s.t) && LayerOk(s, c, l)
    ensures l.pointer in s.pointers && s.pointers[l.pointer] == l.target
    ensures AllAway(s, l.target, l.target + |l.w|)
  {
    hide Away, Direct, Window, AllKnown, WellFormed;
  }

  lemma KeptCovered(c: seq<Byte>, m0: seq<Byte>, r0: seq<Region>, grant: Dword, h: Hook, ok: bool, m: seq<Byte>,
                    regions: seq<Region>)
    requires OutsideKept(c, m0, r0) && Covers(regions, r0, grant)
    requires OutsideKept(if ok then On(m0, h) else m0, m, regions)
    ensures OutsideKept(if ok then On(c, h) else c, m, regions)
  {
    hide InPool, On;
    assert forall i: int :: InPool(r0, i) ==> InPool(regions, i);
    if ok {
      KeptOn(c, m0, r0, h, m, regions);
    } else {
      forall i | 0 <= i < |m| && !InPool(regions, i)
        ensures m[i] == c[i]
      {
        assert !InPool(r0, i);
      }
    }
  }

  /** The first step of a list, when it is a detach. */
  method TakeOne(d: Detours, caller: int, p: int, ghost s: Scene, ghost c: seq<Byte>, ghost left: set<Dword>,
                 ghost on: map<int, Hook>, ghost held: map<int, Hook>, detour: Dword)
    returns (ghost h: Hook)
    requires d.Valid() && d.owner == 0 && caller != 0 && s.t == d.tables && WellFormed(s.t)
    requires Running(s, d.mem[..], d.pool.regions, d.pointers, c, left, on, held)
    requires p in on && Direct(s, c, on[p].detour) && detour == on[p].detour
    modifies d, d.mem, d.pool
    ensures d.Valid() && d.owner == 0 && p in held && h == held[p] && Same(h, on[p])
    ensures d.pool.regions == AfterFree(old(d.pool.regions), h.trampoline)
    ensures d.pointers == old(d.pointers)[p := h.target]
    ensures Running(s, d.mem[..], d.pool.regions, d.pointers, Off(c, h), left, on - {p}, held - {p})
  {
    hide Held, PoolOk, LiveOk, OutsideKept, On, Off, RegionList, DistinctBases, HasBase, WellFormed, CanSkip, SkipJmp,
      Covers, Detours.Valid, IsLive, Serves, WindowOutside, Patch, AfterFree, Direct;
    ghost var m, regions, pointers := d.mem[..], d.pool.regions, d.pointers;
    OnKeys(s, m, regions, pointers, on, held);
    h := held[p];
    TakeReady(s, m, regions, pointers, c, left, on, held, p);
    UnhookOnce(d, caller, p, detour, h);
    TakeDone(s, m, regions, pointers, c, left, on, held, p, d.mem[..], d.pool.regions);
  }

  lemma TakeReady(s: Scene, m: seq<Byte>, regions: seq<Region>, pointers: map<int, Dword>, c: seq<Byte>,
                  left: set<Dword>, on: map<int, Hook>, held: map<int, Hook>, p: int)
    requires WellFormed(s.t) && Running(s, m, regions, pointers, c, left, on, held)
    requires p in on && p in held && Direct(s, c, on[p].detour)
    ensures Serves(s.t, m, regions, held[p]) && p in pointers && pointers[p] == held[p].trampoline != 0
    ensures Same(held[p], on[p]) && CanSkip(m, held[p].detour, false)
    ensures SkipJmp(m, held[p].detour, false) == held[p].detour
  {
    hide OutsideKept, PoolOk, LiveOk, Serves, CanSkip, SkipJmp, WellFormed, Direct, AllAway, IsLive;
    assert InPlace(s, m, regions, pointers, p, on[p], held[p]);
    DirectThere(s, c, m, regions, left, on[p].detour);
    ServesLive(s.t, m, regions, held[p]);
    LiveNotNull(regions, held[p].trampoline);
  }

  lemma ServesLive(t: Tables, m: seq<Byte>, regions: seq<Region>, h: Hook)
    requires WellFormed(t) && Serves(t, m, regions, h)
    ensures IsLive(regions, h.trampoline)
  {
    hide IsLive, WindowOutside, TrampolineOk, WellFormed;
  }

  lemma TakeDone(s: Scene, m0: seq<Byte>, r0: seq<Region>, p0: map<int, Dword>, c: seq<Byte>, left: set<Dword>,
                 on: map<int, Hook>, held: map<int, Hook>, p: int, m: seq<Byte>, regions: seq<Region>)
    requires WellFormed(s.t) && Running(s, m0, r0, p0, c, left, on, held) && p in held && p in on
    requires Covers(regions, r0, 0) && OutsideKept(Off(m0, held[p]), m, regions)
    requires forall g | Serves(s.t, m0, r0, g) && g.trampoline != held[p].trampoline :: Serves(s.t, m, regions, g)
    requires forall x: Dword :: IsLive(regions, x) <==> IsLive(r0, x) && x != held[p].trampoline
    ensures Running(s, m, regions, p0[p := held[p].target], Off(c, held[p]), left, on - {p}, held - {p})
  {
    hide Held, PoolOk, LiveOk, InPlace, OutsideKept, WellFormed, On, Off, Serves, InPool, IsLive;
    KeptOff(c, m0, r0, held[p], m, regions);
    SameSize(m0, held[p], m, regions);
    PoolStays(s, |m0|, r0, regions, left, 0);
    LeftGrants(s, |m0|, r0, left, 0);
    assert left - {0} == left;
    HeldLess(s, m0, r0, p0, on, held, p, m, regions);
    LiveLess(s, r0, held, regions, p);
  }

  lemma HeldLess(s: Scene, m0: seq<Byte>, r0: seq<Region>, p0: map<int, Dword>, on: map<int, Hook>,
                 held: map<int, Hook>, p: int, m: seq<Byte>, regions: seq<Region>)
    requires WellFormed(s.t) && Held(s, m0, r0, p0, on, held) && p in held
    requires forall g | Serves(s.t, m0, r0, g) && g.trampoline != held[p].trampoline :: Serves(s.t, m, regions, g)
    ensures Held(s, m, regions, p0[p := held[p].target], on - {p}, held - {p})
    ensures forall q | q in held && q != p :: held[q].trampoline != held[p].trampoline
  {
    hide Serves, AllAway, WellFormed;
    var all, now, pointers := held - {p}, on - {p}, p0[p := held[p].target];
    assert InPlace(s, m0, r0, p0, p, on[p], held[p]);
    forall q | q in all
      ensures InPlace(s, m, regions, pointers, q, now[q], all[q])
    {
      assert InPlace(s, m0, r0, p0, q, on[q], held[q]);
    }
  }

  // ---------------------------------------------------------------- a list of steps

  /** What the steps write; `hs` are the hooks that they put on or take off. */
  function Written(c: seq<Byte>, steps: seq<Step>, hs: seq<Hook>): (r: seq<Byte>)
    requires |steps| == |hs|
    ensures |r| == |c|
    decreases |steps|
  {
    if |steps| == 0 then c else Written(if steps[0].Put? then On(c, hs[0]) else Off(c, hs[0]), steps[1..], hs[1..])
  }

  /** The regions after the steps. */
  function RegionsAfter(regions: seq<Region>, steps: seq<Step>, hs: seq<Hook>): seq<Region>
    requires |steps| == |hs|
    decreases |steps|
  {
    if |steps| == 0 then regions
    else
      RegionsAfter(if steps[0].Put? then Taking(regions, steps[0].layer.sys.grant, hs[0])
                   else AfterFree(regions, hs[0].trampoline), steps[1..], hs[1..])
  }

  /** The hooks in place after the steps. */
  function HeldAfter(held: map<int, Hook>, steps: seq<Step>, hs: seq<Hook>): map<int, Hook>
    requires |steps| == |hs|
    decreases |steps|
  {
    if |steps| == 0 then held
    else
      HeldAfter(if steps[0].Put? then held[steps[0].layer.pointer := hs[0]] else held - {steps[0].pointer}, steps[1..],
                hs[1..])
  }

  /** An attach puts on a hook of its layer; a detach takes off the hook that is in place at its pointer. */
  predicate Tracks(held: map<int, Hook>, steps: seq<Step>, hs: seq<Hook>)
    decreases |steps|
  {
    && |steps| == |hs|
    && (|steps| > 0 ==>
          match steps[0]
          case Put(l) =>
            && l.pointer !in held && Same(hs[0], HookOf(l)) && 5 <= hs[0].Size()
            && Tracks(held[l.pointer := hs[0]], steps[1..], hs[1..])
          case Take(p, _) => p in held && hs[0] == held[p] && Tracks(held - {p}, steps[1..], hs[1..]))
  }

  lemma NoSteps(c: seq<Byte>, regions: seq<Region>, held: map<int, Hook>)
    ensures Written(c, [], []) == c && RegionsAfter(regions, [], []) == regions && HeldAfter(held, [], []) == held
    ensures Tracks(held, [], [])
  {
  }

  lemma FirstPut(c: seq<Byte>, regions: seq<Region>, held: map<int, Hook>, steps: seq<Step>, h: Hook, hs: seq<Hook>)
    requires |steps| == |hs| + 1 && steps[0].Put?
    ensures Written(c, steps, [h] + hs) == Written(On(c, h), steps[1..], hs)
    ensures RegionsAfter(regions, steps, [h] + hs) ==
            RegionsAfter(Taking(regions, steps[0].layer.sys.grant, h), steps[1..], hs)
    ensures var p := steps[0].layer.pointer;
            && HeldAfter(held, steps, [h] + hs) == HeldAfter(held[p := h], steps[1..], hs)
            && (p !in held && Same(h, HookOf(steps[0].layer)) && 5 <= h.Size() && Tracks(held[p := h], steps[1..], hs)
                ==> Tracks(held, steps, [h] + hs))
  {
    hide On, Taking;
    assert ([h] + hs)[1..] == hs;
  }

  lemma FirstTake(c: seq<Byte>, regions: seq<Region>, held: map<int, Hook>, steps: seq<Step>, h: Hook, hs: seq<Hook>)
    requires |steps| == |hs| + 1 && steps[0].Take?
    ensures Written(c, steps, [h] + hs) == Written(Off(c, h), steps[1..], hs)
    ensures RegionsAfter(regions, steps, [h] + hs) == RegionsAfter(AfterFree(regions, h.trampoline), steps[1..], hs)
    ensures var p := steps[0].pointer;
            && HeldAfter(held, steps, [h] + hs) == HeldAfter(held - {p}, steps[1..], hs)
            && (p in held && h == held[p] && Tracks(held - {p}, steps[1..], hs) ==> Tracks(held, steps, [h] + hs))
  {
    hide Off, AfterFree;
    assert ([h] + hs)[1..] == hs;
  }

  /** The attach is refused: there is no trampoline for it, or the code does not fit one, or the system says no. */
  ghost predicate Refused(d: Detours, regions: seq<Region>, step: Step, a: Dword)
    requires WellFormed(d.tables)
    reads d
  {
    && step.Put? && |step.layer.tail| == 2
    && var l := step.layer;
       && TrampolineGiven(regions, l.target, l.detour, l.sys, a)
       && !d.Succeeds(l.target, l.detour, l.sys, l.w, l.tail, a)
  }

  /** Work off a list of attaches and detaches, each in a transaction of its own, up to the first attach that is
      refused. */
  method RunSteps(d: Detours, caller: int, steps: seq<Step>, ghost s: Scene, ghost c: seq<Byte>,
                  ghost left: set<Dword>, ghost on: map<int, Hook>, ghost held: map<int, Hook>)
    returns (ok: bool, ghost hs: seq<Hook>, ghost a: Dword)
    requires d.Valid() && d.owner == 0 && caller != 0 && s.t == d.tables && WellFormed(s.t)
    requires Running(s, d.mem[..], d.pool.regions, d.pointers, c, left, on, held) && Ready(s, c, left, on, steps)
    modifies d, d.mem, d.pool
    ensures d.Valid() && d.owner == 0 && |hs| <= |steps| && (ok <==> |hs| == |steps|)
    ensures Tracks(held, steps[..|hs|], hs)
    ensures OutsideKept(Written(c, steps[..|hs|], hs), d.mem[..], d.pool.regions)
    ensures ok ==> EndOk(s, d.pool.regions, d.pointers, HeldAfter(held, steps[..|hs|], hs))
    ensures ok ==> d.pool.regions == RegionsAfter(old(d.pool.regions), steps[..|hs|], hs)
    ensures !ok ==> Refused(d, RegionsAfter(old(d.pool.regions), steps[..|hs|], hs), steps[|hs|], a)
    decreases |steps|, 1
  {
    hide Running, Ready, LayerOk, Direct, Written, RegionsAfter, HeldAfter, Tracks, EndOk, Refused, OutsideKept, On,
      Off, Detours.Valid, WellFormed, Taking, AfterFree, Same, Detours.Succeeds, TrampolineGiven;
    NoSteps(c, d.pool.regions, held);
    hs, a := [], 0;
    if steps == [] {
      AtEnd(s, d.mem[..], d.pool.regions, d.pointers, c, left, on, held);
      return true, [], 0;
    }
    ReadyStep(s, c, left, on, steps);
    if steps[0].Put? {
      ok, hs, a := RunPut(d, caller, steps, s, c, left, on, held);
    } else {
      ok, hs, a := RunTake(d, caller, steps, s, c, left, on, held);
    }
  }

  method RunPut(d: Detours, caller: int, steps: seq<Step>, ghost s: Scene, ghost c: seq<Byte>, ghost left: set<Dword>,
                ghost on: map<int, Hook>, ghost held: map<int, Hook>)
    returns (ok: bool, ghost hs: seq<Hook>, ghost a: Dword)
    requires d.Valid() && d.owner == 0 && caller != 0 && s.t == d.tables && WellFormed(s.t)
    requires Running(s, d.mem[..], d.pool.regions, d.pointers, c, left, on, held) && Ready(s, c, left, on, steps)
    requires |steps| > 0 && steps[0].Put?
    modifies d, d.mem, d.pool
    ensures d.Valid() && d.owner == 0 && |hs| <= |steps| && (ok <==> |hs| == |steps|)
    ensures Tracks(held, steps[..|hs|], hs)
    ensures OutsideKept(Written(c, steps[..|hs|], hs), d.mem[..], d.pool.regions)
    ensures ok ==> EndOk(s, d.pool.regions, d.pointers, HeldAfter(held, steps[..|hs|], hs))
    ensures ok ==> d.pool.regions == RegionsAfter(old(d.pool.regions), steps[..|hs|], hs)
    ensures !ok ==> Refused(d, RegionsAfter(old(d.pool.regions), steps[..|hs|], hs), steps[|hs|], a)
    decreases |steps|, 0
  {
    hide Running, Ready, LayerOk, Direct, Written, RegionsAfter, HeldAfter, Tracks, EndOk, Refused, OutsideKept, On,
      Off, Detours.Valid, WellFormed, Taking, AfterFree, Same, Detours.Succeeds, TrampolineGiven;
    ReadyStep(s, c, left, on, steps);
    ghost var regions, l := d.pool.regions, steps[0].layer;
    HeldKeys(s, d.mem[..], regions, d.pointers, c, left, on, held);
    ghost var h;
    ok, h := PutOne(d, caller, steps[0].layer, s, c, left, on, held);
    SameWrites(c, h, HookOf(l));
    hs, a := [], h.trampoline;
    if !ok {
      NoSteps(c, regions, held);
      IsRefused(d, regions, steps[0], a);
      return;
    }
    ghost var p, rest := l.pointer, [];
    ok, rest, a := RunSteps(d, caller, steps[1..], s, On(c, h), left - {l.sys.grant}, on[p := HookOf(l)], held[p := h]);
    hs := [h] + rest;
    Prefix(steps, |hs|);
    FirstPut(c, regions, held, steps[..|hs|], h, rest);
  }

  lemma Prefix(steps: seq<Step>, n: nat)
    requires 0 < n <= |steps|
    ensures steps[..n][0] == steps[0] && steps[..n][1..] == steps[1..][..n - 1]
    ensures n < |steps| ==> steps[n] == steps[1..][n - 1]
  {
  }

  lemma IsRefused(d: Detours, regions: seq<Region>, step: Step, a: Dword)
    requires WellFormed(d.tables) && step.Put? && |step.layer.tail| == 2
    requires var l := step.layer;
             && TrampolineGiven(regions, l.target, l.detour, l.sys, a)
             && !d.Succeeds(l.target, l.detour, l.sys, l.w, l.tail, a)
    ensures Refused(d, regions, step, a)
  {
    hide TrampolineGiven, WellFormed, Detours.Succeeds;
  }

  lemma HeldKeys(s: Scene, m: seq<Byte>, regions: seq<Region>, pointers: map<int, Dword>, c: seq<Byte>,
                 left: set<Dword>, on: map<int, Hook>, held: map<int, Hook>)
    requires WellFormed(s.t) && Running(s, m, regions, pointers, c, left, on, held)
    ensures forall p :: p in on <==> p in held
  {
    hide Held, WellFormed, OutsideKept, PoolOk, LiveOk;
    OnKeys(s, m, regions, pointers, on, held);
  }

  method RunTake(d: Detours, caller: int, steps: seq<Step>, ghost s: Scene, ghost c: seq<Byte>, ghost left: set<Dword>,
                 ghost on: map<int, Hook>, ghost held: map<int, Hook>)
    returns (ok: bool, ghost hs: seq<Hook>, ghost a: Dword)
    requires d.Valid() && d.owner == 0 && caller != 0 && s.t == d.tables && WellFormed(s.t)
    requires Running(s, d.mem[..], d.pool.regions, d.pointers, c, left, on, held) && Ready(s, c, left, on, steps)
    requires |steps| > 0 && steps[0].Take?
    modifies d, d.mem, d.pool
    ensures d.Valid() && d.owner == 0 && |hs| <= |steps| && (ok <==> |hs| == |steps|)
    ensures Tracks(held, steps[..|hs|], hs)
    ensures OutsideKept(Written(c, steps[..|hs|], hs), d.mem[..], d.pool.regions)
    ensures ok ==> EndOk(s, d.pool.regions, d.pointers, HeldAfter(held, steps[..|hs|], hs))
    ensures ok ==> d.pool.regions == RegionsAfter(old(d.pool.regions), steps[..|hs|], hs)
    ensures !ok ==> Refused(d, RegionsAfter(old(d.pool.regions), steps[..|hs|], hs), steps[|hs|], a)
    decreases |steps|, 0
  {
    hide Running, Ready, LayerOk, Direct, Written, RegionsAfter, HeldAfter, Tracks, EndOk, Refused, OutsideKept, On,
      Off, Detours.Valid, WellFormed, Taking, AfterFree, Same, Detours.Succeeds, TrampolineGiven;
    ReadyStep(s, c, left, on, steps);
    ghost var regions, p := d.pool.regions, steps[0].pointer;
    ghost var h := TakeOne(d, caller, steps[0].pointer, s, c, left, on, held, steps[0].detour);
    SameWrites(c, h, on[p]);
    ghost var rest := [];
    ok, rest, a := RunSteps(d, caller, steps[1..], s, Off(c, h), left, on - {p}, held - {p});
    hs := [h] + rest;
    Prefix(steps, |hs|);
    FirstTake(c, regions, held, steps[..|hs|], h, rest);
  }

  // ---------------------------------------------------------------- attaching all, detaching all

  function Puts(layers: seq<Layer>): (r: seq<Step>)
    ensures |r| == |layers|
  {
    if |layers| == 0 then [] else [Put(layers[0])] + Puts(layers[1..])
  }

  function Pointers(layers: seq<Layer>): seq<int>
  {
    if |layers| == 0 then [] else [layers[0].pointer] + Pointers(layers[1..])
  }

  predicate OnlyTakes(steps: seq<Step>)
  {
    |steps| > 0 ==> steps[0].Take? && OnlyTakes(steps[1..])
  }

  function Taken(steps: seq<Step>): seq<int>
    requires OnlyTakes(steps)
  {
    if |steps| == 0 then [] else [steps[0].pointer] + Taken(steps[1..])
  }

  /** The hooks in place at the pointers. */
  function At(held: map<int, Hook>, ps: seq<int>): seq<Hook>
  {
    if |ps| == 0 then [] else (if ps[0] in held then [held[ps[0]]] else []) + At(held, ps[1..])
  }

  lemma {:induction false} SameAt(g: map<int, Hook>, h: map<int, Hook>, ps: seq<int>)
    requires forall p | p in ps :: p in g && p in h && g[p] == h[p]
    ensures At(g, ps) == At(h, ps)
    decreases |ps|
  {
    if |ps| > 0 {
      var p := ps[0];
      assert p in ps;
      SameAt(g, h, ps[1..]);
      AtFirst(g, ps);
      AtFirst(h, ps);
    }
  }

  lemma {:induction false} AtSplit(held: map<int, Hook>, ps: seq<int>, qs: seq<int>)
    ensures At(held, ps + qs) == At(held, ps) + At(held, qs)
    decreases |ps|
  {
    if |ps| == 0 {
      assert ps + qs == qs;
    } else {
      assert (ps + qs)[1..] == ps[1..] + qs;
      AtSplit(held, ps[1..], qs);
    }
  }

  /** The hooks at the same pointers, in another order. */
  lemma {:induction false} Permuted(held: map<int, Hook>, ps: seq<int>, qs: seq<int>)
    requires multiset(ps) == multiset(qs)
    ensures multiset(At(held, ps)) == multiset(At(held, qs))
    decreases |ps|
  {
    hide At;
    if |ps| == 0 {
      assert ps == [] && |multiset(qs)| == 0 && qs == [];
    } else {
      assert ps[0] in multiset(qs);
      var k :| 0 <= k < |qs| && qs[k] == ps[0];
      var front, one, back := qs[..k], [qs[k]], qs[k + 1..];
      assert ps == one + ps[1..] && qs == front + one + back;
      SameRest(ps[1..], front, one, back);
      Permuted(held, ps[1..], front + back);
      AtSplit(held, one, ps[1..]);
      AtSplit(held, front + one, back);
      AtSplit(held, front, one);
      AtSplit(held, front, back);
    }
  }

  lemma SameRest(ps: seq<int>, front: seq<int>, one: seq<int>, back: seq<int>)
    requires multiset(one + ps) == multiset(front + one + back)
    ensures multiset(ps) == multiset(front + back)
  {
    var m, n, o := multiset(ps), multiset(front + back), multiset(one);
    assert multiset(one + ps) == o + m && multiset(front + one + back) == o + n;
    assert m == (o + m) - o && n == (o + n) - o;
  }

  /** Detaches write the saved code of the hooks at their pointers, and none of them stays in place. */
  lemma {:induction false} AllTaken(c: seq<Byte>, held: map<int, Hook>, steps: seq<Step>, hs: seq<Hook>)
    requires OnlyTakes(steps) && Tracks(held, steps, hs)
    ensures Written(c, steps, hs) == OffAll(c, hs) && hs == At(held, Taken(steps))
    ensures forall p | p in Taken(steps) :: p in held
    ensures forall p :: p in HeldAfter(held, steps, hs) <==> p in held && p !in Taken(steps)
    decreases |steps|
  {
    hide Off, At;
    AtFirst(held, Taken(steps));
    if |steps| > 0 {
      var p, rest := steps[0].pointer, Taken(steps[1..]);
      AllTaken(Off(c, hs[0]), held - {p}, steps[1..], hs[1..]);
      SameAt(held - {p}, held, rest);
      assert Taken(steps)[1..] == rest;
    }
  }

  lemma AtFirst(held: map<int, Hook>, ps: seq<int>)
    ensures |ps| == 0 ==> At(held, ps) == []
    ensures |ps| > 0 && ps[0] in held ==> At(held, ps) == [held[ps[0]]] + At(held, ps[1..])
  {
  }

  lemma {:induction false} AllPut(c: seq<Byte>, layers: seq<Layer>, hs: seq<Hook>)
    requires |hs| == |layers|
    ensures Written(c, Puts(layers), hs) == OnAll(c, hs)
    decreases |layers|
  {
    hide On;
    if |layers| > 0 {
      AllPut(On(c, hs[0]), layers[1..], hs[1..]);
      assert Puts(layers)[1..] == Puts(layers[1..]);
    }
  }

  /** A list of steps in two parts. */
  lemma {:induction false} TwoParts(c: seq<Byte>, held: map<int, Hook>, one: seq<Step>, two: seq<Step>, hs: seq<Hook>,
                                    ds: seq<Hook>)
    requires |one| == |hs| && Tracks(held, one + two, hs + ds)
    ensures |two| == |ds| && Tracks(held, one, hs) && Tracks(HeldAfter(held, one, hs), two, ds)
    ensures Written(c, one + two, hs + ds) == Written(Written(c, one, hs), two, ds)
    ensures HeldAfter(held, one + two, hs + ds) == HeldAfter(HeldAfter(held, one, hs), two, ds)
    decreases |one|
  {
    hide On, Off, Same;
    var steps, all := one + two, hs + ds;
    if |one| == 0 {
      assert steps == two && all == ds;
    } else {
      assert steps[0] == one[0] && steps[1..] == one[1..] + two && all[0] == hs[0] && all[1..] == hs[1..] + ds;
      var now := if one[0].Put? then held[one[0].layer.pointer := hs[0]] else held - {one[0].pointer};
      TwoParts(if one[0].Put? then On(c, hs[0]) else Off(c, hs[0]), now, one[1..], two, hs[1..], ds);
    }
  }

  /** The hooks put on are those in place at the pointers. */
  lemma {:induction false} PutAt(held: map<int, Hook>, layers: seq<Layer>, hs: seq<Hook>)
    requires Tracks(held, Puts(layers), hs)
    ensures var after := HeldAfter(held, Puts(layers), hs);
            && (forall p | p in held :: p in after && after[p] == held[p])
            && (forall p :: p in after <==> p in held || p in Pointers(layers))
            && hs == At(after, Pointers(layers))
    decreases |layers|
  {
    hide Same, At;
    var after := HeldAfter(held, Puts(layers), hs);
    AtFirst(after, Pointers(layers));
    if |layers| > 0 {
      assert Puts(layers)[1..] == Puts(layers[1..]) && Pointers(layers)[1..] == Pointers(layers[1..]);
      var l := layers[0];
      PutAt(held[l.pointer := hs[0]], layers[1..], hs[1..]);
      assert after[l.pointer] == hs[0];
    }
  }

  /** Each hook saves what it finds. */
  lemma {:induction false} PutStacked(s: Scene, c: seq<Byte>, left: set<Dword>, on: map<int, Hook>,
                                      held: map<int, Hook>, layers: seq<Layer>, more: seq<Step>, hs: seq<Hook>)
    requires WellFormed(s.t) && Ready(s, c, left, on, Puts(layers) + more) && Tracks(held, Puts(layers), hs)
    ensures Stacked(c, hs)
    decreases |layers|
  {
    hide On, LayerOk, WellFormed, Same, Fits, Ready;
    if |layers| > 0 {
      var steps, l, h := Puts(layers) + more, layers[0], hs[0];
      assert Puts(layers)[1..] == Puts(layers[1..]);
      assert steps[0] == Put(l) && steps[1..] == Puts(layers[1..]) + more;
      ReadyStep(s, c, left, on, steps);
      SameWrites(c, h, HookOf(l));
      LayerSaved(s, c, l, h);
      PutStacked(s, On(c, h), left - {l.sys.grant}, on[l.pointer := HookOf(l)], held[l.pointer := h], layers[1..],
                 more, hs[1..]);
    }
  }

  lemma LayerSaved(s: Scene, c: seq<Byte>, l: Layer, h: Hook)
    requires WellFormed(s.t) && LayerOk(s, c, l) && Same(h, HookOf(l)) && 5 <= h.Size()
    ensures Fits(c, h) && h.target + h.Size() <= |c| && c[h.target..h.target + h.Size()] == h.saved
  {
    hide WellFormed, Window, AllKnown, Away, Direct;
    assert c[l.target..l.target + |l.w|] == c[l.target..l.target + |l.w| + 2][..|l.w|];
  }

  lemma AtStart(s: Scene, m: seq<Byte>)
    requires WellFormed(s.t) && PoolOk(s, |m|, s.regions, s.grants)
    ensures Running(s, m, s.regions, s.pointers, m, s.grants, map[], map[])
  {
    hide WellFormed, PoolOk, InPlace, InPool, IsLive;
  }

  /** What all attaches and then all detaches leave. */
  lemma Finished(s: Scene, m0: seq<Byte>, layers: seq<Layer>, detaches: seq<Step>, hs: seq<Hook>, ds: seq<Hook>,
                 m: seq<Byte>, regions: seq<Region>, pointers: map<int, Dword>)
    requires WellFormed(s.t) && Ready(s, m0, s.grants, map[], Puts(layers) + detaches) && |hs| == |layers|
    requires OnlyTakes(detaches) && multiset(Taken(detaches)) == multiset(Pointers(layers))
    requires Tracks(map[], Puts(layers) + detaches, hs + ds)
    requires OutsideKept(Written(m0, Puts(layers) + detaches, hs + ds), m, regions)
    requires EndOk(s, regions, pointers, HeldAfter(map[], Puts(layers) + detaches, hs + ds))
    ensures Tracks(map[], Puts(layers[..|hs|]), hs)
    ensures Stacked(m0, hs) && multiset(ds) == multiset(hs) && OutsideKept(OffAll(OnAll(m0, hs), ds), m, regions)
    ensures EndOk(s, regions, pointers, map[])
  {
    hide Ready, WellFormed, Tracks, OutsideKept, Written, HeldAfter, EndOk, Stacked, OnAll, OffAll, At;
    var puts := Puts(layers);
    TwoParts(m0, map[], puts, detaches, hs, ds);
    AllPut(m0, layers, hs);
    PutAt(map[], layers, hs);
    var held := HeldAfter(map[], puts, hs);
    AllTaken(OnAll(m0, hs), held, detaches, ds);
    PutStacked(s, m0, s.grants, map[], map[], layers, detaches, hs);
    Permuted(held, Pointers(layers), Taken(detaches));
    var end := HeldAfter(held, detaches, ds);
    forall p
      ensures p !in end
    {
      assert p in multiset(Pointers(layers)) <==> p in multiset(Taken(detaches));
    }
    assert end == map[];
    assert layers[..|hs|] == layers;
  }

  lemma {:induction false} PrefixPuts(layers: seq<Layer>, more: seq<Step>, k: nat)
    requires k <= |layers|
    ensures (Puts(layers) + more)[..k] == Puts(layers[..k])
    ensures k < |layers| ==> (Puts(layers) + more)[k] == Put(layers[k])
    decreases |layers|
  {
    if k > 0 {
      PrefixPuts(layers[1..], more, k - 1);
      assert (Puts(layers) + more)[1..] == Puts(layers[1..]) + more;
      assert layers[..k][1..] == layers[1..][..k - 1];
      assert (Puts(layers) + more)[..k] == [Put(layers[0])] + (Puts(layers[1..]) + more)[..k - 1];
    }
  }

  lemma {:induction false} OnlyPuts(layers: seq<Layer>, more: seq<Step>, k: nat)
    requires OnlyTakes(more) && k < |layers| + |more| && (Puts(layers) + more)[k].Put?
    ensures k < |layers|
    decreases |more|
  {
    if k >= |layers| {
      NotPut(more, k - |layers|);
    }
  }

  lemma {:induction false} NotPut(steps: seq<Step>, k: nat)
    requires OnlyTakes(steps) && k < |steps|
    ensures steps[k].Take?
    decreases k
  {
    if k > 0 {
      NotPut(steps[1..], k - 1);
    }
  }

  /** Hooks have been put on one after the other, and all of them taken off in some order.  The pointers and the use of
      trampolines are as before, and so is a byte outside the pool exactly when the last hook over it to go was put on
      the code itself, or on a jump with the same byte. */
  ghost predicate CameAndWent(s: Scene, m0: seq<Byte>, hs: seq<Hook>, ds: seq<Hook>, m: seq<Byte>, regions: seq<Region>,
                              pointers: map<int, Dword>)
  {
    && Stacked(m0, hs) && multiset(ds) == multiset(hs) && OutsideKept(OffAll(OnAll(m0, hs), ds), m, regions)
    && (forall x: nat | x < |m| == |m0| && !InPool(regions, x) :: m[x] == m0[x] <==> Recovered(m0, hs, ds, x))
    && (forall p | p in s.pointers :: p in pointers && pointers[p] == s.pointers[p])
    && (forall x: Dword :: IsLive(regions, x) <==> IsLive(s.regions, x))
  }

  lemma AllGone(s: Scene, m0: seq<Byte>, hs: seq<Hook>, ds: seq<Hook>, m: seq<Byte>, regions: seq<Region>,
                pointers: map<int, Dword>)
    requires Stacked(m0, hs) && multiset(ds) == multiset(hs) && OutsideKept(OffAll(OnAll(m0, hs), ds), m, regions)
    requires EndOk(s, regions, pointers, map[])
    ensures CameAndWent(s, m0, hs, ds, m, regions, pointers)
  {
    hide Stacked, OnAll, OffAll, Recovered, IsLive, InPool;
    forall x: nat | x < |m| && !InPool(regions, x)
      ensures m[x] == m0[x] <==> Recovered(m0, hs, ds, x)
    {
      UnhookedAt(m0, hs, ds, x);
    }
  }

  /** Up to the attach that was refused, the hooks are in place. */
  lemma Stopped(m0: seq<Byte>, layers: seq<Layer>, detaches: seq<Step>, hs: seq<Hook>, m: seq<Byte>,
                regions: seq<Region>)
    requires OnlyTakes(detaches) && |hs| < |layers| + |detaches| && (Puts(layers) + detaches)[|hs|].Put?
    requires Tracks(map[], (Puts(layers) + detaches)[..|hs|], hs)
    requires OutsideKept(Written(m0, (Puts(layers) + detaches)[..|hs|], hs), m, regions)
    ensures |hs| < |layers| && (Puts(layers) + detaches)[|hs|] == Put(layers[|hs|])
    ensures (Puts(layers) + detaches)[..|hs|] == Puts(layers[..|hs|])
    ensures Tracks(map[], Puts(layers[..|hs|]), hs) && OutsideKept(OnAll(m0, hs), m, regions)
  {
    hide Tracks, OutsideKept, Written, OnAll;
    OnlyPuts(layers, detaches, |hs|);
    PrefixPuts(layers, detaches, |hs|);
    AllPut(m0, layers[..|hs|], hs);
  }

  /** Any number of attaches, and then the detaches of all of them in any order, each in a transaction of its own, up to
      the first attach that is refused. */
  method HookAndUnhook(d: Detours, caller: int, layers: seq<Layer>, detaches: seq<Step>, ghost s: Scene)
    returns (ok: bool, ghost hs: seq<Hook>, ghost ds: seq<Hook>, ghost a: Dword)
    requires d.Valid() && d.owner == 0 && caller != 0 && WellFormed(d.tables)
    requires s.t == d.tables && s.regions == d.pool.regions && s.pointers == d.pointers
    requires PoolOk(s, d.mem.Length, s.regions, s.grants)
    requires OnlyTakes(detaches) && multiset(Taken(detaches)) == multiset(Pointers(layers))
    requires Ready(s, d.mem[..], s.grants, map[], Puts(layers) + detaches)
    modifies d, d.mem, d.pool
    ensures d.Valid() && d.owner == 0 && |hs| <= |layers| && Tracks(map[], Puts(layers[..|hs|]), hs)
    ensures ok ==>
              && |hs| == |layers|
              && CameAndWent(s, old(d.mem[..]), hs, ds, d.mem[..], d.pool.regions, d.pointers)
    ensures !ok ==>
              && |hs| < |layers| && OutsideKept(OnAll(old(d.mem[..]), hs), d.mem[..], d.pool.regions)
              && Refused(d, RegionsAfter(s.regions, Puts(layers[..|hs|]), hs), Put(layers[|hs|]), a)
  {
    hide Ready, WellFormed, Tracks, OutsideKept, Written, HeldAfter, EndOk, OnAll, Running, PoolOk, RegionsAfter,
      CameAndWent, OnlyTakes, Taken, Puts, TrampolineGiven, Detours.Valid, Detours.Succeeds;
    ghost var m := d.mem[..];
    AtStart(s, m);
    var steps := Puts(layers) + detaches;
    ghost var all;
    ok, all, a := RunSteps(d, caller, steps, s, m, s.grants, map[], map[]);
    hs, ds := all, [];
    if ok {
      assert steps[..|all|] == steps;
      hs, ds := all[..|layers|], all[|layers|..];
      assert all == hs + ds;
      Finished(s, m, layers, detaches, hs, ds, d.mem[..], d.pool.regions, d.pointers);
      AllGone(s, m, hs, ds, d.mem[..], d.pool.regions, d.pointers);
    } else {
      Stopped(m, layers, detaches, hs, d.mem[..], d.pool.regions);
    }
  }
}
