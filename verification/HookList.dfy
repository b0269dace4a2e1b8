/**
 The hooks that a process has or is about to have, as ghost state: what their trampolines hold and
 what the hooked code looks like.
 */
module HookList {
  import opened Bytes
  import opened Options
  import opened Disasm
  import opened Relocation
  import opened Trampolines

  /** A hook: `saved` is the code at `target` that the trampoline took over; `on` tells whether the
      jump to the detour is in place. */
  datatype Hook = Hook(trampoline: Dword, target: Dword, saved: seq<Byte>, detour: Dword, on: bool) {
    function Size(): nat { |saved| }
  }

  const SIZE_OF_JMP: nat := 5
  const CODE_SIZE: nat := 23

  /** detour_gen_jmp_immediate: a jump at `at` to `to`. */
  function Jmp(at: Dword, to: Dword): (r: seq<Byte>)
    ensures |r| == 5
  {
    [0xe9] + DwordBytes(Wrap(to - (at + 5)))
  }

  /** The near jump at `at` leads to `to`: its operand is counted from the next instruction (JMP rel32 in Volume 2 of
      the Intel SDM). */
  predicate JumpsTo(m: seq<Byte>, at: int, to: int)
  {
    0 <= at && at + 5 <= |m| && m[at] == 0xe9 && Wrap(at + 5 + Signed(DwordAt(m, at + 1))) == to
  }

  /** A generated jump leads to where it was asked to lead. */
  lemma JmpLeads(m: seq<Byte>, at: Dword, to: Dword)
    requires at + 5 <= |m| && m[at..at + 5] == Jmp(at, to)
    ensures JumpsTo(m, at, to)
  {
    hide DwordBytes, Wrap, Signed;
    var jump, bytes := Jmp(at, to), DwordBytes(Wrap(to - (at + 5)));
    assert m[at] == m[at..at + 5][0] == 0xe9;
    assert m[at + 1..at + 5] == m[at..at + 5][1..] == bytes;
    DwordOfSlice(m, at + 1);
    DwordRoundTrip(Wrap(to - (at + 5)));
    WrapOffset(at + 5, to - (at + 5));
    WrapDword(to);
  }

  lemma DwordOfSlice(m: seq<Byte>, at: nat)
    requires at + 4 <= |m|
    ensures DwordAt(m[at..at + 4], 0) == DwordAt(m, at)
  {
  }

  lemma WrapDword(x: Dword)
    ensures Wrap(x) == x
  {
  }

  /** An input: the jump at 0x401000 to 0x501000 is E9 FB FF 0F 00. */
  lemma JmpBytes()
    ensures Jmp(0x40_1000, 0x50_1000) == [0xe9, 0xfb, 0xff, 0x0f, 0x00]
  {
  }

  /** What a hooked window holds: the jump to the detour, padded with int 3. */
  function Patch(h: Hook): (r: seq<Byte>)
    requires h.Size() >= 5
    ensures |r| == h.Size()
  {
    Jmp(h.target, h.detour) + Brks(h.Size() - 5)
  }

  /** The 32 bytes of a trampoline: the moved code, the jump to the code after the window, int 3 up to
      the size byte, and the fields cbTarget, pbRemain and pbDetour. */
  ghost predicate TrampolineFor(t: Tables, slot: seq<Byte>, h: Hook)
    requires WellFormed(t) && |slot| == 32
  {
    && 5 <= h.Size() <= 18 && h.target + h.Size() < 0x1_0000_0000
    && Window(t, h.saved, 0) && Moved(t, h.saved, slot, h.trampoline - h.target)
    && h.trampoline + h.Size() < 0x1_0000_0000
    && slot[h.Size()..h.Size() + 5] == Jmp(h.trampoline + h.Size(), h.target + h.Size())
    && slot[h.Size() + 5..23] == Brks(18 - h.Size())
    && slot[23] == h.Size()
    && DwordAt(slot, 24) == h.target + h.Size()
    && DwordAt(slot, 28) == h.detour
  }

  /** The trampoline of a hook whose code the tables know. */
  ghost predicate TrampolineOk(t: Tables, slot: seq<Byte>, h: Hook)
    requires WellFormed(t) && |slot| == 32
  {
    TrampolineFor(t, slot, h) && AllKnown(t, h.saved)
  }

  /** Two hooks use different trampolines and different code. */
  predicate Separate(g: Hook, h: Hook)
  {
    && g.trampoline != h.trampoline
    && (g.target + g.Size() <= h.target || h.target + h.Size() <= g.target)
  }

  predicate SeparateFrom(g: Hook, hooks: seq<Hook>)
  {
    |hooks| > 0 ==> Separate(g, hooks[0]) && SeparateFrom(g, hooks[1..])
  }

  /** The window of a hook is ordinary code, not pool memory. */
  ghost predicate WindowOutside(regions: seq<Region>, h: Hook)
  {
    forall i | h.target <= i < h.target + h.Size() :: !InPool(regions, i)
  }

  ghost predicate HookOk(t: Tables, m: seq<Byte>, regions: seq<Region>, code: seq<Byte>, h: Hook)
    requires WellFormed(t)
  {
    && IsLive(regions, h.trampoline)
    && h.trampoline + 32 <= |m| && TrampolineOk(t, m[h.trampoline..h.trampoline + 32], h)
    && h.target + h.Size() <= |code| && code[h.target..h.target + h.Size()] == h.saved
    && WindowOutside(regions, h)
  }

  ghost predicate HooksOk(t: Tables, m: seq<Byte>, regions: seq<Region>, code: seq<Byte>, hooks: seq<Hook>)
    requires WellFormed(t)
    decreases |hooks|
  {
    |hooks| > 0 ==>
      && HookOk(t, m, regions, code, hooks[0]) && SeparateFrom(hooks[0], hooks[1..])
      && HooksOk(t, m, regions, code, hooks[1..])
  }

  /** The code with the jumps of all hooks that are on. */
  ghost function Patched(code: seq<Byte>, hooks: seq<Hook>): (r: seq<Byte>)
    ensures |r| == |code|
    decreases |hooks|
  {
    if |hooks| == 0 then code
    else
      var rest := Patched(code, hooks[1..]);
      var h := hooks[0];
      if h.on && h.Size() >= 5 && h.target + h.Size() <= |code| then Overwrite(rest, h.target, Patch(h)) else rest
  }

  /** Outside the pool, memory `m` holds `p`. */
  ghost predicate Holds(m: seq<Byte>, p: seq<Byte>, regions: seq<Region>)
  {
    |m| == |p| && forall i | 0 <= i < |m| && !InPool(regions, i) :: m[i] == p[i]
  }

  // ---------------------------------------------------------------- finding and changing hooks

  function Find(hooks: seq<Hook>, t: Dword): Option<Hook>
  {
    if |hooks| == 0 then None else if hooks[0].trampoline == t then Some(hooks[0]) else Find(hooks[1..], t)
  }

  function Switch(hooks: seq<Hook>, t: Dword, on: bool): seq<Hook>
  {
    if |hooks| == 0 then []
    else if hooks[0].trampoline == t then [hooks[0].(on := on)] + hooks[1..]
    else [hooks[0]] + Switch(hooks[1..], t, on)
  }

  function Without(hooks: seq<Hook>, t: Dword): seq<Hook>
  {
    if |hooks| == 0 then []
    else if hooks[0].trampoline == t then hooks[1..]
    else [hooks[0]] + Without(hooks[1..], t)
  }

  // ---------------------------------------------------------------- one step of each

  lemma HooksStep(t: Tables, m: seq<Byte>, regions: seq<Region>, code: seq<Byte>, hooks: seq<Hook>)
    requires WellFormed(t) && |hooks| > 0
    ensures HooksOk(t, m, regions, code, hooks) <==>
            && HookOk(t, m, regions, code, hooks[0]) && SeparateFrom(hooks[0], hooks[1..])
            && HooksOk(t, m, regions, code, hooks[1..])
  {
  }

  lemma PatchedStep(code: seq<Byte>, hooks: seq<Hook>)
    requires |hooks| > 0
    ensures var h := hooks[0];
            Patched(code, hooks) ==
            if h.on && h.Size() >= 5 && h.target + h.Size() <= |code|
            then Overwrite(Patched(code, hooks[1..]), h.target, Patch(h)) else Patched(code, hooks[1..])
  {
  }

  lemma {:induction false} FindOk(t: Tables, m: seq<Byte>, regions: seq<Region>, code: seq<Byte>, hooks: seq<Hook>,
                                  a: Dword)
    requires WellFormed(t) && HooksOk(t, m, regions, code, hooks) && Find(hooks, a).Some?
    ensures HookOk(t, m, regions, code, Find(hooks, a).value) && Find(hooks, a).value.trampoline == a
    decreases |hooks|
  {
    hide HooksOk, HookOk;
    HooksStep(t, m, regions, code, hooks);
    if hooks[0].trampoline != a {
      FindOk(t, m, regions, code, hooks[1..], a);
    }
  }

  // ---------------------------------------------------------------- the patched code

  /** A hook that is separate from all the others finds its own code unpatched. */
  lemma {:induction false} PatchedElsewhere(t: Tables, m: seq<Byte>, regions: seq<Region>, code: seq<Byte>,
                                            hooks: seq<Hook>, h: Hook)
    requires WellFormed(t) && HooksOk(t, m, regions, code, hooks)
    requires SeparateFrom(h, hooks) && h.target + h.Size() <= |code|
    ensures Patched(code, hooks)[h.target..h.target + h.Size()] == code[h.target..h.target + h.Size()]
    decreases |hooks|
  {
    hide HooksOk, HookOk, Patched, Patch, Overwrite;
    if |hooks| > 0 {
      HooksStep(t, m, regions, code, hooks);
      PatchedStep(code, hooks);
      PatchedElsewhere(t, m, regions, code, hooks[1..], h);
      var g := hooks[0];
      if g.on && g.Size() >= 5 && g.target + g.Size() <= |code| {
        OverwriteElsewhere(Patched(code, hooks[1..]), g.target, Patch(g), h.target, h.target + h.Size());
      }
    } else {
      NotPatched(code, hooks);
    }
  }

  lemma NotPatched(code: seq<Byte>, hooks: seq<Hook>)
    requires |hooks| == 0
    ensures Patched(code, hooks) == code
  {
  }

  /** Writing the jump of a hook that is off switches it on. */
  lemma {:induction false} SwitchOn(t: Tables, m: seq<Byte>, regions: seq<Region>, code: seq<Byte>, hooks: seq<Hook>,
                                    a: Dword)
    requires WellFormed(t) && HooksOk(t, m, regions, code, hooks) && Find(hooks, a).Some?
    ensures var h := Find(hooks, a).value;
            && 5 <= h.Size() && h.target + h.Size() <= |code|
            && Patched(code, Switch(hooks, a, true)) == Overwrite(Patched(code, hooks), h.target, Patch(h))
    decreases |hooks|
  {
    hide HooksOk, HookOk, Patched, Patch, Overwrite;
    HooksStep(t, m, regions, code, hooks);
    PatchedStep(code, hooks);
    PatchedStep(code, Switch(hooks, a, true));
    var g := hooks[0];
    HookSize(t, m, regions, code, g);
    var rest := Patched(code, hooks[1..]);
    if g.trampoline == a {
      SamePatch(g, true);
      OverwriteSame(rest, g.target, Patch(g), Patch(g));
    } else {
      SwitchOn(t, m, regions, code, hooks[1..], a);
      var h := Find(hooks[1..], a).value;
      SeparateFound(g, hooks[1..], a);
      assert Switch(hooks, a, true)[1..] == Switch(hooks[1..], a, true);
      if g.on {
        OverwriteCommute(rest, g.target, Patch(g), h.target, Patch(h));
      }
    }
  }

  /** Writing the saved code of a hook back switches it off. */
  lemma {:induction false} SwitchOff(t: Tables, m: seq<Byte>, regions: seq<Region>, code: seq<Byte>, hooks: seq<Hook>,
                                     a: Dword)
    requires WellFormed(t) && HooksOk(t, m, regions, code, hooks) && Find(hooks, a).Some?
    ensures var h := Find(hooks, a).value;
            && h.target + h.Size() <= |code|
            && Patched(code, Switch(hooks, a, false)) == Overwrite(Patched(code, hooks), h.target, h.saved)
    decreases |hooks|
  {
    hide HooksOk, HookOk, Patched, Patch, Overwrite;
    HooksStep(t, m, regions, code, hooks);
    PatchedStep(code, hooks);
    PatchedStep(code, Switch(hooks, a, false));
    var g := hooks[0];
    HookSize(t, m, regions, code, g);
    var rest := Patched(code, hooks[1..]);
    if g.trampoline == a {
      PatchedElsewhere(t, m, regions, code, hooks[1..], g);
      OverwriteRestores(rest, g.target, g.saved);
      if g.on {
        OverwriteSame(rest, g.target, Patch(g), g.saved);
      }
      assert Switch(hooks, a, false)[1..] == hooks[1..];
    } else {
      SwitchOff(t, m, regions, code, hooks[1..], a);
      var h := Find(hooks[1..], a).value;
      SeparateFound(g, hooks[1..], a);
      assert Switch(hooks, a, false)[1..] == Switch(hooks[1..], a, false);
      if g.on {
        OverwriteCommute(rest, g.target, Patch(g), h.target, h.saved);
      }
    }
  }

  lemma HookSize(t: Tables, m: seq<Byte>, regions: seq<Region>, code: seq<Byte>, h: Hook)
    requires WellFormed(t) && HookOk(t, m, regions, code, h)
    ensures 5 <= h.Size() <= 18 && h.target + h.Size() <= |code| && h.trampoline + 32 <= |m|
    ensures code[h.target..h.target + h.Size()] == h.saved
  {
    hide Moved, AllKnown, Jmp, Brks, DwordAt, Window;
  }

  lemma SamePatch(h: Hook, on: bool)
    requires h.Size() >= 5
    ensures Patch(h.(on := on)) == Patch(h)
  {
  }

  lemma {:induction false} SeparateFound(g: Hook, hooks: seq<Hook>, a: Dword)
    requires SeparateFrom(g, hooks) && Find(hooks, a).Some?
    ensures Separate(g, Find(hooks, a).value)
    decreases |hooks|
  {
    if hooks[0].trampoline != a {
      SeparateFound(g, hooks[1..], a);
    }
  }

  lemma OverwriteSame(b: seq<Byte>, at: nat, x: seq<Byte>, y: seq<Byte>)
    requires |x| == |y| && at + |x| <= |b|
    ensures Overwrite(Overwrite(b, at, x), at, y) == Overwrite(b, at, y)
  {
  }

  lemma OverwriteRestores(b: seq<Byte>, at: nat, x: seq<Byte>)
    requires at + |x| <= |b| && b[at..at + |x|] == x
    ensures Overwrite(b, at, x) == b
  {
  }

  lemma OverwriteCommute(b: seq<Byte>, at: nat, x: seq<Byte>, to: nat, y: seq<Byte>)
    requires at + |x| <= |b| && to + |y| <= |b| && (at + |x| <= to || to + |y| <= at)
    ensures Overwrite(Overwrite(b, at, x), to, y) == Overwrite(Overwrite(b, to, y), at, x)
  {
    var l, r := Overwrite(Overwrite(b, at, x), to, y), Overwrite(Overwrite(b, to, y), at, x);
    forall i | 0 <= i < |b|
      ensures l[i] == r[i]
    {
      OverwriteIndex(b, at, x, i);
      OverwriteIndex(b, to, y, i);
      OverwriteIndex(Overwrite(b, at, x), to, y, i);
      OverwriteIndex(Overwrite(b, to, y), at, x, i);
    }
  }

  lemma OverwriteIndex(b: seq<Byte>, at: nat, x: seq<Byte>, i: nat)
    requires at + |x| <= |b| && i < |b|
    ensures Overwrite(b, at, x)[i] == if at <= i < at + |x| then x[i - at] else b[i]
  {
  }

  // ---------------------------------------------------------------- frames

  /** A step left the slot of `h` alone and its window outside the pool. */
  ghost predicate HookKept(m: seq<Byte>, n: seq<Byte>, after: seq<Region>, h: Hook)
  {
    && IsLive(after, h.trampoline) && WindowOutside(after, h)
    && h.trampoline + 32 <= |m| == |n|
    && n[h.trampoline..h.trampoline + 32] == m[h.trampoline..h.trampoline + 32]
  }

  ghost predicate HooksKept(m: seq<Byte>, n: seq<Byte>, after: seq<Region>, hooks: seq<Hook>)
  {
    |hooks| > 0 ==> HookKept(m, n, after, hooks[0]) && HooksKept(m, n, after, hooks[1..])
  }

  lemma HookFrame(t: Tables, m: seq<Byte>, n: seq<Byte>, regions: seq<Region>, after: seq<Region>, code: seq<Byte>,
                  h: Hook)
    requires WellFormed(t) && HookOk(t, m, regions, code, h) && HookKept(m, n, after, h)
    ensures HookOk(t, n, after, code, h)
  {
    hide TrampolineOk, WindowOutside, IsLive;
  }

  lemma {:induction false} HooksFrame(t: Tables, m: seq<Byte>, n: seq<Byte>, regions: seq<Region>, after: seq<Region>,
                                      code: seq<Byte>, hooks: seq<Hook>)
    requires WellFormed(t) && HooksOk(t, m, regions, code, hooks) && HooksKept(m, n, after, hooks)
    ensures HooksOk(t, n, after, code, hooks)
    decreases |hooks|
  {
    hide HookOk, HookKept, WellFormed;
    if |hooks| > 0 {
      HookFrame(t, m, n, regions, after, code, hooks[0]);
      HooksFrame(t, m, n, regions, after, code, hooks[1..]);
    }
  }

  /** Switching a hook does not touch the trampolines. */
  lemma {:induction false} SwitchOk(t: Tables, m: seq<Byte>, regions: seq<Region>, code: seq<Byte>, hooks: seq<Hook>,
                                    a: Dword, on: bool)
    requires WellFormed(t) && HooksOk(t, m, regions, code, hooks)
    ensures HooksOk(t, m, regions, code, Switch(hooks, a, on))
    decreases |hooks|
  {
    hide HookOk, WellFormed, HooksOk;
    if |hooks| > 0 {
      HooksStep(t, m, regions, code, hooks);
      HooksStep(t, m, regions, code, Switch(hooks, a, on));
      var h := hooks[0];
      if h.trampoline == a {
        FlagOk(t, m, regions, code, h, on);
        FlagSeparate(h, hooks[1..], on);
        assert Switch(hooks, a, on)[1..] == hooks[1..];
      } else {
        SwitchOk(t, m, regions, code, hooks[1..], a, on);
        SwitchSeparate(h, hooks[1..], a, on);
        assert Switch(hooks, a, on)[1..] == Switch(hooks[1..], a, on);
      }
    } else {
      NoHooksOk(t, m, regions, code, Switch(hooks, a, on));
    }
  }

  lemma NoHooksOk(t: Tables, m: seq<Byte>, regions: seq<Region>, code: seq<Byte>, hooks: seq<Hook>)
    requires WellFormed(t) && |hooks| == 0
    ensures HooksOk(t, m, regions, code, hooks)
  {
  }

  lemma FlagOk(t: Tables, m: seq<Byte>, regions: seq<Region>, code: seq<Byte>, h: Hook, on: bool)
    requires WellFormed(t) && HookOk(t, m, regions, code, h)
    ensures HookOk(t, m, regions, code, h.(on := on))
  {
    hide IsLive, Moved, AllKnown, Jmp, Brks, WellFormed, Window;
  }

  lemma {:induction false} FlagSeparate(h: Hook, hooks: seq<Hook>, on: bool)
    requires SeparateFrom(h, hooks)
    ensures SeparateFrom(h.(on := on), hooks)
    decreases |hooks|
  {
    if |hooks| > 0 {
      FlagSeparate(h, hooks[1..], on);
    }
  }

  lemma {:induction false} SwitchSeparate(h: Hook, hooks: seq<Hook>, a: Dword, on: bool)
    requires SeparateFrom(h, hooks)
    ensures SeparateFrom(h, Switch(hooks, a, on))
    decreases |hooks|
  {
    if |hooks| > 0 {
      SwitchSeparate(h, hooks[1..], a, on);
      assert Switch(hooks, a, on)[1..] == if hooks[0].trampoline == a then hooks[1..] else Switch(hooks[1..], a, on);
    }
  }

  lemma {:induction false} WithoutSeparate(h: Hook, hooks: seq<Hook>, a: Dword)
    requires SeparateFrom(h, hooks)
    ensures SeparateFrom(h, Without(hooks, a))
    decreases |hooks|
  {
    if |hooks| > 0 {
      WithoutSeparate(h, hooks[1..], a);
      assert hooks[0].trampoline != a ==> Without(hooks, a)[1..] == Without(hooks[1..], a);
    }
  }

  lemma {:induction false} WithoutOk(t: Tables, m: seq<Byte>, regions: seq<Region>, code: seq<Byte>, hooks: seq<Hook>,
                                     a: Dword)
    requires WellFormed(t) && HooksOk(t, m, regions, code, hooks)
    ensures HooksOk(t, m, regions, code, Without(hooks, a))
    decreases |hooks|
  {
    hide HookOk, WellFormed, HooksOk;
    if |hooks| > 0 {
      HooksStep(t, m, regions, code, hooks);
      if hooks[0].trampoline != a {
        WithoutOk(t, m, regions, code, hooks[1..], a);
        WithoutSeparate(hooks[0], hooks[1..], a);
        assert Without(hooks, a)[1..] == Without(hooks[1..], a);
        HooksStep(t, m, regions, code, Without(hooks, a));
      }
    } else {
      NoHooksOk(t, m, regions, code, Without(hooks, a));
    }
  }

  /** A hook that is off leaves no trace in the patched code. */
  lemma {:induction false} PatchedWithout(code: seq<Byte>, hooks: seq<Hook>, a: Dword)
    requires Find(hooks, a).Some? ==> !Find(hooks, a).value.on
    ensures Patched(code, Without(hooks, a)) == Patched(code, hooks)
    decreases |hooks|
  {
    if |hooks| > 0 && hooks[0].trampoline != a {
      PatchedWithout(code, hooks[1..], a);
      assert Without(hooks, a)[1..] == Without(hooks[1..], a);
    }
  }

  // ---------------------------------------------------------------- lookups after a change

  lemma {:induction false} FindSwitch(hooks: seq<Hook>, a: Dword, on: bool, b: Dword)
    ensures Find(Switch(hooks, a, on), b) ==
            match Find(hooks, b) case None => None case Some(h) => Some(if a == b then h.(on := on) else h)
    decreases |hooks|
  {
    if |hooks| > 0 {
      FindSwitch(hooks[1..], a, on, b);
      assert Switch(hooks, a, on)[1..] == if hooks[0].trampoline == a then hooks[1..] else Switch(hooks[1..], a, on);
      if hooks[0].trampoline == a && a != b {
        assert Find(Switch(hooks, a, on), b) == Find(hooks[1..], b);
      }
    }
  }

  /** No two hooks share a trampoline. */
  predicate DistinctHooks(hooks: seq<Hook>)
  {
    |hooks| > 0 ==> Find(hooks[1..], hooks[0].trampoline).None? && DistinctHooks(hooks[1..])
  }

  lemma {:induction false} FindWithout(hooks: seq<Hook>, a: Dword, b: Dword)
    requires DistinctHooks(hooks)
    ensures Find(Without(hooks, a), b) == if a == b then None else Find(hooks, b)
    decreases |hooks|
  {
    if |hooks| > 0 && hooks[0].trampoline != a {
      FindWithout(hooks[1..], a, b);
      assert Without(hooks, a)[1..] == Without(hooks[1..], a);
    }
  }

  lemma {:induction false} HooksDistinct(t: Tables, m: seq<Byte>, regions: seq<Region>, code: seq<Byte>,
                                         hooks: seq<Hook>)
    requires WellFormed(t) && HooksOk(t, m, regions, code, hooks)
    ensures DistinctHooks(hooks)
    decreases |hooks|
  {
    hide HookOk, WellFormed;
    if |hooks| > 0 {
      HooksDistinct(t, m, regions, code, hooks[1..]);
      SeparateNotFound(hooks[0], hooks[1..]);
    }
  }

  lemma {:induction false} SeparateNotFound(h: Hook, hooks: seq<Hook>)
    requires SeparateFrom(h, hooks)
    ensures Find(hooks, h.trampoline).None?
    decreases |hooks|
  {
    if |hooks| > 0 {
      SeparateNotFound(h, hooks[1..]);
    }
  }

  /** The hooks that are on, in order. */
  function OnOnly(hooks: seq<Hook>): seq<Hook>
  {
    if |hooks| == 0 then []
    else if hooks[0].on then [hooks[0]] + OnOnly(hooks[1..]) else OnOnly(hooks[1..])
  }

  predicate AllOn(hooks: seq<Hook>)
  {
    |hooks| > 0 ==> hooks[0].on && AllOn(hooks[1..])
  }

  lemma {:induction false} AllOnSame(hooks: seq<Hook>)
    requires AllOn(hooks)
    ensures OnOnly(hooks) == hooks
    decreases |hooks|
  {
    if |hooks| > 0 {
      AllOnSame(hooks[1..]);
    }
  }

  lemma {:induction false} OnOnlyWithout(hooks: seq<Hook>, a: Dword)
    requires Find(hooks, a).Some? ==> !Find(hooks, a).value.on
    ensures OnOnly(Without(hooks, a)) == OnOnly(hooks)
    decreases |hooks|
  {
    if |hooks| > 0 && hooks[0].trampoline != a {
      OnOnlyWithout(hooks[1..], a);
      assert Without(hooks, a)[1..] == Without(hooks[1..], a);
    }
  }

  // ---------------------------------------------------------------- steps of the pool and of the code

  lemma {:induction false} KeptByFree(t: Tables, m: seq<Byte>, head: Dword, regions: seq<Region>, code: seq<Byte>,
                                      hooks: seq<Hook>, a: Dword)
    requires WellFormed(t) && RegionList(m, head, regions) && DistinctBases(regions) && IsLive(regions, a)
    requires HooksOk(t, m, regions, code, hooks) && Find(hooks, a).None?
    ensures Inside(|m|, a)
    ensures HooksKept(m, Returned(m, Mask(a), a), AfterFree(regions, a), hooks)
    decreases |hooks|
  {
    hide RegionList, DistinctBases, Returned, AfterFree, HookOk, HooksOk, HookKept, WellFormed, IsLive;
    FreeMeaning(m, head, regions, a, a);
    if |hooks| > 0 {
      HooksStep(t, m, regions, code, hooks);
      var h := hooks[0];
      FreeMeaning(m, head, regions, a, h.trampoline);
      HookLive(t, m, regions, code, h);
      WindowSame(regions, AfterFree(regions, a), h, a);
      IsKept(m, Returned(m, Mask(a), a), AfterFree(regions, a), h);
      KeptByFree(t, m, head, regions, code, hooks[1..], a);
    }
  }

  lemma HookLive(t: Tables, m: seq<Byte>, regions: seq<Region>, code: seq<Byte>, h: Hook)
    requires WellFormed(t) && HookOk(t, m, regions, code, h)
    ensures IsLive(regions, h.trampoline) && WindowOutside(regions, h) && h.trampoline + 32 <= |m|
  {
  }

  lemma IsKept(m: seq<Byte>, n: seq<Byte>, after: seq<Region>, h: Hook)
    requires IsLive(after, h.trampoline) && WindowOutside(after, h) && h.trampoline + 32 <= |m| == |n|
    requires n[h.trampoline..h.trampoline + 32] == m[h.trampoline..h.trampoline + 32]
    ensures HookKept(m, n, after, h)
  {
  }

  /** Neither taking nor returning a slot changes which addresses belong to the pool. */
  lemma WindowSame(regions: seq<Region>, after: seq<Region>, h: Hook, a: Dword)
    requires WindowOutside(regions, h) && (after == AfterFree(regions, a) || after == AfterTake(regions, a))
    ensures WindowOutside(after, h)
  {
    forall i | h.target <= i < h.target + h.Size()
      ensures !InPool(after, i)
    {
      SameBases(regions, a, 0, i);
    }
  }

  lemma {:induction false} KeptByTake(t: Tables, m: seq<Byte>, head: Dword, regions: seq<Region>, code: seq<Byte>,
                                      hooks: seq<Hook>, a: Dword)
    requires WellFormed(t) && RegionList(m, head, regions) && DistinctBases(regions) && FreeAt(regions, Mask(a)) != []
    requires a % 32 == 0 && Inside(|m|, a) && a == FreeOf(m, Mask(a))
    requires HooksOk(t, m, regions, code, hooks)
    ensures HooksKept(m, Taken(m, Mask(a)), AfterTake(regions, Mask(a)), hooks) && Find(hooks, a).None?
    decreases |hooks|
  {
    hide RegionList, DistinctBases, Taken, AfterTake, HookOk, HooksOk, HookKept, WellFormed, IsLive, Mask, FreeAt,
      FreeOf;
    TakeMeaning(m, head, regions, a, a);
    if |hooks| > 0 {
      HooksStep(t, m, regions, code, hooks);
      var h := hooks[0];
      TakeMeaning(m, head, regions, a, h.trampoline);
      HookLive(t, m, regions, code, h);
      WindowSame(regions, AfterTake(regions, Mask(a)), h, Mask(a));
      IsKept(m, Taken(m, Mask(a)), AfterTake(regions, Mask(a)), h);
      KeptByTake(t, m, head, regions, code, hooks[1..], a);
    }
  }

  /** Freshly mapped memory does not hold the code of any hook. */
  predicate GrantApart(hooks: seq<Hook>, grant: Dword)
  {
    |hooks| > 0 ==>
      && (hooks[0].target + hooks[0].Size() <= grant || grant + 0x1_0000 <= hooks[0].target)
      && GrantApart(hooks[1..], grant)
  }

  lemma {:induction false} KeptByGrown(t: Tables, m: seq<Byte>, head: Dword, regions: seq<Region>, n: seq<Byte>,
                                       after: seq<Region>, grant: Dword, code: seq<Byte>, hooks: seq<Hook>)
    requires WellFormed(t) && RegionList(m, head, regions) && Grown(m, regions, n, after, grant)
    requires grant % 0x1_0000 == 0 && !HasBase(regions, grant) && GrantApart(hooks, grant)
    requires HooksOk(t, m, regions, code, hooks)
    ensures HooksKept(m, n, after, hooks)
    decreases |hooks|
  {
    hide RegionList, Grown, HookOk, HooksOk, HookKept, WellFormed, IsLive, HasBase;
    if |hooks| > 0 {
      HooksStep(t, m, regions, code, hooks);
      var h := hooks[0];
      GrownMeaning(m, head, regions, n, after, grant, h.trampoline);
      HookLive(t, m, regions, code, h);
      WindowGrown(m, regions, n, after, grant, h);
      IsKept(m, n, after, h);
      KeptByGrown(t, m, head, regions, n, after, grant, code, hooks[1..]);
    }
  }

  lemma WindowGrown(m: seq<Byte>, regions: seq<Region>, n: seq<Byte>, after: seq<Region>, grant: Dword, h: Hook)
    requires Grown(m, regions, n, after, grant) && WindowOutside(regions, h)
    requires h.target + h.Size() <= grant || grant + 0x1_0000 <= h.target
    ensures WindowOutside(after, h)
  {
    hide Slots, OnlyRegion;
    if after != regions {
      assert after[1..] == regions;
      forall i | h.target <= i < h.target + h.Size()
        ensures !InPool(after, i)
      {
        assert !InPool(regions, i);
      }
    }
  }

  /** Memory changed inside one trampoline, and nowhere else. */
  ghost predicate OnlySlot(m: seq<Byte>, n: seq<Byte>, a: Dword)
  {
    a + 32 <= |m| == |n| && m[..a] == n[..a] && m[a + 32..] == n[a + 32..]
  }

  lemma OnlySlotSize(m: seq<Byte>, n: seq<Byte>, a: Dword)
    requires OnlySlot(m, n, a)
    ensures a + 32 <= |m| == |n|
  {
  }

  lemma OnlySlotElsewhere(m: seq<Byte>, n: seq<Byte>, a: Dword, lo: nat, hi: nat)
    requires OnlySlot(m, n, a) && lo <= hi <= |m| && (hi <= a || a + 32 <= lo)
    ensures n[lo..hi] == m[lo..hi]
  {
    if hi <= a {
      assert m[lo..hi] == m[..a][lo..hi];
      assert n[lo..hi] == n[..a][lo..hi];
    } else {
      SliceOfSuffix(m, a + 32, lo - a - 32, hi - a - 32);
      SliceOfSuffix(n, a + 32, lo - a - 32, hi - a - 32);
    }
  }

  lemma {:induction false} KeptBySlot(t: Tables, m: seq<Byte>, n: seq<Byte>, head: Dword, regions: seq<Region>,
                                      code: seq<Byte>, hooks: seq<Hook>, a: Dword)
    requires WellFormed(t) && RegionList(m, head, regions) && HooksOk(t, m, regions, code, hooks)
    requires OnlySlot(m, n, a) && a % 32 == 0 && Find(hooks, a).None?
    ensures HooksKept(m, n, regions, hooks)
    decreases |hooks|
  {
    hide RegionList, HookOk, HooksOk, HookKept, WellFormed, IsLive, Inside, InPool;
    if |hooks| > 0 {
      HooksStep(t, m, regions, code, hooks);
      var h := hooks[0];
      HookLive(t, m, regions, code, h);
      LiveBounds(m, head, regions, h.trampoline);
      SlotsApart(a, h.trampoline);
      OnlySlotElsewhere(m, n, a, h.trampoline, h.trampoline + 32);
      IsKept(m, n, regions, h);
      KeptBySlot(t, m, n, head, regions, code, hooks[1..], a);
    }
  }

  lemma {:induction false} KeptByCode(t: Tables, m: seq<Byte>, head: Dword, regions: seq<Region>, code: seq<Byte>,
                                      hooks: seq<Hook>, g: Hook, bytes: seq<Byte>)
    requires WellFormed(t) && RegionList(m, head, regions) && HooksOk(t, m, regions, code, hooks)
    requires |bytes| == g.Size() > 0 && g.target + g.Size() <= |m| && WindowOutside(regions, g)
    ensures HooksKept(m, Overwrite(m, g.target, bytes), regions, hooks)
    decreases |hooks|
  {
    hide RegionList, HookOk, HooksOk, HookKept, WellFormed, IsLive, Inside, WindowOutside, Overwrite;
    if |hooks| > 0 {
      HooksStep(t, m, regions, code, hooks);
      var h := hooks[0];
      HookLive(t, m, regions, code, h);
      SlotNotInWindow(m, head, regions, h.trampoline, g);
      OverwriteElsewhere(m, g.target, bytes, h.trampoline, h.trampoline + 32);
      IsKept(m, Overwrite(m, g.target, bytes), regions, h);
      KeptByCode(t, m, head, regions, code, hooks[1..], g, bytes);
    }
  }

  /** A live trampoline and a window outside the pool do not meet. */
  lemma SlotNotInWindow(m: seq<Byte>, head: Dword, regions: seq<Region>, a: Dword, g: Hook)
    requires RegionList(m, head, regions) && IsLive(regions, a) && WindowOutside(regions, g) && g.Size() > 0
    ensures g.target + g.Size() <= a || a + 32 <= g.target
  {
    hide RegionList, IsLive, Inside;
    LiveInPool(m, head, regions, a);
    var first := if a >= g.target then a else g.target;
    var here := InPool(regions, first);
  }

  lemma {:induction false} LiveInPool(m: seq<Byte>, head: Dword, regions: seq<Region>, a: Dword)
    requires RegionList(m, head, regions) && IsLive(regions, a)
    ensures forall i | a <= i < a + 32 :: InPool(regions, i)
    decreases |regions|
  {
    ListStep(m, head, regions);
    if LiveIn(regions[0], a) {
      LiveInside(m, regions[0], a);
    } else {
      LiveInPool(m, NextOf(m, head), regions[1..], a);
    }
  }
}
