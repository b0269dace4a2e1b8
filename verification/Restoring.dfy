/** What the loop of a detach (detours.cpp, 773-797) leaves: the code that was there if the tables know its opcodes, and
    otherwise not. */
module Restoring {
  import opened Bytes
  import opened Options
  import opened Disasm
  import opened CopyTables
  import opened Copier
  import opened Relocation
  import opened Trampolines
  import opened HookList
  import opened Patching

  // ---------------------------------------------------------------- code that the tables know

  /** What the loop finds after `n` bytes: the next instruction in the trampoline and its copy at the target. */
  lemma RestoreStep(t: Tables, slot: seq<Byte>, saved: seq<Byte>, n: nat, delta: int)
    returns (code: seq<Byte>, s: Shape)
    requires WellFormed(t) && n < |saved| <= |slot| && Window(t, saved[n..], n)
    requires Moved(t, saved[n..], slot[n..], delta) && AllKnown(t, saved[n..])
    ensures First(t, code) == Some(s) && 0 < s.len == |code| <= 15 && n + |code| <= |saved| && ShapeOk(s, s.len)
    ensures code == slot[n..n + |code|] && Extra(code, s, -delta) == 0 && s.valid
    ensures Copied(code, code, s, -delta) == saved[n..n + |code|]
    ensures Window(t, saved[n + |code|..], n + |code|)
    ensures Moved(t, saved[n + |code|..], slot[n + |code|..], delta) && AllKnown(t, saved[n + |code|..])
  {
    hide Moved, MovedOne, AllKnown, Extra, Copied, Decode, WellFormed, Window;
    var b, c := saved[n..], slot[n..];
    MovedStep(t, b, c, delta);
    KnownStep(t, b);
    WindowStep(t, b, n);
    FirstLenIs(t, b);
    FirstBack(t, b, c, delta, b);
    s := First(t, b).value;
    code := c[..s.len];
    FirstAlone(t, c);
    SamePrefix(c, code, s, b, -delta);
    KnownIgnoresDst(code, b, code, s, -delta);
    assert b[..s.len] == saved[n..n + s.len];
    assert b[s.len..] == saved[n + s.len..] && c[s.len..] == slot[n + s.len..];
  }

  /** The loop after `n` bytes: `m` is memory before it, `k` memory now. */
  ghost predicate Halfway(t: Tables, m: seq<Byte>, k: seq<Byte>, a: Dword, h: Hook, n: nat)
    requires WellFormed(t)
  {
    && n <= h.Size() && h.target + h.Size() <= |m| && a + 32 <= |m|
    && (a + 32 <= h.target || h.target + h.Size() <= a)
    && k == Overwrite(m, h.target, h.saved[..n]) && k[a..a + 32] == m[a..a + 32] && k[a + 23] as int == h.Size() <= 18
    && Window(t, h.saved[n..], n) && Moved(t, h.saved[n..], m[a..a + 32][n..], a - h.target)
    && AllKnown(t, h.saved[n..])
  }

  lemma AtStart(t: Tables, m: seq<Byte>, a: Dword, h: Hook)
    requires WellFormed(t) && a == h.trampoline && a + 32 <= |m| && TrampolineOk(t, m[a..a + 32], h)
    requires h.target + h.Size() <= |m| && (a + 32 <= h.target || h.target + h.Size() <= a)
    ensures Halfway(t, m, m, a, h, 0)
  {
    hide Moved, AllKnown, WellFormed, Jmp, Brks, DwordAt, Window;
    var slot := m[a..a + 32];
    assert h.saved[0..] == h.saved && slot[0..] == slot;
    assert m[a + 23] == slot[23];
  }

  lemma OneFurther(t: Tables, m: seq<Byte>, k: seq<Byte>, a: Dword, h: Hook, n: nat)
    returns (code: seq<Byte>, s: Shape, next: seq<Byte>)
    requires WellFormed(t) && Halfway(t, m, k, a, h, n) && n < h.Size()
    ensures First(t, code) == Some(s) && 0 < s.len == |code| <= 15 && ShapeOk(s, s.len) && n + |code| <= h.Size()
    ensures Apart(|k|, h.target + n, a + n, |code|) && k[a + n..a + n + |code|] == code
    ensures Extra(code, s, h.target - a) == 0 && next == CopyAt(k, h.target + n, a + n, s)
    ensures Halfway(t, m, next, a, h, n + |code|)
  {
    hide First, Extra, Copied, WellFormed, AllKnown, Moved, CopyAt, Overwrite, ShapeOk, Window;
    var slot := m[a..a + 32];
    code, s := RestoreStep(t, slot, h.saved, n, a - h.target);
    SliceOfSlice(k, a, a + 32, n, n + |code|);
    RestoreRound(m, k, h.target, h.saved, n, code, s, a);
    next := CopyAt(k, h.target + n, a + n, s);
    assert next[a + 23] == slot[23] == k[a + 23];
  }

  lemma {:induction false} RestKnown(t: Tables, m: seq<Byte>, k: seq<Byte>, a: Dword, h: Hook, n: nat)
    requires WellFormed(t) && Halfway(t, m, k, a, h, n)
    ensures a + 32 <= |k| && h.target + h.Size() <= |m| && CanRestore(t, k, h.target, a, n)
    ensures Restored(t, k, h.target, a, n) == (Overwrite(m, h.target, h.saved), h.Size())
    decreases h.Size() - n
  {
    hide *;
    HalfwayParts(t, m, k, a, h, n);
    if n == h.Size() {
      RestoredEnd(t, k, h.target, a, n);
    } else {
      var code, s, next := OneFurther(t, m, k, a, h, n);
      NextShape(t, k, h.target, a, n, code, s);
      RestKnown(t, m, next, a, h, n + |code|);
      RestoredStep(t, k, h.target, a, n, s, next);
    }
  }

  lemma HalfwayParts(t: Tables, m: seq<Byte>, k: seq<Byte>, a: Dword, h: Hook, n: nat)
    requires WellFormed(t) && Halfway(t, m, k, a, h, n)
    ensures a + 32 <= |k| == |m| && h.target + h.Size() <= |m| && k[a + 23] as int == h.Size() >= n
    ensures n == h.Size() ==> k == Overwrite(m, h.target, h.saved)
  {
    hide Moved, AllKnown, WellFormed, Window;
    assert n == h.Size() ==> h.saved[..n] == h.saved;
  }

  /** The instruction at a place, whatever follows it. */
  lemma NextShape(t: Tables, k: seq<Byte>, target: nat, a: nat, n: nat, code: seq<Byte>, s: Shape)
    requires WellFormed(t) && First(t, code) == Some(s) && |code| == s.len <= 15
    requires Apart(|k|, target + n, a + n, |code|) && k[a + n..a + n + |code|] == code
    ensures ShapeAt(t, k, a + n) == Some(s) && CanCopyBack(t, k, target, a, n)
    ensures a + n + s.len <= |k| && k[a + n..a + n + s.len] == code
  {
    hide First, WellFormed;
    var at := a + n;
    assert k[at..] == code + k[at + |code|..];
    FirstLonger(t, code, k[at + |code|..]);
  }

  /** Committing a detach restores the saved code of a hook whose opcodes the tables know, byte for byte, and the count
      comes out as cbTarget. */
  lemma RestoresKnown(t: Tables, m: seq<Byte>, a: Dword, h: Hook)
    requires WellFormed(t) && a == h.trampoline && a + 32 <= |m| && TrampolineOk(t, m[a..a + 32], h)
    requires h.target + h.Size() <= |m| && (a + 32 <= h.target || h.target + h.Size() <= a)
    ensures CanRestore(t, m, h.target, a, 0)
    ensures Restored(t, m, h.target, a, 0) == (Overwrite(m, h.target, h.saved), h.Size())
    ensures Overwrite(m, h.target, h.saved)[a + 23] == h.Size()
  {
    hide TrampolineOk, Halfway, Overwrite, CanRestore, Restored, WellFormed;
    AtStart(t, m, a, h);
    HalfwayParts(t, m, m, a, h, 0);
    RestKnown(t, m, m, a, h, 0);
    OverwriteElsewhere(m, h.target, h.saved, a + 23, a + 24);
    assert Overwrite(m, h.target, h.saved)[a + 23] == Overwrite(m, h.target, h.saved)[a + 23..a + 24][0];
  }

  // ---------------------------------------------------------------- any code

  /** On memory, the loop of a detach is the loop on the bytes of trampoline and target: 38 bytes hold all that it reads
      and writes. */
  lemma {:induction false} RestoredIsBack(t: Tables, m: seq<Byte>, target: nat, a: nat, n: nat, size: nat, c: seq<Byte>,
                                          home: seq<Byte>)
    requires WellFormed(t) && a + 38 <= |m| && target + 38 <= |m| && (a + 38 <= target || target + 38 <= a)
    requires m[a + 23] as int == size && n <= 38 && (n < size ==> size <= 23) && CanRestore(t, m, target, a, n)
    requires c == m[a + n..a + 38] && home == m[target + n..target + 38]
    ensures Restored(t, m, target, a, n).0 == Overwrite(m, target + n, Back(t, c, home, target - a, size - n).0)
    ensures Restored(t, m, target, a, n).1 == n + Back(t, c, home, target - a, size - n).1
    decreases 38 - n
  {
    hide *;
    if n >= size {
      RestoredEnd(t, m, target, a, n);
      BackDone(t, c, home, target - a, size - n);
      OverwriteRestores(m, target + n, home);
    } else {
      CanRestoreParts(t, m, target, a, n);
      var s := ShapeOfPlace(t, m, target, a, n, c);
      var delta := target - a;
      var next := CopyAt(m, target + n, a + n, s);
      OneCopied(t, m, next, target, a, n, s, c, home);
      if Extra(m[a + n..a + n + s.len], s, delta) != 0 {
        RestoredStop(t, m, target, a, n, s, next);
        BackStops(t, c, home, delta, size - n, s);
        OverwriteKeeps(m, target + n, Copied(c, home, s, delta), home);
      } else {
        RestoredStep(t, m, target, a, n, s, next);
        var c2, home2 := next[a + n + s.len..a + 38], next[target + n + s.len..target + 38];
        RestoredIsBack(t, next, target, a, n + s.len, size, c2, home2);
        BackStep(t, c, home, delta, size - n, s);
        OverwriteTwice(m, target + n, Copied(c, home, s, delta), Back(t, c2, home2, delta, size - n - s.len).0);
      }
    }
  }

  lemma ShapeOfPlace(t: Tables, m: seq<Byte>, target: nat, a: nat, n: nat, c: seq<Byte>) returns (s: Shape)
    requires WellFormed(t) && a + 38 <= |m| && CanCopyBack(t, m, target, a, n) && n <= 22 && c == m[a + n..a + 38]
    ensures ShapeAt(t, m, a + n) == Some(s) && First(t, c) == Some(s) && 0 < s.len <= 15 && s.len <= |c|
    ensures ShapeOk(s, s.len) && ShapeOk(s, |c|) && Apart(|m|, target + n, a + n, s.len)
  {
    hide Decode, WellFormed;
    s := ShapeAt(t, m, a + n).value;
    DecodeStable(t, m[a + n..], c, false, false);
  }

  /** One round of the loop, on the bytes. */
  lemma OneCopied(t: Tables, m: seq<Byte>, next: seq<Byte>, target: nat, a: nat, n: nat, s: Shape, c: seq<Byte>,
                  home: seq<Byte>)
    requires WellFormed(t) && a + 38 <= |m| && target + 38 <= |m| && (a + 38 <= target || target + 38 <= a) && n <= 22
    requires c == m[a + n..a + 38] && home == m[target + n..target + 38]
    requires ShapeOk(s, s.len) && ShapeOk(s, |c|) && s.len <= 15 && Apart(|m|, target + n, a + n, s.len)
    requires next == CopyAt(m, target + n, a + n, s)
    ensures next == Overwrite(m, target + n, Copied(c, home, s, target - a))
    ensures Extra(m[a + n..a + n + s.len], s, target - a) == Extra(c, s, target - a)
    ensures next[a + 23] == m[a + 23]
    ensures next[a + n + s.len..a + 38] == c[s.len..] && next[target + n + s.len..target + 38] == home[s.len..]
  {
    hide Copied, Extra, WellFormed, Overwrite;
    var code, there := m[a + n..a + n + s.len], m[target + n..target + n + s.len];
    assert code == c[..s.len] && there == home[..s.len];
    SamePrefix(c, code, s, there, target - a);
    SameDestination(c, home, there, s, target - a);
    var bytes := Copied(c, home, s, target - a);
    OverwriteElsewhere(m, target + n, bytes, a, a + 38);
    OverwriteElsewhere(m, target + n, bytes, target + n + s.len, target + 38);
    assert next[a + 23] == next[a..a + 38][23];
    assert next[a + n + s.len..a + 38] == next[a..a + 38][n + s.len..];
  }

  lemma SameDestination(c: seq<Byte>, home: seq<Byte>, there: seq<Byte>, s: Shape, delta: int)
    requires ShapeOk(s, |c|) && s.len <= |home| && there == home[..s.len]
    ensures Copied(c, there, s, delta) == Copied(c, home, s, delta)
  {
    hide Overwrite, PutOffset, GetOffset;
  }

  lemma BackStops(t: Tables, c: seq<Byte>, home: seq<Byte>, delta: int, n: int, s: Shape)
    requires WellFormed(t) && n > 0 && First(t, c) == Some(s) && s.len <= |home| && Extra(c, s, delta) != 0
    ensures Back(t, c, home, delta, n) == (Copied(c, home, s, delta) + home[s.len..], 0)
  {
    hide Copied, Extra, Decode, First, WellFormed;
  }

  lemma OverwriteKeeps(m: seq<Byte>, at: nat, bytes: seq<Byte>, home: seq<Byte>)
    requires |bytes| <= |home| && at + |home| <= |m| && home == m[at..at + |home|]
    ensures Overwrite(m, at, bytes + home[|bytes|..]) == Overwrite(m, at, bytes)
  {
  }

  /** Committing a detach restores the code that the attach moved if and only if the tables know every opcode in it, and
      then without the drastic error. */
  lemma RestoresIfKnown(t: Tables, m: seq<Byte>, target: nat, a: nat, w: seq<Byte>)
    requires WellFormed(t) && KnowsBrk(t)
    requires a + 38 <= |m| && target + 38 <= |m| && (a + 38 <= target || target + 38 <= a)
    requires |w| <= 23 && m[a + 23] as int == |w| && Moved(t, w, m[a..a + 38], a - target)
    requires CanRestore(t, m, target, a, 0)
    ensures Restored(t, m, target, a, 0).0[target..target + |w|] == w <==> AllKnown(t, w)
    ensures AllKnown(t, w) ==> Restored(t, m, target, a, 0) == (Overwrite(m, target, w), |w|)
  {
    hide *;
    var c, home := m[a..a + 38], m[target..target + 38];
    RestoredIsBack(t, m, target, a, 0, |w|, c, home);
    RoundTrip(t, w, c, a - target, home);
    var back := Back(t, c, home, target - a, |w|).0;
    OverwriteParts(m, target, back);
    assert Overwrite(m, target, back)[target..target + |w|] == Overwrite(m, target, back)[target..target + 38][..|w|];
    OverwriteKeeps(m, target, w, home);
  }

  /** An input for the drastic error: with the unknown opcode 0F 04 in the code, the count that the loop ends with is
      not cbTarget. */
  lemma DrasticCount(m: seq<Byte>, target: nat, a: nat)
    requires WellFormed(X86) && a + 38 <= |m| && target + 38 <= |m| && (a + 38 <= target || target + 38 <= a)
    requires m[a..a + 5] == [0x0f, BRK, 0x6a, 0x05, 0x90] && m[a + 23] == 5
    ensures CanRestore(X86, m, target, a, 0) && Restored(X86, m, target, a, 0).1 == 8
    ensures Restored(X86, m, target, a, 0).0[a + 23] == 5
  {
    hide *;
    var next, last := RoundOfThree(m, target, a);
    RestoredEnd(X86, last, target, a, 8);
    var first, second := Shape(3, 1, 0, false, NoTarget, true), Shape(5, 0, 0, false, NoTarget, true);
    RestoredStep(X86, next, target, a, 3, second, last);
    RestoredStep(X86, m, target, a, 0, first, next);
  }

  /** The two rounds of that loop: of three and of five bytes. */
  lemma RoundOfThree(m: seq<Byte>, target: nat, a: nat) returns (next: seq<Byte>, last: seq<Byte>)
    requires WellFormed(X86) && a + 38 <= |m| && target + 38 <= |m| && (a + 38 <= target || target + 38 <= a)
    requires m[a..a + 5] == [0x0f, BRK, 0x6a, 0x05, 0x90] && m[a + 23] == 5
    ensures var s := Shape(3, 1, 0, false, NoTarget, true);
            && CanCopyBack(X86, m, target, a, 0) && ShapeAt(X86, m, a) == Some(s)
            && Extra(m[a..a + 3], s, target - a) == 0 && next == CopyAt(m, target, a, s)
    ensures |next| == |m| && next[a + 23] == 5
    ensures var s := Shape(5, 0, 0, false, NoTarget, true);
            && CanCopyBack(X86, next, target, a, 3) && ShapeAt(X86, next, a + 3) == Some(s)
            && Extra(next[a + 3..a + 8], s, target - a) == 0 && last == CopyAt(next, target + 3, a + 3, s)
    ensures |last| == |m| && last[a + 23] == 5
  {
    hide Decode, Overwrite, WellFormed;
    var first, second := Shape(3, 1, 0, false, NoTarget, true), Shape(5, 0, 0, false, NoTarget, true);
    assert m[a..][..5] == m[a..a + 5];
    SeenAsBswap(m[a..]);
    next := CopyAt(m, target, a, first);
    KeptAt(m, target, Copied(m[a..a + 3], m[target..target + 3], first, target - a), a);
    assert next[a..][..5] == next[a..a + 38][..5] == m[a..a + 38][..5] == m[a..a + 5];
    SeenAsBswap(next[a..]);
    assert next[a..][3..] == next[a + 3..];
    last := CopyAt(next, target + 3, a + 3, second);
    KeptAt(next, target + 3, Copied(next[a + 3..a + 8], next[target + 3..target + 8], second, target - a), a);
  }

  lemma KeptAt(m: seq<Byte>, at: nat, bytes: seq<Byte>, a: nat)
    requires at + |bytes| <= |m| && a + 38 <= |m| && (a + 38 <= at || at + |bytes| <= a)
    ensures Overwrite(m, at, bytes)[a..a + 38] == m[a..a + 38] && Overwrite(m, at, bytes)[a + 23] == m[a + 23]
  {
    hide Overwrite;
    OverwriteElsewhere(m, at, bytes, a, a + 38);
    assert m[a + 23] == m[a..a + 38][23] && Overwrite(m, at, bytes)[a + 23] == Overwrite(m, at, bytes)[a..a + 38][23];
  }
}
