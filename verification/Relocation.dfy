/**
 Moving the first instructions of a function into a trampoline and back: the two copy loops of
 loader_dll/detours/detours.cpp on the bytes they read and write.
 */
module Relocation {
  import opened Bytes
  import opened Options
  import opened Disasm
  import opened CopyTables

  /** The first instruction of `b`, with no prefix seen yet. */
  function First(t: Tables, b: seq<Byte>): (r: Option<Shape>)
    requires WellFormed(t)
    ensures r.Some? ==> ShapeOk(r.value, |b|)
  {
    Decode(t, b, false, false)
  }

  /** `c` starts with the exact copy of `b`, `delta` bytes further on, into memory filled with BRK:
      a whole number of instructions, none of which needs room to grow. */
  ghost predicate Moved(t: Tables, b: seq<Byte>, c: seq<Byte>, delta: int)
    requires WellFormed(t)
    decreases |b|
  {
    |b| <= |c| && (|b| > 0 ==> MovedOne(t, b, c, delta) && Moved(t, b[FirstLen(t, b)..], c[FirstLen(t, b)..], delta))
  }

  ghost predicate MovedOne(t: Tables, b: seq<Byte>, c: seq<Byte>, delta: int)
    requires WellFormed(t) && |b| <= |c|
  {
    && First(t, b).Some?
    && Extra(b, First(t, b).value, delta) == 0
    && c[..First(t, b).value.len] == Copied(b, Brks(|b|), First(t, b).value, delta)
  }

  /** Length of the first instruction; 1 when there is none, so that recursion can go on. */
  function FirstLen(t: Tables, b: seq<Byte>): (n: nat)
    requires WellFormed(t) && |b| > 0
    ensures 1 <= n <= |b|
  {
    match First(t, b) case Some(s) => s.len case None => 1
  }

  /** Every instruction of `b` has an opcode that the tables know. */
  predicate AllKnown(t: Tables, b: seq<Byte>)
    requires WellFormed(t)
    decreases |b|
  {
    |b| > 0 ==> First(t, b).Some? && First(t, b).value.valid && AllKnown(t, b[FirstLen(t, b)..])
  }

  /** The loop that copies a trampoline back: the target bytes it leaves and the count it ends with.
      `c` is memory from the trampoline's code on, `home` memory from the target on. */
  function Back(t: Tables, c: seq<Byte>, home: seq<Byte>, delta: int, n: int): (r: (seq<Byte>, nat))
    requires WellFormed(t)
    ensures |r.0| == |home|
    decreases |c|
  {
    if n <= 0 then (home, 0)
    else match First(t, c)
      case None => (home, 0)
      case Some(s) =>
        if s.len > |home| then (home, 0)
        else
          var copy := Copied(c, home, s, delta);
          if Extra(c, s, delta) != 0 then (copy + home[s.len..], 0)
          else
            var rest := Back(t, c[s.len..], home[s.len..], delta, n - s.len);
            (copy + rest.0, s.len + rest.1)
  }

  // ---------------------------------------------------------------- one step of each

  lemma MovedStep(t: Tables, b: seq<Byte>, c: seq<Byte>, delta: int)
    requires WellFormed(t) && |b| > 0
    ensures Moved(t, b, c, delta) <==>
            |b| <= |c| && MovedOne(t, b, c, delta) && Moved(t, b[FirstLen(t, b)..], c[FirstLen(t, b)..], delta)
  {
  }

  lemma KnownStep(t: Tables, b: seq<Byte>)
    requires WellFormed(t) && |b| > 0
    ensures AllKnown(t, b) <==> First(t, b).Some? && First(t, b).value.valid && AllKnown(t, b[FirstLen(t, b)..])
  {
  }

  lemma BackStep(t: Tables, c: seq<Byte>, home: seq<Byte>, delta: int, n: int, s: Shape)
    requires WellFormed(t) && n > 0 && First(t, c) == Some(s) && s.len <= |home|
    requires Extra(c, s, delta) == 0
    ensures var rest := Back(t, c[s.len..], home[s.len..], delta, n - s.len);
            && Back(t, c, home, delta, n).0 == Copied(c, home, s, delta) + rest.0
            && Back(t, c, home, delta, n).1 == s.len + rest.1
  {
    hide Copied, Extra, Decode, First, WellFormed;
  }

  lemma BackDone(t: Tables, c: seq<Byte>, home: seq<Byte>, delta: int, n: int)
    requires WellFormed(t) && n <= 0
    ensures Back(t, c, home, delta, n) == (home, 0)
  {
  }

  /** Growth and copy depend on the bytes of the instruction only. */
  lemma SamePrefix(b: seq<Byte>, c: seq<Byte>, s: Shape, dst: seq<Byte>, delta: int)
    requires ShapeOk(s, |b|) && s.len <= |c| && b[..s.len] == c[..s.len] && s.len <= |dst|
    ensures SameButOperand(b, c, s) && RelValue(c, s) == RelValue(b, s)
    ensures Extra(c, s, delta) == Extra(b, s, delta)
    ensures Copied(c, dst, s, delta) == Copied(b, dst, s, delta)
  {
    hide GetOffset, PutOffset, Overwrite;
    SlicePrefix(b, c, s.len, s.relAt, s.relAt + s.relSize);
    assert forall i | 0 <= i < s.len :: b[i] == b[..s.len][i] == c[i];
    assert b[..s.len - 1] == b[..s.len][..s.len - 1] == c[..s.len - 1];
  }

  lemma SlicePrefix(b: seq<Byte>, c: seq<Byte>, n: nat, i: nat, j: nat)
    requires i <= j <= n <= |b| && n <= |c| && b[..n] == c[..n]
    ensures b[i..j] == c[i..j]
  {
    assert b[i..j] == b[..n][i..j];
    assert c[i..j] == c[..n][i..j];
  }

  // ---------------------------------------------------------------- known opcodes

  /** The moved first instruction decodes as the original and copies back as the original. */
  lemma FirstBack(t: Tables, b: seq<Byte>, c: seq<Byte>, delta: int, home: seq<Byte>)
    requires WellFormed(t) && |b| <= |c| && MovedOne(t, b, c, delta) && First(t, b).value.valid
    requires |b| <= |home|
    ensures First(t, c) == First(t, b)
    ensures Extra(c, First(t, b).value, -delta) == 0
    ensures Copied(c, home, First(t, b).value, -delta) == b[..First(t, b).value.len]
  {
    hide Copied, Extra, WellFormed, Decode;
    var s := First(t, b).value;
    var copy := Copied(b, Brks(|b|), s, delta);
    CopyDecodes(t, b, Brks(|b|), c[s.len..], false, false, delta);
    assert c == copy + c[s.len..];
    CopyBack(b, Brks(|b|), home, s, delta);
    assert copy[..s.len] == c[..s.len];
    SamePrefix(copy, c, s, home, -delta);
  }

  /** Known code that was moved is restored, and the loop counts every byte of it. */
  lemma {:induction false} BackRestores(t: Tables, b: seq<Byte>, c: seq<Byte>, delta: int, home: seq<Byte>)
    requires WellFormed(t) && Moved(t, b, c, delta) && AllKnown(t, b)
    requires |b| <= |home|
    ensures Back(t, c, home, -delta, |b|) == (b + home[|b|..], |b|)
    decreases |b|
  {
    hide *;
    if |b| > 0 {
      MovedStep(t, b, c, delta);
      KnownStep(t, b);
      var n := FirstLen(t, b);
      BackAfterFirst(t, b, c, delta, home, n);
      BackRestores(t, b[n..], c[n..], delta, home[n..]);
      JoinTail(b, n, home);
    } else {
      BackDone(t, c, home, -delta, 0);
      assert b + home[|b|..] == home;
    }
  }

  lemma JoinTail(b: seq<Byte>, n: nat, home: seq<Byte>)
    requires n <= |b| <= |home|
    ensures b[..n] + (b[n..] + home[n..][|b| - n..]) == b + home[|b|..]
  {
  }

  /** Past a known first instruction, the loop goes on with the rest of the window. */
  lemma BackAfterFirst(t: Tables, b: seq<Byte>, c: seq<Byte>, delta: int, home: seq<Byte>, n: nat)
    requires WellFormed(t) && 0 < |b| <= |c| && MovedOne(t, b, c, delta) && First(t, b).value.valid
    requires |b| <= |home| && n == FirstLen(t, b)
    ensures Back(t, c, home, -delta, |b|).0 == b[..n] + Back(t, c[n..], home[n..], -delta, |b| - n).0
    ensures Back(t, c, home, -delta, |b|).1 == n + Back(t, c[n..], home[n..], -delta, |b| - n).1
  {
    hide *;
    MovedIsSome(t, b, c, delta);
    FirstLenIs(t, b);
    FirstBack(t, b, c, delta, home);
    BackFrom(t, c, home, -delta, |b|, First(t, b).value, n, b[..n]);
  }

  lemma BackFrom(t: Tables, c: seq<Byte>, home: seq<Byte>, delta: int, size: nat, s: Shape, n: nat, first: seq<Byte>)
    requires WellFormed(t) && First(t, c) == Some(s) && n == s.len <= |home| && 0 < n <= size <= |c|
    requires Extra(c, s, delta) == 0 && Copied(c, home, s, delta) == first
    ensures Back(t, c, home, delta, size).0 == first + Back(t, c[n..], home[n..], delta, size - n).0
    ensures Back(t, c, home, delta, size).1 == n + Back(t, c[n..], home[n..], delta, size - n).1
  {
    hide *;
    BackStep(t, c, home, delta, size, s);
  }

  // ---------------------------------------------------------------- unknown opcodes

  /** What the tables say of the byte that fills a fresh trampoline: a known opcode in both. */
  predicate KnowsBrk(t: Tables)
  {
    && t.one(BRK) == CopyEntry(1, 1, 0, 0, Dynamic, Action.CopyBytes)
    && t.two(BRK) == CopyEntry(2, 2, 0, 0, NoFlag, Action.CopyBytes)
  }

  /** The trampoline shows BRK in place of an opcode without an entry, so it decodes as a known
      instruction whose copy puts BRK where the unknown opcode was. */
  lemma {:induction false} UnknownBecomesBrk(t: Tables, b: seq<Byte>, c: seq<Byte>, opSize: bool, adSize: bool)
    requires WellFormed(t) && KnowsBrk(t)
    requires Decode(t, b, opSize, adSize).Some? && !Decode(t, b, opSize, adSize).value.valid
    requires var n := Decode(t, b, opSize, adSize).value.len; n < |c| && c[..n] == b[..n - 1] + [BRK]
    ensures b[Decode(t, b, opSize, adSize).value.len - 1] != BRK
    ensures var r := Decode(t, c, opSize, adSize);
            var n := Decode(t, b, opSize, adSize).value.len;
            r.Some? && r.value.valid && r.value.relSize == 0 && n <= r.value.len <= n + 1
    decreases |b|
  {
    hide Decode, WellFormed;
    var n := Decode(t, b, opSize, adSize).value.len;
    DecodesSomething(t, b, opSize, adSize);
    if t.one(b[0]).action in {CopyBytesPrefix, Copy66, Copy67} {
      var a := t.one(b[0]).action;
      PrefixDecode(t, b, opSize, adSize);
      PrefixedBrk(b, c, n);
      PrefixDecode(t, c, opSize, adSize);
      UnknownBecomesBrk(t, b[1..], c[1..], opSize || a == Copy66, adSize || a == Copy67);
    } else {
      UnknownHere(t, b, c, opSize, adSize);
    }
  }

  lemma DecodesSomething(t: Tables, b: seq<Byte>, opSize: bool, adSize: bool)
    requires WellFormed(t) && Decode(t, b, opSize, adSize).Some?
    ensures |b| > 0
  {
  }

  /** A prefix makes the instruction behind it one byte longer. */
  lemma PrefixDecode(t: Tables, b: seq<Byte>, opSize: bool, adSize: bool)
    requires WellFormed(t) && |b| > 0 && t.one(b[0]).action in {CopyBytesPrefix, Copy66, Copy67}
    ensures var a := t.one(b[0]).action;
            var rest := Decode(t, b[1..], opSize || a == Copy66, adSize || a == Copy67);
            Decode(t, b, opSize, adSize) == match rest case None => None
                                            case Some(s) => Some(s.(len := s.len + 1, relAt := s.relAt + 1))
  {
  }

  lemma UnknownHere(t: Tables, b: seq<Byte>, c: seq<Byte>, opSize: bool, adSize: bool)
    requires WellFormed(t) && KnowsBrk(t)
    requires |b| > 0 && t.one(b[0]).action !in {CopyBytesPrefix, Copy66, Copy67}
    requires Decode(t, b, opSize, adSize).Some? && !Decode(t, b, opSize, adSize).value.valid
    requires var n := Decode(t, b, opSize, adSize).value.len; n < |c| && c[..n] == b[..n - 1] + [BRK]
    ensures b[Decode(t, b, opSize, adSize).value.len - 1] != BRK
    ensures var r := Decode(t, c, opSize, adSize);
            var n := Decode(t, b, opSize, adSize).value.len;
            r.Some? && r.value.valid && r.value.relSize == 0 && n <= r.value.len <= n + 1
  {
    hide Decode, WellFormed;
    InvalidOnly(t, b, opSize, adSize);
    var n := Decode(t, b, opSize, adSize).value.len;
    assert c[n - 1] == c[..n][n - 1] == BRK;
    if t.one(b[0]).action == Copy0F {
      assert c[0] == c[..n][0] == b[0];
      EscapedBrk(t, c, opSize, adSize);
    } else {
      BrkDecodes(t, c, opSize, adSize);
    }
  }

  /** Without a prefix, the unknown opcode is the only one there is. */
  lemma InvalidOnly(t: Tables, b: seq<Byte>, opSize: bool, adSize: bool)
    requires WellFormed(t) && |b| > 0 && t.one(b[0]).action !in {CopyBytesPrefix, Copy66, Copy67}
    requires Decode(t, b, opSize, adSize).Some? && !Decode(t, b, opSize, adSize).value.valid
    ensures t.one(b[0]).action == Invalid || (t.one(b[0]).action == Copy0F && |b| >= 2 && t.two(b[1]).action == Invalid)
    ensures Decode(t, b, opSize, adSize).value.len == if t.one(b[0]).action == Invalid then 1 else 2
  {
  }

  lemma BrkDecodes(t: Tables, c: seq<Byte>, opSize: bool, adSize: bool)
    requires WellFormed(t) && KnowsBrk(t) && |c| > 0 && c[0] == BRK
    ensures Decode(t, c, opSize, adSize) == Some(Shape(1, 0, 0, false, DynamicTarget, true))
  {
  }

  lemma EscapedBrk(t: Tables, c: seq<Byte>, opSize: bool, adSize: bool)
    requires WellFormed(t) && KnowsBrk(t) && |c| >= 3 && t.one(c[0]).action == Copy0F && c[1] == BRK
    ensures Decode(t, c, opSize, adSize) == Some(Shape(3, 1, 0, false, NoTarget, true))
  {
  }

  lemma PrefixedBrk(b: seq<Byte>, c: seq<Byte>, n: nat)
    requires 1 < n <= |b| && n < |c| && c[..n] == b[..n - 1] + [BRK]
    ensures c[0] == b[0] && c[1..][..n - 1] == b[1..][..n - 2] + [BRK]
  {
    assert c[0] == c[..n][0];
    assert c[1..][..n - 1] == c[..n][1..];
  }

  /** An unknown opcode anywhere in the window is not restored. */
  lemma {:induction false} BackSpoils(t: Tables, b: seq<Byte>, c: seq<Byte>, delta: int, home: seq<Byte>)
    requires WellFormed(t) && KnowsBrk(t) && Moved(t, b, c, delta) && !AllKnown(t, b)
    requires |b| < |home| && |b| < |c|
    ensures Back(t, c, home, -delta, |b|).0[..|b|] != b
    decreases |b|
  {
    assert |b| > 0;
    hide *;
    MovedStep(t, b, c, delta);
    KnownStep(t, b);
    MovedIsSome(t, b, c, delta);
    if First(t, b).value.valid {
      var n := FirstLen(t, b);
      BackSpoils(t, b[n..], c[n..], delta, home[n..]);
      BackAfterFirst(t, b, c, delta, home, n);
      DifferentTail(b, n, Back(t, c[n..], home[n..], -delta, |b| - n).0);
    } else {
      FirstSpoiled(t, b, c, delta, home);
    }
  }

  lemma MovedIsSome(t: Tables, b: seq<Byte>, c: seq<Byte>, delta: int)
    requires WellFormed(t) && |b| <= |c| && MovedOne(t, b, c, delta)
    ensures First(t, b).Some?
  {
  }

  lemma DifferentTail(b: seq<Byte>, n: nat, later: seq<Byte>)
    requires n <= |b| <= n + |later| && later[..|b| - n] != b[n..]
    ensures (b[..n] + later)[..|b|] != b
  {
    assert (b[..n] + later)[..|b|][n..] == later[..|b| - n];
  }

  lemma FirstSpoiled(t: Tables, b: seq<Byte>, c: seq<Byte>, delta: int, home: seq<Byte>)
    requires WellFormed(t) && KnowsBrk(t) && 0 < |b| < |c| && MovedOne(t, b, c, delta) && !First(t, b).value.valid
    requires |b| < |home|
    ensures Back(t, c, home, -delta, |b|).0[..|b|] != b
  {
    var n := First(t, b).value.len;
    UnknownCopied(t, b, c, delta);
    UnknownBecomesBrk(t, b, c, false, false);
    hide Copied, Extra, Decode, Back, WellFormed, KnowsBrk;
    assert c[n - 1] == c[..n][n - 1] == BRK;
    BackWritesBrk(t, c, home, -delta, |b|, n - 1);
    assert Back(t, c, home, -delta, |b|).0[..|b|][n - 1] == BRK;
  }

  lemma UnknownCopied(t: Tables, b: seq<Byte>, c: seq<Byte>, delta: int)
    requires WellFormed(t) && |b| <= |c| && MovedOne(t, b, c, delta) && !First(t, b).value.valid
    ensures var n := First(t, b).value.len; c[..n] == b[..n - 1] + [BRK]
  {
    hide Decode, WellFormed;
  }

  /** A first instruction without a relative operand is copied back as it stands. */
  lemma BackWritesBrk(t: Tables, c: seq<Byte>, home: seq<Byte>, delta: int, n: nat, k: nat)
    requires WellFormed(t) && n > 0 && First(t, c).Some?
    requires var s := First(t, c).value; s.valid && s.relSize == 0 && k < s.len <= |home| && c[k] == BRK
    ensures Back(t, c, home, delta, n).0[k] == BRK
  {
    hide Decode, WellFormed, Back;
    var s := First(t, c).value;
    assert Copied(c, home, s, delta) == c[..s.len];
    BackStep(t, c, home, delta, n, s);
  }

  /** Moving the window out and back is the identity exactly when the tables know every opcode in
      it; then the loop also counts every byte, so the commit reports no error. */
  lemma RoundTrip(t: Tables, b: seq<Byte>, c: seq<Byte>, delta: int, home: seq<Byte>)
    requires WellFormed(t) && KnowsBrk(t) && Moved(t, b, c, delta)
    requires |b| < |home| && |b| < |c|
    ensures Back(t, c, home, -delta, |b|).0[..|b|] == b <==> AllKnown(t, b)
    ensures AllKnown(t, b) ==> Back(t, c, home, -delta, |b|) == (b + home[|b|..], |b|)
  {
    hide *;
    if AllKnown(t, b) {
      BackRestores(t, b, c, delta, home);
    } else {
      BackSpoils(t, b, c, delta, home);
    }
  }

  /** The unknown opcode 0F 04 is seen as the longer 0F CC on the way back: the loop overruns the
      window and the commit reports its drastic error. */
  lemma DrasticErrorReached(delta: int, c: seq<Byte>, home: seq<Byte>)
    requires WellFormed(X86) && |home| >= 8
    requires |c| >= 10 && c[..5] == [0x0f, BRK, 0x6a, 0x05, 0x90]
    ensures Moved(X86, [0x0f, 0x04, 0x6a, 0x05, 0x90], c, delta)
    ensures Back(X86, c, home, -delta, 5).1 == 8
  {
    hide *;
    SeenAsShort(delta, c);
    SeenAsBswap(c);
    Overrun(X86, c, home, -delta);
  }

  lemma Overrun(t: Tables, c: seq<Byte>, home: seq<Byte>, delta: int)
    requires WellFormed(t) && |home| >= 8 && |c| >= 10
    requires First(t, c) == Some(Shape(3, 1, 0, false, NoTarget, true))
    requires First(t, c[3..]) == Some(Shape(5, 0, 0, false, NoTarget, true))
    ensures Back(t, c, home, delta, 5).1 == 8
  {
    hide Decode, Copied, First, WellFormed;
    BackStep(t, c, home, delta, 5, Shape(3, 1, 0, false, NoTarget, true));
    BackStep(t, c[3..], home[3..], delta, 2, Shape(5, 0, 0, false, NoTarget, true));
    BackDone(t, c[3..][5..], home[3..][5..], delta, -3);
  }

  /** 0F CC takes the next byte with it, and leaves the operand of the push to be read as ADD. */
  lemma SeenAsBswap(whole: seq<Byte>)
    requires WellFormed(X86)
    requires |whole| >= 10 && whole[..5] == [0x0f, BRK, 0x6a, 0x05, 0x90]
    ensures First(X86, whole) == Some(Shape(3, 1, 0, false, NoTarget, true))
    ensures First(X86, whole[3..]) == Some(Shape(5, 0, 0, false, NoTarget, true))
  {
    hide WellFormed;
    var head := whole[..5];
    assert whole[0] == head[0] == 0x0f && whole[1] == head[1] == 0xcc && whole[3] == head[3] == 0x05;
    assert whole[1..][0] == 0xcc && whole[3..][0] == 0x05;
    assert X86.one(0x0f) == OneByte(0x0f) && X86.two(0xcc) == TwoByte(0xcc) && X86.one(0x05) == OneByte(0x05);
  }

  lemma SeenAsShort(delta: int, whole: seq<Byte>)
    requires WellFormed(X86)
    requires |whole| >= 10 && whole[..5] == [0x0f, BRK, 0x6a, 0x05, 0x90]
    ensures Moved(X86, [0x0f, 0x04, 0x6a, 0x05, 0x90], whole, delta)
  {
    hide WellFormed, Decode, First;
    var b: seq<Byte> := [0x0f, 0x04, 0x6a, 0x05, 0x90];
    ShortForm(b);
    assert whole[..2] == whole[..5][..2] == [0x0f, BRK];
    assert MovedOne(X86, b, whole, delta);
    PushAndNop(delta, whole[2..]);
    assert b[2..] == [0x6a, 0x05, 0x90];
  }

  lemma ShortForm(b: seq<Byte>)
    requires WellFormed(X86) && |b| >= 2 && b[0] == 0x0f && b[1] == 0x04
    ensures First(X86, b) == Some(Shape(2, 1, 0, false, NoTarget, false))
  {
    hide WellFormed;
    assert X86.one(0x0f) == OneByte(0x0f) && X86.two(0x04) == TwoByte(0x04);
  }

  lemma PushAndNop(delta: int, c: seq<Byte>)
    requires WellFormed(X86) && |c| >= 8 && c[0] == 0x6a && c[1] == 0x05 && c[2] == 0x90
    ensures Moved(X86, [0x6a, 0x05, 0x90], c, delta)
  {
    hide WellFormed;
    var b: seq<Byte> := [0x6a, 0x05, 0x90];
    assert X86.one(0x6a) == OneByte(0x6a);
    assert First(X86, b) == Some(Shape(2, 0, 0, false, NoTarget, true));
    assert c[..2] == [0x6a, 0x05];
    assert MovedOne(X86, b, c, delta);
    assert b[2..] == [0x90] && X86.one(0x90) == OneByte(0x90);
    assert First(X86, [0x90]) == Some(Shape(1, 0, 0, false, NoTarget, true));
    assert c[2..][..1] == [0x90];
    assert MovedOne(X86, [0x90], c[2..], delta);
    assert Moved(X86, [], c[2..][1..], delta);
    assert Moved(X86, [0x90], c[2..], delta);
  }

  lemma X86KnowsBrk()
    ensures KnowsBrk(X86)
  {
    assert X86.one(BRK) == OneByte(BRK) && X86.two(BRK) == TwoByte(BRK);
  }

  // ---------------------------------------------------------------- branch targets

  /** Every relative branch of the window goes where it went before. */
  ghost predicate SameTargets(t: Tables, b: seq<Byte>, c: seq<Byte>, from: int, delta: int)
    requires WellFormed(t)
    decreases |b|
  {
    |b| <= |c| && |b| > 0 ==>
      && SameFirstTarget(t, b, c, from, delta)
      && SameTargets(t, b[FirstLen(t, b)..], c[FirstLen(t, b)..], from + FirstLen(t, b), delta)
  }

  ghost predicate SameFirstTarget(t: Tables, b: seq<Byte>, c: seq<Byte>, from: int, delta: int)
    requires WellFormed(t)
  {
    && First(t, b).Some? && First(t, c) == First(t, b)
    && (First(t, b).value.relSize > 0 ==>
          Target(from + delta, c, First(t, b).value) == Target(from, b, First(t, b).value))
  }

  lemma {:induction false} MovedTargets(t: Tables, b: seq<Byte>, c: seq<Byte>, from: int, delta: int)
    requires WellFormed(t) && Moved(t, b, c, delta) && AllKnown(t, b)
    ensures SameTargets(t, b, c, from, delta)
    decreases |b|
  {
    hide Decode, Copied, Extra, Target, WellFormed, Moved, AllKnown, First, SameFirstTarget;
    if |b| > 0 {
      MovedStep(t, b, c, delta);
      KnownStep(t, b);
      MovedFirstTarget(t, b, c, from, delta);
      var n := FirstLen(t, b);
      MovedTargets(t, b[n..], c[n..], from + n, delta);
    }
  }

  lemma MovedFirstTarget(t: Tables, b: seq<Byte>, c: seq<Byte>, from: int, delta: int)
    requires WellFormed(t) && |b| <= |c| && MovedOne(t, b, c, delta) && First(t, b).value.valid
    ensures SameFirstTarget(t, b, c, from, delta)
  {
    hide Decode, Extra, GetOffset, PutOffset, Copied, WellFormed;
    FirstBack(t, b, c, delta, b);
    var s := First(t, b).value;
    var copy := Copied(b, Brks(|b|), s, delta);
    assert copy[..s.len] == c[..s.len];
    if s.relSize > 0 {
      TargetPreserved(b, Brks(|b|), s, from, from + delta);
      SamePrefix(copy, c, s, b, 0);
    }
  }

  // ---------------------------------------------------------------- the window that an attach moves

  /** `w` is what the attach loop covers from `before` bytes on: whole instructions, each no longer than an x86
      instruction can be, until five bytes have been passed.  The tables need not know their opcodes. */
  ghost predicate Window(t: Tables, w: seq<Byte>, before: nat)
    requires WellFormed(t)
    decreases |w|
  {
    if |w| == 0 then before >= 5
    else
      && before < 5 && First(t, w).Some? && FirstLen(t, w) <= 15
      && Window(t, w[FirstLen(t, w)..], before + FirstLen(t, w))
  }

  lemma WindowStep(t: Tables, w: seq<Byte>, before: nat)
    requires WellFormed(t) && |w| > 0 && Window(t, w, before)
    ensures before < 5 && First(t, w).Some? && FirstLen(t, w) == First(t, w).value.len <= 15
    ensures Window(t, w[FirstLen(t, w)..], before + FirstLen(t, w))
  {
  }

  lemma {:induction false} WindowSize(t: Tables, w: seq<Byte>, before: nat)
    requires WellFormed(t) && Window(t, w, before)
    ensures before + |w| >= 5 && (before < 5 ==> before + |w| <= 19)
    decreases |w|
  {
    hide First, FirstLen, WellFormed, Window;
    if |w| > 0 {
      WindowStep(t, w, before);
      WindowSize(t, w[FirstLen(t, w)..], before + FirstLen(t, w));
    } else {
      WindowDone(t, w, before);
    }
  }

  /** The usual prologue of a hooked function (mov edi, edi; push ebp; mov ebp, esp) is a window of exactly five
      bytes. */
  lemma PrologueWindow()
    requires WellFormed(X86)
    ensures Window(X86, [0x8b, 0xff, 0x55, 0x8b, 0xec], 0) && AllKnown(X86, [0x8b, 0xff, 0x55, 0x8b, 0xec])
  {
    hide WellFormed, Decode, Window, AllKnown;
    var b: seq<Byte> := [0x8b, 0xff, 0x55, 0x8b, 0xec];
    ProloguePart(b, 2);
    ProloguePart(b[2..], 1);
    ProloguePart(b[3..], 2);
    assert b[2..][1..] == b[3..] && b[3..][2..] == [];
    NextWindow(X86, [], 5);
    NothingUnknown(X86, []);
    NextWindow(X86, b[3..], 3);
    KnownStep(X86, b[3..]);
    NextWindow(X86, b[2..], 2);
    KnownStep(X86, b[2..]);
    NextWindow(X86, b, 0);
    KnownStep(X86, b);
  }

  lemma NothingUnknown(t: Tables, b: seq<Byte>)
    requires WellFormed(t) && |b| == 0
    ensures AllKnown(t, b)
  {
  }

  lemma NextWindow(t: Tables, w: seq<Byte>, before: nat)
    requires WellFormed(t)
    requires if |w| == 0 then before >= 5
             else before < 5 && First(t, w).Some? && FirstLen(t, w) <= 15
                  && Window(t, w[FirstLen(t, w)..], before + FirstLen(t, w))
    ensures Window(t, w, before)
  {
  }

  /** mov r, r takes two bytes, push ebp one. */
  lemma ProloguePart(b: seq<Byte>, n: nat)
    requires WellFormed(X86) && |b| >= 2
    requires (n == 2 && b[0] == 0x8b && b[1] >= 0xc0) || (n == 1 && b[0] == 0x55)
    ensures First(X86, b) == Some(Shape(n, 0, 0, false, NoTarget, true)) && FirstLen(X86, b) == n
  {
    hide WellFormed;
    assert X86.one(b[0]) == OneByte(b[0]);
  }

  lemma WindowDone(t: Tables, w: seq<Byte>, before: nat)
    requires WellFormed(t) && |w| == 0 && Window(t, w, before)
    ensures before >= 5
  {
  }

  /** Whether code has been moved depends on the bytes of the copy only. */
  lemma {:induction false} MovedLocal(t: Tables, b: seq<Byte>, c: seq<Byte>, d: seq<Byte>, delta: int)
    requires WellFormed(t) && Moved(t, b, c, delta) && |b| <= |c| && |b| <= |d| && c[..|b|] == d[..|b|]
    ensures Moved(t, b, d, delta)
    decreases |b|
  {
    hide *;
    if |b| > 0 {
      var n := FirstLen(t, b);
      MovedStep(t, b, c, delta);
      MovedStep(t, b, d, delta);
      PrefixTail(c, d, |b|, n);
      MovedLocal(t, b[n..], c[n..], d[n..], delta);
      MovedOneLocal(t, b, c, d, delta);
    } else {
      MovedNothing(t, b, d, delta);
    }
  }

  lemma MovedNothing(t: Tables, b: seq<Byte>, c: seq<Byte>, delta: int)
    requires WellFormed(t) && |b| == 0
    ensures Moved(t, b, c, delta)
  {
  }

  lemma PrefixTail(c: seq<Byte>, d: seq<Byte>, n: nat, k: nat)
    requires k <= n <= |c| && n <= |d| && c[..n] == d[..n]
    ensures c[k..][..n - k] == d[k..][..n - k] && c[..k] == d[..k]
  {
    assert c[k..][..n - k] == c[..n][k..];
    assert d[k..][..n - k] == d[..n][k..];
    assert c[..k] == c[..n][..k];
    assert d[..k] == d[..n][..k];
  }

  lemma MovedOneLocal(t: Tables, b: seq<Byte>, c: seq<Byte>, d: seq<Byte>, delta: int)
    requires WellFormed(t) && |b| <= |c| && |b| <= |d| && c[..|b|] == d[..|b|] && MovedOne(t, b, c, delta)
    ensures MovedOne(t, b, d, delta)
  {
    hide Decode, Copied, Extra, WellFormed;
    PrefixTail(c, d, |b|, First(t, b).value.len);
  }

  /** One more instruction at the end, copied into memory filled with BRK. */
  lemma {:induction false} MovedAppend(t: Tables, b: seq<Byte>, x: seq<Byte>, s: Shape, c: seq<Byte>, delta: int)
    requires WellFormed(t) && Moved(t, b, c, delta)
    requires |x| > 0 && First(t, x) == Some(s) && s.len == |x| && Extra(x, s, delta) == 0
    requires |b| + |x| <= |c| && c[|b|..|b| + |x|] == Copied(x, Brks(|x|), s, delta)
    ensures Moved(t, b + x, c, delta)
    decreases |b|
  {
    hide *;
    MovedStep(t, b + x, c, delta);
    if |b| > 0 {
      MovedStep(t, b, c, delta);
      var n := FirstLen(t, b);
      MovedOneLonger(t, b, x, c, delta);
      assert (b + x)[n..] == b[n..] + x;
      assert c[n..][|b| - n..|b| - n + |x|] == c[|b|..|b| + |x|];
      MovedAppend(t, b[n..], x, s, c[n..], delta);
    } else {
      assert b + x == x;
      LastMoved(t, x, s, c, delta);
    }
  }

  lemma LastMoved(t: Tables, x: seq<Byte>, s: Shape, c: seq<Byte>, delta: int)
    requires WellFormed(t) && First(t, x) == Some(s) && s.len == |x| && Extra(x, s, delta) == 0
    requires |x| <= |c| && c[0..|x|] == Copied(x, Brks(|x|), s, delta)
    ensures |x| > 0 && FirstLen(t, x) == |x| && MovedOne(t, x, c, delta) && Moved(t, x[|x|..], c[|x|..], delta)
  {
    hide Decode, WellFormed, Extra;
    MovedNothing(t, x[|x|..], c[|x|..], delta);
  }

  lemma MovedOneLonger(t: Tables, b: seq<Byte>, x: seq<Byte>, c: seq<Byte>, delta: int)
    requires WellFormed(t) && 0 < |b| && |b| + |x| <= |c| && MovedOne(t, b, c, delta)
    ensures First(t, b + x) == First(t, b) && FirstLen(t, b + x) == FirstLen(t, b) && MovedOne(t, b + x, c, delta)
  {
    hide Decode, WellFormed, Extra, Copied;
    var s := First(t, b).value;
    FirstLonger(t, b, x);
    SamePrefix(b, b + x, s, Brks(|b + x|), delta);
    BrksIgnored(b, |b|, |b + x|, s, delta);
  }

  /** The copy depends on BRK at the destination, not on how much of it there is. */
  lemma BrksIgnored(b: seq<Byte>, n: nat, k: nat, s: Shape, delta: int)
    requires ShapeOk(s, |b|) && s.len <= n && s.len <= k
    ensures Copied(b, Brks(n), s, delta) == Copied(b, Brks(k), s, delta)
  {
    hide Overwrite, PutOffset, GetOffset;
  }

  lemma FirstLonger(t: Tables, b: seq<Byte>, x: seq<Byte>)
    requires WellFormed(t) && First(t, b).Some?
    ensures First(t, b + x) == First(t, b)
    ensures (b + x)[..First(t, b).value.len] == b[..First(t, b).value.len]
  {
    DecodeStable(t, b, b + x, false, false);
  }

  /** The first instruction on its own. */
  lemma FirstAlone(t: Tables, b: seq<Byte>)
    requires WellFormed(t) && First(t, b).Some?
    ensures First(t, b[..First(t, b).value.len]) == First(t, b)
  {
    DecodeStable(t, b, b[..First(t, b).value.len], false, false);
  }

  lemma KnownIgnoresDst(b: seq<Byte>, d1: seq<Byte>, d2: seq<Byte>, s: Shape, delta: int)
    requires ShapeOk(s, |b|) && s.valid && s.len <= |d1| && s.len <= |d2|
    ensures Copied(b, d1, s, delta) == Copied(b, d2, s, delta)
  {
  }

  lemma FirstLenIs(t: Tables, b: seq<Byte>)
    requires WellFormed(t) && |b| > 0 && First(t, b).Some?
    ensures FirstLen(t, b) == First(t, b).value.len
  {
  }
}
