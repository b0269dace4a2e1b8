/** Bytes, words and double words of a 32-bit little-endian machine. */
module Bytes {
  type Byte = x: int | 0 <= x < 0x100
  type Word = x: int | 0 <= x < 0x1_0000
  type Dword = x: int | 0 <= x < 0x1_0000_0000

  /** Truncation to 32 bits, as unsigned and pointer arithmetic does it. */
  function Wrap(x: int): Dword { x % 0x1_0000_0000 }

  /** A 32-bit pattern read as a two's-complement number. */
  function Signed(x: Dword): int { if x < 0x8000_0000 then x else x - 0x1_0000_0000 }

  function WordAt(b: seq<Byte>, at: nat): Word
    requires at + 2 <= |b|
  {
    b[at] as int + 0x100 * (b[at + 1] as int)
  }

  function PutWord(b: seq<Byte>, at: nat, w: Word): (r: seq<Byte>)
    requires at + 2 <= |b|
    ensures |r| == |b| && WordAt(r, at) == w
    ensures forall i | 0 <= i < |b| && i != at && i != at + 1 :: r[i] == b[i]
  {
    b[at := w % 0x100][at + 1 := w / 0x100]
  }

  /** `b` with `bytes` stored at `at`. */
  function Overwrite(b: seq<Byte>, at: nat, bytes: seq<Byte>): (r: seq<Byte>)
    requires at + |bytes| <= |b|
    ensures |r| == |b|
  {
    b[..at] + bytes + b[at + |bytes|..]
  }

  lemma OverwriteTwice(b: seq<Byte>, at: nat, x: seq<Byte>, y: seq<Byte>)
    requires at + |x| + |y| <= |b|
    ensures Overwrite(Overwrite(b, at, x), at + |x|, y) == Overwrite(b, at, x + y)
  {
  }

  /** A stretch that the stored bytes do not meet is unchanged. */
  lemma OverwriteElsewhere(b: seq<Byte>, at: nat, bytes: seq<Byte>, lo: nat, hi: nat)
    requires at + |bytes| <= |b| && lo <= hi <= |b|
    requires at + |bytes| <= lo || hi <= at
    ensures Overwrite(b, at, bytes)[lo..hi] == b[lo..hi]
  {
  }

  /** The four bytes at `a` are not among the stored ones. */
  lemma DwordElsewhere(b: seq<Byte>, at: nat, bytes: seq<Byte>, a: nat)
    requires at + |bytes| <= |b| && a + 4 <= |b|
    requires a + 4 <= at || at + |bytes| <= a
    ensures DwordAt(Overwrite(b, at, bytes), a) == DwordAt(b, a)
  {
    var r := Overwrite(b, at, bytes);
    assert forall i | a <= i < a + 4 :: r[i] == b[i];
  }

  lemma DwordStored(b: seq<Byte>, at: nat, v: Dword)
    requires at + 4 <= |b|
    ensures DwordAt(Overwrite(b, at, DwordBytes(v)), at) == v
  {
    var r := Overwrite(b, at, DwordBytes(v));
    var f := r[at..at + 4];
    assert f == DwordBytes(v);
    assert r[at] == f[0] && r[at + 1] == f[1] && r[at + 2] == f[2] && r[at + 3] == f[3];
    DwordRoundTrip(v);
  }

  /** The byte a fresh trampoline is filled with: the instruction int 3. */
  const BRK: Byte := 0xcc

  function Fill(x: Byte, n: nat): (r: seq<Byte>)
    ensures |r| == n && forall i | 0 <= i < n :: r[i] == x
  {
    if n == 0 then [] else Fill(x, n - 1) + [x]
  }

  function Brks(n: nat): (r: seq<Byte>)
    ensures |r| == n
  {
    Fill(BRK, n)
  }

  lemma SliceOfSuffix(b: seq<Byte>, k: nat, i: nat, j: nat)
    requires k <= |b| && i <= j <= |b| - k
    ensures b[k..][i..j] == b[k + i..k + j]
  {
  }

  lemma SliceOfSlice(b: seq<Byte>, lo: nat, hi: nat, i: nat, j: nat)
    requires lo <= hi <= |b| && i <= j <= hi - lo
    ensures b[lo..hi][i..j] == b[lo + i..lo + j]
  {
    var x, y := b[lo..hi][i..j], b[lo + i..lo + j];
    assert |x| == |y| && forall k | 0 <= k < |x| :: x[k] == b[lo..hi][i + k] == y[k];
  }

  function DwordAt(b: seq<Byte>, at: nat): Dword
    requires at + 4 <= |b|
  {
    b[at] as int + 0x100 * (b[at + 1] as int) + 0x1_0000 * (b[at + 2] as int) + 0x100_0000 * (b[at + 3] as int)
  }

  // ---------------------------------------------------------------- little-endian offsets

  function DwordBytes(v: Dword): (r: seq<Byte>)
    ensures |r| == 4
  {
    [v % 0x100, v / 0x100 % 0x100, v / 0x1_0000 % 0x100, v / 0x100_0000]
  }

  lemma DwordRoundTrip(v: Dword)
    ensures DwordAt(DwordBytes(v), 0) == v
  {
    assert v / 0x100 == v / 0x1_0000 * 0x100 + v / 0x100 % 0x100;
    assert v / 0x1_0000 == v / 0x100_0000 * 0x100 + v / 0x1_0000 % 0x100;
  }

  lemma DwordDigits(b: seq<Byte>)
    requires |b| == 4
    ensures DwordBytes(DwordAt(b, 0)) == b
  {
    var v: int := DwordAt(b, 0);
    var h := b[1] as int + 0x100 * (b[2] as int) + 0x1_0000 * (b[3] as int);
    var hh := b[2] as int + 0x100 * (b[3] as int);
    assert v == b[0] as int + 0x100 * h;
    assert v == (b[0] as int + 0x100 * (b[1] as int)) + 0x1_0000 * hh;
    assert v / 0x100 == h && v % 0x100 == b[0];
    assert h % 0x100 == b[1];
    assert v / 0x1_0000 == hh && hh % 0x100 == b[2];
    assert b == [b[0], b[1], b[2], b[3]];
  }

  predicate OffsetSize(n: nat) { n == 0 || n == 1 || n == 2 || n == 4 }

  /** The low `n` bytes of an offset. */
  function PutOffset(v: int, n: nat): (r: seq<Byte>)
    requires OffsetSize(n)
    ensures |r| == n
  {
    if n == 0 then []
    else if n == 1 then [v % 0x100]
    else if n == 2 then (var w := v % 0x1_0000; [w % 0x100, w / 0x100])
    else DwordBytes(Wrap(v))
  }

  /** An offset of 1, 2 or 4 bytes, sign-extended. */
  function GetOffset(b: seq<Byte>): int
    requires OffsetSize(|b|)
  {
    if |b| == 0 then 0
    else if |b| == 1 then (if b[0] < 0x80 then b[0] as int else b[0] as int - 0x100)
    else if |b| == 2 then (var w := WordAt(b, 0); if w < 0x8000 then w as int else w as int - 0x1_0000)
    else Signed(DwordAt(b, 0))
  }

  /** The numbers that `n` bytes can hold. */
  predicate FitsOffset(v: int, n: nat)
  {
    if n == 1 then -0x80 <= v < 0x80
    else if n == 2 then -0x8000 <= v < 0x8000
    else -0x8000_0000 <= v < 0x8000_0000
  }

  lemma WrapSigned(x: Dword)
    ensures Wrap(Signed(x)) == x && FitsOffset(Signed(x), 4)
  {
  }

  lemma SignedWrap(v: int)
    requires FitsOffset(v, 4)
    ensures Signed(Wrap(v)) == v
  {
  }

  /** Reading an offset and storing it again gives the same bytes. */
  lemma PutGetOffset(b: seq<Byte>)
    requires OffsetSize(|b|)
    ensures PutOffset(GetOffset(b), |b|) == b
    ensures FitsOffset(GetOffset(b), |b|)
  {
    hide DwordAt, DwordBytes, WordAt, Signed, Wrap;
    if |b| == 1 {
      assert b == [b[0]];
    } else if |b| == 2 {
      WordBack(b);
    } else if |b| == 4 {
      DwordDigits(b);
      WrapSigned(DwordAt(b, 0));
    }
  }

  lemma WordBack(b: seq<Byte>)
    requires |b| == 2
    ensures PutOffset(GetOffset(b), 2) == b && FitsOffset(GetOffset(b), 2)
  {
    hide DwordAt, DwordBytes;
    assert b == [b[0], b[1]];
  }

  /** Storing an offset and reading it back gives the same number exactly when it fits. */
  lemma GetPutOffset(v: int, n: nat)
    requires n == 1 || n == 2 || n == 4
    requires FitsOffset(v, 4)
    ensures GetOffset(PutOffset(v, n)) == v <==> FitsOffset(v, n)
    ensures FitsOffset(GetOffset(PutOffset(v, n)), 4)
  {
    hide *;
    if n == 4 {
      DoubleWordOffset(v);
    } else if n == 2 {
      WordOffset(v);
    } else {
      ByteOffset(v);
    }
  }

  lemma ByteOffset(v: int)
    ensures GetOffset(PutOffset(v, 1)) == v <==> FitsOffset(v, 1)
    ensures FitsOffset(GetOffset(PutOffset(v, 1)), 4)
  {
  }

  lemma WordOffset(v: int)
    ensures GetOffset(PutOffset(v, 2)) == v <==> FitsOffset(v, 2)
    ensures FitsOffset(GetOffset(PutOffset(v, 2)), 4)
  {
    var w := v % 0x1_0000;
    assert WordAt([w % 0x100, w / 0x100], 0) == w;
  }

  lemma DoubleWordOffset(v: int)
    requires FitsOffset(v, 4)
    ensures GetOffset(PutOffset(v, 4)) == v && FitsOffset(v, 4)
  {
    hide DwordAt, DwordBytes;
    DwordRoundTrip(Wrap(v));
    SignedWrap(v);
  }

  /** Two offsets lead to one address only if they are the same offset. */
  lemma WrapInjective(k: int, x: int, y: int)
    requires FitsOffset(x, 4) && FitsOffset(y, 4)
    ensures Wrap(k + x) == Wrap(k + y) <==> x == y
  {
    if Wrap(k + x) == Wrap(k + y) {
      assert (k + x) - (k + y) == 0x1_0000_0000 * ((k + x) / 0x1_0000_0000 - (k + y) / 0x1_0000_0000);
    }
  }

  /** Wrapping an offset does not change the address it leads to. */
  lemma WrapOffset(k: int, x: int)
    ensures Wrap(k + Signed(Wrap(x))) == Wrap(k + x)
  {
    var q := x / 0x1_0000_0000 + (if Wrap(x) < 0x8000_0000 then 0 else 1);
    assert x == 0x1_0000_0000 * q + Signed(Wrap(x));
    AddMultiple(k + Signed(Wrap(x)), q);
  }

  lemma AddMultiple(x: int, q: int)
    ensures Wrap(x + 0x1_0000_0000 * q) == Wrap(x)
  {
    assert x + 0x1_0000_0000 * q == 0x1_0000_0000 * (x / 0x1_0000_0000 + q) + x % 0x1_0000_0000;
  }
}
