/** Rounding sizes and addresses up: Align, QuadAlign, FileAlign and SectionAlign of image.cpp, for sums
    that stay within 32 bits. */
module Alignment {
  function Align(n: nat, size: nat): (r: nat)
    requires size > 0
    ensures n <= r < n + size && r % size == 0
  {
    MultipleOf((n + size - 1) / size, size);
    (n + size - 1) / size * size
  }

  lemma MultipleOf(k: nat, size: nat)
    requires size > 0
    ensures k * size % size == 0
  {
    DivisionUnique(k * size, size, k, 0);
  }

  lemma DivisionUnique(n: int, size: nat, q: int, r: nat)
    requires size > 0 && n == q * size + r && r < size
    ensures n / size == q && n % size == r
  {
    var d := n / size - q;
    assert n == n / size * size + n % size;
    assert d * size == r - n % size;
    Multiples(d, size);
  }

  lemma {:induction false} Multiples(d: int, size: int)
    requires size >= 0
    ensures d > 0 ==> d * size >= size
    ensures d < 0 ==> d * size <= -size
    decreases if d < 0 then -d else d
  {
    if d > 1 {
      Multiples(d - 1, size);
      Distribute(d - 1, 1, size);
    } else if d < -1 {
      Multiples(d + 1, size);
      Distribute(d + 1, -1, size);
    }
  }

  lemma Distribute(a: int, b: int, size: int)
    ensures (a + b) * size == a * size + b * size
  {
  }

  /** An aligned number stays as it is. */
  lemma AlignedStays(n: nat, size: nat)
    requires size > 0 && n % size == 0
    ensures Align(n, size) == n
  {
    var q := n / size;
    assert n + size - 1 == q * size + (size - 1);
    DivisionUnique(n + size - 1, size, q, size - 1);
  }

  function QuadAlign(n: nat): (r: nat)
    ensures n <= r < n + 8 && r % 8 == 0
  {
    Align(n, 8)
  }
}
