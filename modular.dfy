/** Facts about Euclidean `%` on slot indices of circular buffers. */
module Modular {
  lemma MulAtLeast(a: int, b: int)
    requires a >= 1 && b > 0
    ensures a * b >= b
  {
    if a > 1 {
      MulAtLeast(a - 1, b);
      assert a * b == (a - 1) * b + b;
    }
  }
  lemma ModOf(x: int, q: int, size: int, r: int)
    requires size > 0 && 0 <= r < size && x == q * size + r
    ensures x % size == r
  {
    var q', r' := x / size, x % size;
    assert x == q' * size + r';
    var d := q - q';
    assert d * size == r' - r;
    if d >= 1 {
      MulAtLeast(d, size);
    } else if d <= -1 {
      MulAtLeast(-d, size);
    }
  }
  lemma SlotsDistinct(k: int, p: int, size: int)
    requires 0 <= k < p && p - k < size
    ensures k % size != p % size
  {
    var q, r := k / size, k % size;
    var d := p - k;
    if r + d < size {
      ModOf(p, q, size, r + d);
    } else {
      ModOf(p, q + 1, size, r + d - size);
    }
  }
  lemma ModNext(n: int, size: int)
    requires n >= 0 && size > 0
    ensures (n + 1) % size == if n % size + 1 == size then 0 else n % size + 1
  {
    var q, r := n / size, n % size;
    if r + 1 == size {
      ModOf(n + 1, q + 1, size, 0);
    } else {
      ModOf(n + 1, q, size, r + 1);
    }
  }
}
