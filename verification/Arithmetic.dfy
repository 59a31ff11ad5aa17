/** The arithmetic facts several components share. */
module Arithmetic {

  lemma Scale(a: int, b: int, c: int)
    requires a <= b && c > 0
    ensures a * c <= b * c
  {
  }

  lemma Distribute(a: int, b: int, c: int)
    ensures (a + b) * c == a * c + b * c
  {
  }

  /** Two numbers have the same remainder exactly when their difference has none. */
  lemma SameRemainder(a: int, b: int, n: int)
    requires n > 0
    ensures a % n == b % n <==> (b - a) % n == 0
  {
    var p, q, r := a / n, b / n, (b - a) / n;
    assert a == p * n + a % n && b == q * n + b % n && b - a == r * n + (b - a) % n;
    if a % n == b % n {
      assert b - a == (q - p) * n + 0;
      DivIsUnique(b - a, n, q - p, 0);
    }
    if (b - a) % n == 0 {
      assert b == (p + r) * n + a % n;
      DivIsUnique(b, n, p + r, a % n);
    }
  }

  /** One step around a ring of n positions; -1 stands before the first. */
  lemma NextIndex(i: int, n: int)
    requires -1 <= i < n && 0 < n
    ensures (i + 1) % n == if i + 1 == n then 0 else i + 1
  {
  }

  lemma SmallMultiple(d: int, per: int)
    requires per > 0 && -per < d * per < per
    ensures d == 0
  {
    if d > 0 { Scale(1, d, per); }
    if d < 0 { Scale(d, -1, per); }
  }

  lemma DivIsUnique(a: int, per: int, q: int, r: int)
    requires per > 0 && a == q * per + r && 0 <= r < per
    ensures a / per == q && a % per == r
  {
    var d := a / per - q;
    assert a == (a / per) * per + a % per;
    assert d * per == r - a % per;
    SmallMultiple(d, per);
  }
}
