/** Index arithmetic of row-major storage, facts about sequences, and the dot product. */
module Arith {

  function Min(a: nat, b: nat): nat { if a < b then a else b }

  function Max(a: nat, b: nat): nat { if a < b then b else a }

  /** Row `a` of width `c` ends before the end of `b` rows. */
  lemma MulStep(a: nat, b: nat, c: nat)
    requires a < b
    ensures 0 <= a * c && a * c + c <= b * c
  {
    assert b * c == a * c + c + (b - a - 1) * c;
  }

  lemma MulLe(a: nat, b: nat, c: nat)
    requires a <= b
    ensures a * c <= b * c
  {
    if a < b { MulStep(a, b, c); }
  }

  /** Quotient and remainder are unique. */
  lemma ModUnique(k: nat, b: nat, q: nat, r: nat)
    requires b > 0 && r < b && k == q * b + r
    ensures k % b == r && k / b == q
  {
    var q', r' := k / b, k % b;
    assert k == q' * b + r';
    if q' < q { MulStep(q', q, b); }
    if q < q' { MulStep(q, q', b); }
  }

  /** The row and column of the `k`-th element. */
  lemma RowOf(k: nat, rows: nat, n: nat)
    requires k < rows * n
    ensures n > 0 && k / n < rows && k % n < n && k == k / n * n + k % n
  {
    if n > 0 && k / n >= rows { MulLe(rows, k / n, n); }
  }

  lemma SliceOfSlice<T>(s: seq<T>, a: nat, n: nat, b: nat, m: nat)
    requires a + n <= |s| && b + m <= n
    ensures s[a + b .. a + b + m] == s[a .. a + n][b .. b + m]
  {
    var left, right := s[a + b .. a + b + m], s[a .. a + n][b .. b + m];
    assert |left| == |right|;
    forall i | 0 <= i < m ensures left[i] == right[i] {
      assert right[i] == s[a .. a + n][b + i];
    }
  }

  lemma ConcatAssoc<T>(a: seq<T>, b: seq<T>, c: seq<T>)
    ensures (a + b) + c == a + (b + c)
  {
  }

  function Pow2(n: nat): nat { if n == 0 then 1 else 2 * Pow2(n - 1) }

  /** The dot product of `n` numbers of `a` from `ao` on with `n` numbers of `b` from `bo` on. */
  ghost function Dot(a: seq<real>, ao: nat, b: seq<real>, bo: nat, n: nat): real
    requires ao + n <= |a| && bo + n <= |b|
  {
    if n == 0 then 0.0 else Dot(a, ao, b, bo, n - 1) + a[ao + n - 1] * b[bo + n - 1]
  }
}
