/** Optional values, results and the Python exceptions the core can raise. */
module Prelude {

  datatype Option<+T> = None | Some(value: T)

  datatype Result<+T, +E> = Ok(value: T) | Err(error: E)

  /** The exceptions that escape the modelled code. */
  datatype Exception = IndexError | ValueError | StopIteration

  function Min(a: int, b: int): int
  {
    if a <= b then a else b
  }

  /**
   * Python subscription `s[i]` on a tuple or list: a negative index counts
   * from the end, and an index outside [-|s|, |s|) raises IndexError.
   */
  function PyIndex<T>(s: seq<T>, i: int): Option<T>
  {
    if 0 <= i < |s| then Some(s[i])
    else if -|s| <= i < 0 then Some(s[|s| + i])
    else None
  }

  /** A prefix of a prefix is a prefix. */
  lemma PrefixOfPrefix<T>(a: seq<T>, b: seq<T>, j: nat)
    requires j <= |b| <= |a| && a[..|b|] == b
    ensures a[..j] == b[..j]
  {
    assert a[..j] == a[..|b|][..j];
  }

  /** A prefix agrees with the whole sequence at its own positions. */
  lemma PrefixAt<T>(a: seq<T>, b: seq<T>, j: nat)
    requires j < |b| <= |a| && a[..|b|] == b
    ensures a[j] == b[j]
  {
    assert a[..|b|][j] == a[j];
  }

  // ---------------------------------------------------------------- integer arithmetic facts

  /** Python's `x ** 2`: never negative, and 0 only for 0. */
  function Square(x: int): (s: nat)
    ensures s == 0 <==> x == 0
    ensures x != 0 ==> s >= 1
  {
    MulSign(if x >= 0 then x else -x, if x >= 0 then x else -x);
    x * x
  }

  /**
   * Python's integer `a // b`: the quotient rounded towards minus infinity.
   * For a positive divisor it is Dafny's Euclidean `/`.
   */
  function FloorDiv(a: int, b: int): (q: int)
    requires b != 0
    ensures b > 0 ==> q == a / b
    ensures b < 0 ==> q * b <= a - b - 1 && a <= q * b
  {
    if b > 0 || a % b == 0 then a / b else a / b - 1
  }

  /**
   * Python's integer `a % b`: the remainder that goes with FloorDiv, which has
   * the sign of the divisor.
   */
  function FloorMod(a: int, b: int): (r: int)
    requires b != 0
    ensures a == FloorDiv(a, b) * b + r
    ensures b > 0 ==> 0 <= r < b && r == a % b
    ensures b < 0 ==> b < r <= 0
  {
    if b > 0 || a % b == 0 then a % b else a % b + b
  }

  /** Euclidean division has one quotient and one remainder. */
  lemma ModUnique(k: int, n: nat, q: int, r: int)
    requires 0 < n && 0 <= r < n && k == q * n + r
    ensures k % n == r && k / n == q
  {
    var q', r' := k / n, k % n;
    MulSub(q, q', n);
    MulSign(q - q', n);
  }

  lemma MulSub(a: int, b: int, n: int)
    ensures (a - b) * n == a * n - b * n
  {
  }

  lemma MulSign(d: int, n: int)
    requires n >= 0
    ensures d >= 1 ==> d * n >= n
    ensures d <= -1 ==> d * n <= -n
  {
    if d >= 1 {
      assert d * n == (d - 1) * n + n;
    } else if d <= -1 {
      assert d * n == (d + 1) * n - n;
    }
  }

  lemma MulMono(a: int, b: int, c: int)
    requires a <= b && 0 <= c
    ensures a * c <= b * c
  {
    assert b * c - a * c == (b - a) * c;
  }

  lemma DivNonneg(a: int, n: int)
    requires 0 <= a && 1 <= n
    ensures 0 <= a / n
  {
    MulSign(a / n, n);
  }

  /** Within any n consecutive naturals the remainders mod n are distinct. */
  lemma ResiduesDistinct(a: nat, b: nat, n: nat)
    requires 0 < n && a < b < a + n
    ensures a % n != b % n
  {
    var qa, qb := a / n, b / n;
    MulSub(qb, qa, n);
    MulSign(qb - qa, n);
  }
}
