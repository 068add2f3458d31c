/** Rounding, divisibility and summation facts shared by the models. */
module Arith {

  /** `SPDK_CEIL_DIV(x, b) * b`: the least multiple of `b` that is at least `x`. */
  function RoundUp(x: nat, b: nat): nat
    requires b > 0
  {
    (x + b - 1) / b * b
  }

  lemma RoundUpBounds(x: nat, b: nat)
    requires b > 0
    ensures x <= RoundUp(x, b) < x + b
    ensures RoundUp(x, b) % b == 0
  {
    var q := (x + b - 1) / b;
    assert x + b - 1 == q * b + (x + b - 1) % b;
    MultipleMod(q, b);
  }

  lemma MultipleMod(q: int, b: nat)
    requires b > 0
    ensures (q * b) % b == 0
  {
    DivModUnique(q * b, b, q, 0);
  }

  lemma MulMonotoneSigned(d: int, b: nat)
    ensures d >= 1 ==> d * b >= b
    ensures d <= -1 ==> d * b <= 0 - b
  {
  }

  /** Euclidean quotient and remainder are unique. */
  lemma DivModUnique(x: int, b: nat, q: int, r: nat)
    requires b > 0 && r < b && x == q * b + r
    ensures x / b == q && x % b == r
  {
    var d := x / b - q;
    assert x == (x / b) * b + x % b;
    assert d * b == r - x % b;
    MulMonotoneSigned(d, b);
  }

  /** Sums and differences of multiples are multiples. */
  lemma MultiplesAdd(x: int, y: int, b: nat)
    requires b > 0 && x % b == 0 && y % b == 0
    ensures (x + y) % b == 0
    ensures (x - y) % b == 0
  {
    assert x == (x / b) * b && y == (y / b) * b;
    assert x + y == (x / b + y / b) * b;
    MultipleMod(x / b + y / b, b);
    assert x - y == (x / b - y / b) * b;
    MultipleMod(x / b - y / b, b);
  }

  lemma MultipleOfMultiple(k: int, u: int, b: nat)
    requires b > 0 && u % b == 0
    ensures (k * u) % b == 0
  {
    assert k * u == (k * (u / b)) * b by {
      assert u == (u / b) * b;
    }
    MultipleMod(k * (u / b), b);
  }

  lemma MulMonotone(q: int, k: int, b: nat)
    requires q <= k
    ensures q * b <= k * b
  {
  }

  lemma MulCancelLess(q: int, k: int, b: nat)
    requires q * b < k * b
    ensures q < k
  {
    assert q >= k ==> q * b >= k * b;
  }

  lemma RoundUpLeast(x: nat, b: nat, y: nat)
    requires b > 0 && x <= y && y % b == 0
    ensures RoundUp(x, b) <= y
  {
    var q, k := (x + b - 1) / b, y / b;
    assert x + b - 1 == q * b + (x + b - 1) % b;
    assert y == k * b;
    MulCancelLess(q, k + 1, b);
    MulMonotone(q, k, b);
  }

  lemma RoundUpFixed(x: nat, b: nat)
    requires b > 0 && x % b == 0
    ensures RoundUp(x, b) == x
  {
    RoundUpLeast(x, b, x);
    RoundUpBounds(x, b);
  }

  /** Sum of a measure over a sequence. */
  ghost function Sum<T>(s: seq<T>, f: T -> nat): nat {
    if s == [] then 0 else f(s[0]) + Sum(s[1..], f)
  }

  lemma {:induction false} SumUpdate<T>(s: seq<T>, i: nat, x: T, f: T -> nat)
    requires i < |s|
    ensures Sum(s[i := x], f) + f(s[i]) == Sum(s, f) + f(x)
  {
    if i == 0 {
      assert s[0 := x][1..] == s[1..];
    } else {
      assert s[i := x][1..] == s[1..][i - 1 := x];
      SumUpdate(s[1..], i - 1, x, f);
    }
  }

  lemma {:induction false} SumAtLeast<T>(s: seq<T>, i: nat, f: T -> nat)
    requires i < |s|
    ensures Sum(s, f) >= f(s[i])
  {
    if i > 0 {
      SumAtLeast(s[1..], i - 1, f);
    }
  }

  lemma {:induction false} SumZero<T>(s: seq<T>, f: T -> nat)
    ensures Sum(s, f) == 0 <==> forall i :: 0 <= i < |s| ==> f(s[i]) == 0
  {
    if s != [] {
      SumZero(s[1..], f);
      assert forall i :: 0 < i < |s| ==> s[i] == s[1..][i - 1];
      assert forall i :: 0 <= i < |s[1..]| ==> s[1..][i] == s[i + 1];
    }
  }

  lemma {:induction false} SumBounded<T>(s: seq<T>, f: T -> nat, bound: nat)
    requires forall i :: 0 <= i < |s| ==> f(s[i]) <= bound
    ensures Sum(s, f) <= |s| * bound
  {
    if s != [] {
      forall i | 0 <= i < |s[1..]| ensures f(s[1..][i]) <= bound {
        assert s[1..][i] == s[i + 1];
      }
      SumBounded(s[1..], f, bound);
      assert |s| * bound == bound + (|s| - 1) * bound;
    }
  }
}
