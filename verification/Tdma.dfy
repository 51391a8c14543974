/** TDMA frame numbers, as the GSM_TDMA_FN_SUM and GSM_TDMA_FN_SUB macros compute
    with them, and C's integer division. */
module Tdma {

  /** Number of TDMA frames in one hyperframe: 26 * 51 * 2048. */
  const HYPERFRAME: int := 2715648

  type Fn = x: int | 0 <= x < HYPERFRAME

  /** The frame number on air at an absolute frame count. */
  function FnAt(t: nat): (r: Fn) {
    t % HYPERFRAME
  }

  function FnSum(a: Fn, n: nat): (r: Fn) {
    (a + n) % HYPERFRAME
  }

  function FnSub(a: Fn, b: Fn): (r: Fn) {
    (a + HYPERFRAME - b) % HYPERFRAME
  }

  lemma FnSumAssoc(a: Fn, m: nat, n: nat)
    ensures FnSum(FnSum(a, m), n) == FnSum(a, m + n)
  {
    var q := (a + m) / HYPERFRAME;
    assert a + m == q * HYPERFRAME + FnSum(a, m);
    ModShift(FnSum(a, m) + n, q);
  }

  lemma ModShift(x: nat, q: nat)
    ensures (x + q * HYPERFRAME) % HYPERFRAME == x % HYPERFRAME
  {
  }

  /** Going forward by the difference leads to the later frame number. */
  lemma FnSumOfSub(a: Fn, b: Fn)
    ensures FnSum(b, FnSub(a, b)) == a
  {
  }

  /** A step shorter than a hyperframe is recovered by subtraction. */
  lemma FnSubOfSum(a: Fn, n: nat)
    requires n < HYPERFRAME
    ensures FnSub(FnSum(a, n), a) == n
  {
  }

  lemma MultipleOutside(d: int, p: int)
    requires p > 0
    ensures d >= 1 ==> d * p >= p
    ensures d <= -1 ==> d * p <= -p
  {
    if d >= 1 { assert (d - 1) * p >= 0; }
    if d <= -1 { assert (d + 1) * p <= 0; }
  }

  /** Quotient and remainder are determined by the division equation. */
  lemma DivModUnique(x: int, q: int, r: int, p: int)
    requires 0 <= r < p && x == q * p + r
    ensures x / p == q && x % p == r
  {
    assert x == (x / p) * p + x % p;
    assert (q - x / p) * p == q * p - (x / p) * p;
    MultipleOutside(q - x / p, p);
  }

  /** Adding a multiple of the modulus changes only the quotient. */
  lemma ModPlusMultiple(x: int, k: int, p: int)
    requires p > 0
    ensures (x + k * p) % p == x % p && (x + k * p) / p == x / p + k
  {
    assert (x / p + k) * p == (x / p) * p + k * p;
    DivModUnique(x + k * p, x / p + k, x % p, p);
  }

  /** C's division truncates toward zero. */
  function CDiv(a: int, b: int): (q: int)
    requires b > 0
  {
    if a >= 0 then a / b else -((-a) / b)
  }
}
