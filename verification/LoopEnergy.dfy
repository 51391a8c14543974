/** An energy of the downlink power control loop with averaging: it never grows, whatever the
    steps, so the loop cannot swing for ever. */
module LoopEnergy {
  import opened Basics
  import opened Tdma
  import opened PowerControl

  /** The rounded average for a scaled one of -50 or more. */
  function Round(a: int): (r: int) {
    (a + ROUND) / SCALE
  }

  /** By how much an average of r raises the attenuation; it never falls with r. */
  function Push(p: Params, r: int): (f: int) {
    0 - DeltaRxlev(p, r)
  }

  lemma PushGrows(p: Params, q: int, r: int)
    requires Usable(p) && q <= r
    ensures Push(p, q) <= Push(p, r)
  {
  }

  lemma RoundGrows(a: int, b: int)
    requires a <= b
    ensures Round(a) <= Round(b)
  {
  }

  /** What scaling and rounding leave of an average when alpha times the rounded one is taken
      off; it never falls from one value that the filter can take to the next. */
  function Slack(alpha: Alpha, a: int): (s: int) {
    a - alpha * Round(a)
  }

  lemma SlackGrows(alpha: Alpha, a: int)
    ensures 0 <= Slack(alpha, a + alpha) - Slack(alpha, a) <= alpha
  {
    var m := Round(a + alpha) - Round(a);
    assert m == 0 || m == 1;
    assert alpha * Round(a + alpha) == alpha * Round(a) + alpha * m;
  }

  // ----- Potential energy -----------------------------------------------------------------

  /** The work of the pushes from the window up to an average, in the steps of the filter. */
  function Above(p: Params, alpha: Alpha, a: int): (k: int)
    decreases a - SCALE * p.rxlevUpper
  {
    if Round(a) <= p.rxlevUpper then 0
    else Above(p, alpha, a - alpha) + (Slack(alpha, a) - Slack(alpha, a - alpha)) * Push(p, Round(a))
  }

  /** The same from an average below the window up to it. */
  function Below(p: Params, alpha: Alpha, a: int): (k: int)
    decreases SCALE * p.rxlevLower - a
  {
    if Round(a + alpha) >= p.rxlevLower then 0
    else Below(p, alpha, a + alpha) + (Slack(alpha, a + alpha) - Slack(alpha, a)) * (0 - Push(p, Round(a + alpha)))
  }

  function Potential(p: Params, alpha: Alpha, a: int): (k: int) {
    Above(p, alpha, a) + Below(p, alpha, a)
  }

  lemma {:induction false} PotentialStep(p: Params, alpha: Alpha, a: int)
    requires Usable(p)
    ensures Potential(p, alpha, a + alpha) - Potential(p, alpha, a)
         == (Slack(alpha, a + alpha) - Slack(alpha, a)) * Push(p, Round(a + alpha))
  {
    hide Slack, Round, Push;
    RoundGrows(a, a + alpha);
    RoundGrows(a + alpha, a + alpha + alpha);
    if InWindow(p, Round(a + alpha)) { PushIsZero(p, Round(a + alpha)); }
    assert a + alpha - alpha == a;
    Opposite(Slack(alpha, a + alpha) - Slack(alpha, a), Push(p, Round(a + alpha)));
  }

  lemma PushIsZero(p: Params, r: int)
    requires InWindow(p, r)
    ensures Push(p, r) == 0
  {
  }

  lemma Opposite(a: int, b: int)
    ensures a * (0 - b) == 0 - a * b
  {
  }

  lemma Product(a: int, x: int, y: int)
    requires (a >= 0 && x <= y) || (a <= 0 && y <= x)
    ensures a * x <= a * y
  {
    if a >= 0 { assert a * (y - x) >= 0; } else { assert (0 - a) * (x - y) >= 0; }
  }

  /** However far the filter moves, the potential gains no more than the last push times the
      way: the push grows with the average. */
  lemma {:induction false} PotentialGain(p: Params, alpha: Alpha, a: int, w: int)
    requires Usable(p)
    ensures var b := a + alpha * w;
            && (w >= 0 ==> Slack(alpha, b) >= Slack(alpha, a)) && (w <= 0 ==> Slack(alpha, b) <= Slack(alpha, a))
            && Potential(p, alpha, b) - Potential(p, alpha, a)
                 <= (Slack(alpha, b) - Slack(alpha, a)) * Push(p, Round(b))
    decreases Abs(w)
  {
    hide Potential, Push, Slack;
    var b := a + alpha * w;
    if w > 0 {
      var c := b - alpha;
      assert c == a + alpha * (w - 1);
      PotentialGain(p, alpha, a, w - 1);
      PotentialStep(p, alpha, c);
      SlackGrows(alpha, c);
      RoundGrows(c, b);
      PushGrows(p, Round(c), Round(b));
      Product(Slack(alpha, c) - Slack(alpha, a), Push(p, Round(c)), Push(p, Round(b)));
      Distribute(Slack(alpha, c) - Slack(alpha, a), Slack(alpha, b) - Slack(alpha, c), Push(p, Round(b)));
    } else if w < 0 {
      var c := b + alpha;
      assert c == a + alpha * (w + 1);
      PotentialGain(p, alpha, a, w + 1);
      PotentialStep(p, alpha, b);
      SlackGrows(alpha, b);
      RoundGrows(b, c);
      PushGrows(p, Round(b), Round(c));
      Product(Slack(alpha, c) - Slack(alpha, a), Push(p, Round(c)), Push(p, Round(b)));
      Product(Slack(alpha, b) - Slack(alpha, c), Push(p, Round(c)), Push(p, Round(b)));
      Distribute(Slack(alpha, c) - Slack(alpha, a), Slack(alpha, b) - Slack(alpha, c), Push(p, Round(b)));
      Negate(Slack(alpha, c) - Slack(alpha, b), Push(p, Round(c)));
    } else {
      assert b == a;
    }
  }

  lemma Distribute(a: int, b: int, c: int)
    ensures (a + b) * c == a * c + b * c
  {
  }

  lemma Negate(a: int, b: int)
    ensures (0 - a) * b == 0 - a * b
  {
  }

  function Square(x: int): (s: int)
    ensures s >= 0
  {
    x * x
  }

  lemma SquareOfLess(u: int, d: int)
    ensures Square(u) == Square(u - d) + 2 * (d * u) - d * d
  {
  }

  /** One step of the filter adds no more than the square grows. */
  lemma {:induction false} SquareStep(alpha: Alpha, u: int, d: int, f: int)
    requires 0 <= d <= alpha && 0 <= f && SCALE * f <= u - ROUND
    ensures 0 <= d * f && Square(u - alpha) + 2 * SCALE * (d * f) <= Square(u)
  {
    hide Square;
    WorkOfStep(alpha, u, d, f);
    Product(alpha, alpha, SCALE);
    SquareOfLess(u, alpha);
  }

  lemma {:induction false} WorkOfStep(alpha: Alpha, u: int, d: int, f: int)
    requires 0 <= d <= alpha && 0 <= f && SCALE * f <= u - ROUND
    ensures 0 <= d * f && SCALE * (d * f) <= alpha * u - ROUND * alpha
  {
    assert 0 <= d * f;
    assert (alpha - d) * f == alpha * f - d * f;
    assert 0 <= (alpha - d) * f;
    assert alpha * (u - ROUND - SCALE * f) == alpha * u - ROUND * alpha - SCALE * (alpha * f);
    assert 0 <= alpha * (u - ROUND - SCALE * f);
  }

  lemma {:induction false} AboveBounds(p: Params, alpha: Alpha, a: int)
    requires Usable(p)
    ensures 0 <= 2 * SCALE * Above(p, alpha, a) <= Square(a - SCALE * Target(p) + SCALE)
    decreases a - SCALE * p.rxlevUpper
  {
    hide Square, Slack;
    if Round(a) > p.rxlevUpper {
      AboveBounds(p, alpha, a - alpha);
      SlackGrows(alpha, a - alpha);
      SquareStep(alpha, a - SCALE * Target(p) + SCALE, Slack(alpha, a) - Slack(alpha, a - alpha), Push(p, Round(a)));
    }
  }

  lemma PullBound(p: Params, r: int, a: int)
    requires Usable(p) && r < p.rxlevLower && a <= SCALE * r + ROUND
    ensures 0 <= 0 - Push(p, r) && SCALE * (0 - Push(p, r)) <= SCALE * Target(p) - a + ROUND
  {
  }

  lemma {:induction false} BelowBounds(p: Params, alpha: Alpha, a: int)
    requires Usable(p)
    ensures 0 <= 2 * SCALE * Below(p, alpha, a) <= Square(SCALE * Target(p) - a + SCALE)
    decreases SCALE * p.rxlevLower - a
  {
    hide Square, Slack, Push, Target;
    if Round(a + alpha) < p.rxlevLower {
      BelowBounds(p, alpha, a + alpha);
      SlackGrows(alpha, a);
      PullBound(p, Round(a + alpha), a);
      SquareStep(alpha, SCALE * Target(p) - a + SCALE, Slack(alpha, a + alpha) - Slack(alpha, a),
                 0 - Push(p, Round(a + alpha)));
    }
  }

  // ----- Energy ---------------------------------------------------------------------------

  /** How far the level is from the target, how far the filter is from the level, and the
      potential. */
  function Energy(p: Params, alpha: Alpha, a: int, x: int): (e: int) {
    alpha * (Square(x - Target(p)) + Square(x - Round(a))) + 4 * Potential(p, alpha, a)
  }

  lemma EnergyIsPositive(p: Params, alpha: Alpha, a: int, x: int)
    requires Usable(p)
    ensures Energy(p, alpha, a, x) >= 0
  {
    AboveBounds(p, alpha, a);
    BelowBounds(p, alpha, a);
    Product(alpha, 0, Square(x - Target(p)) + Square(x - Round(a)));
  }

  /** The level after a push, kept between lo and hi. */
  function Pushed(p: Params, x: int, r: int, lo: int, hi: int): (y: int) {
    if x - Push(p, r) < lo then lo else if x - Push(p, r) > hi then hi else x - Push(p, r)
  }

  /** The balance of the squares: y is the distance from the target, w the lag of the filter
      before the sample, m what the filter moves and g the push. */
  lemma {:induction false} Balance(y: int, w: int, m: int, g: int)
    ensures Square(y - g) - Square(y) + Square(w - m - g) - Square(w) + 4 * ((w - m) * g)
         == Square(m) - 2 * (w * m) + 2 * Square(g) - 2 * ((y - (w - m)) * g)
  {
  }

  /** Whatever is left of the push at the bounds leads towards the target, not past it; and
      where something is cut off, the filter is already beyond the level. */
  lemma {:induction false} PushInBounds(p: Params, x: int, r: int, lo: int, hi: int)
    requires Usable(p) && lo <= Target(p) <= hi && lo <= x <= hi
    ensures var f, g, q := Push(p, r), x - Pushed(p, x, r, lo, hi), r - Target(p);
            && (0 <= g <= f <= q || q <= f <= g <= 0)
            && (g < f ==> x <= r) && (g > f ==> x >= r)
  {
    DeltaHeadsForTarget(p, r);
  }

  /** So with the target between the bounds it does no less work against the lag. */
  lemma {:induction false} StoppedPush(p: Params, x: int, r: int, lo: int, hi: int)
    requires Usable(p) && lo <= Target(p) <= hi && lo <= x <= hi
    ensures var g := x - Pushed(p, x, r, lo, hi);
            && (x - r) * Push(p, r) <= (x - r) * g
            && Square(g) <= (r - Target(p)) * g
  {
    hide Push, Pushed, Target, Usable;
    PushInBounds(p, x, r, lo, hi);
    var f, g := Push(p, r), x - Pushed(p, x, r, lo, hi);
    if f != g { Product(x - r, f, g); }
    Product(g, g, r - Target(p));
  }

  /** With the push f that the potential knows instead of what came of it. */
  lemma {:induction false} BalanceFalls(y: int, w: int, m: int, f: int, g: int)
    requires Between(0, m, w) && (w - m) * f <= (w - m) * g && Square(g) <= (y - (w - m)) * g
    ensures Square(y - g) + Square(w - m - g) - (Square(y) + Square(w)) + 4 * ((w - m) * f) <= 0 - Square(m)
  {
    Balance(y, w, m, g);
    Product(m, m, w);
    assert Square(m) == m * m && w * m == m * w;
    hide Square;
  }

  lemma {:induction false} Weighted(alpha: Alpha, was: int, now: int, work: int, drop: int)
    requires now - was + 4 * work <= 0 - drop
    ensures alpha * now + 4 * (alpha * work) <= alpha * was - alpha * drop
  {
    Product(alpha, now + 4 * work, was - drop);
  }

  /** One effective report never raises the energy, and lowers it whenever the rounded average
      changes. */
  lemma {:induction false} EnergyFalls(p: Params, alpha: Alpha, a: int, x: int, lo: int, hi: int)
    requires Usable(p) && lo <= Target(p) <= hi && lo <= x <= hi
    requires Between(Round(a), Round(a + alpha * (x - Round(a))), x)
    ensures var b := a + alpha * (x - Round(a));
            var m := Round(b) - Round(a);
            Energy(p, alpha, b, Pushed(p, x, Round(b), lo, hi)) <= Energy(p, alpha, a, x) - alpha * Square(m)
  {
    hide Potential, Push, Pushed, Target, Usable, Square, Round;
    var w := x - Round(a);
    var b := a + alpha * w;
    var m, f, g := Round(b) - Round(a), Push(p, Round(b)), x - Pushed(p, x, Round(b), lo, hi);
    PotentialGain(p, alpha, a, w);
    SlackOf(alpha, a, b, w);
    StoppedPush(p, x, Round(b), lo, hi);
    BalanceFalls(x - Target(p), w, m, f, g);
    Weighted(alpha, Square(x - Target(p)) + Square(w), Square(x - Target(p) - g) + Square(w - m - g), (w - m) * f, Square(m));
    Regroup(alpha, w - m, f);
  }

  lemma Regroup(a: int, b: int, c: int)
    ensures a * b * c == a * (b * c)
  {
  }

  lemma SlackOf(alpha: Alpha, a: int, b: int, w: int)
    requires b == a + alpha * w
    ensures Slack(alpha, b) - Slack(alpha, a) == alpha * (w - (Round(b) - Round(a)))
  {
  }

  // ----- Rank: a bound on the reports that are left -----------------------------------------

  const STAY: int := 201

  /** How long the rounded average can stay what it is: outside the window until a lag that
      only ever turns has turned and led out of it, inside it until the filter has moved on. */
  function Stay(p: Params, a: int, x: int): (s: int)
    ensures 0 <= s < STAY
  {
    var r := Round(a);
    var up, down := SCALE * r + 49 - a, a - SCALE * r + ROUND;
    if r > p.rxlevUpper then (if x < r then down else if x == r then 100 else 101 + up)
    else if r < p.rxlevLower then (if x > r then up else if x == r then 100 else 101 + down)
    else if x >= r then up else down
  }

  function Rank(p: Params, alpha: Alpha, a: int, x: int): (n: int) {
    STAY * Energy(p, alpha, a, x) + Stay(p, a, x)
  }

  lemma {:induction false} StayFalls(p: Params, alpha: Alpha, a: int, x: int, lo: int, hi: int)
    requires Usable(p) && lo <= Target(p) <= hi && lo <= x <= hi
    requires x != Round(a) || !InWindow(p, Round(a))
    requires Round(a + alpha * (x - Round(a))) == Round(a)
    ensures var b := a + alpha * (x - Round(a));
            Stay(p, b, Pushed(p, x, Round(a), lo, hi)) < Stay(p, a, x)
  {
    ScaledGap(alpha, x - Round(a));
    DeltaHeadsForTarget(p, Round(a));
  }

  /** Every effective report lowers the rank, unless the level is reached and in the window. */
  lemma {:induction false} RankFalls(p: Params, alpha: Alpha, a: int, x: int, lo: int, hi: int)
    requires Usable(p) && lo <= Target(p) <= hi && lo <= x <= hi
    requires Between(Round(a), Round(a + alpha * (x - Round(a))), x)
    requires x != Round(a) || !InWindow(p, Round(a))
    ensures var b := a + alpha * (x - Round(a));
            0 <= Rank(p, alpha, b, Pushed(p, x, Round(b), lo, hi)) < Rank(p, alpha, a, x)
  {
    hide Energy, Stay, Pushed, Target, Usable, Round, InWindow;
    var b := a + alpha * (x - Round(a));
    var m := Round(b) - Round(a);
    EnergyFalls(p, alpha, a, x, lo, hi);
    EnergyIsPositive(p, alpha, b, Pushed(p, x, Round(b), lo, hi));
    if m == 0 {
      StayFalls(p, alpha, a, x, lo, hi);
    } else {
      SquareOfAny(m);
      Product(alpha, 1, Square(m));
    }
  }

  lemma SquareOfAny(m: int)
    requires m != 0
    ensures Square(m) >= 1
  {
    if m > 0 { Product(m, 1, m); } else { Product(m, -1, m); }
  }

  /** Only one of the two potentials is there: the other one's average is in the window or
      beyond it. */
  lemma OneSided(p: Params, alpha: Alpha, x: Octet)
    requires Usable(p)
    ensures x >= p.rxlevLower ==> Below(p, alpha, SCALE * x) == 0
    ensures x < p.rxlevLower ==> Above(p, alpha, SCALE * x) == 0
  {
    RoundGrows(SCALE * x, SCALE * x + alpha);
    assert Round(SCALE * x) == x;
  }

  lemma {:induction false} FirstPotential(p: Params, alpha: Alpha, x: Octet)
    requires Usable(p)
    ensures 0 <= 2 * SCALE * Potential(p, alpha, SCALE * x) <= 25600 * 25600
  {
    hide Above, Below, Square;
    var a := SCALE * x;
    OneSided(p, alpha, x);
    AboveBounds(p, alpha, a);
    BelowBounds(p, alpha, a);
    SquareUpTo(a - SCALE * Target(p) + SCALE, 25600);
    SquareUpTo(SCALE * Target(p) - a + SCALE, 25600);
  }

  /** A first push trades distance from the target for lag, and the sum of their squares does
      not grow. */
  lemma {:induction false} FirstSquares(p: Params, x: Octet, lo: int, hi: int)
    requires Usable(p) && lo <= Target(p) <= hi && lo <= x <= hi
    ensures var z := Pushed(p, x, x, lo, hi);
            Square(z - Target(p)) + Square(z - x) <= 255 * 255
  {
    hide Pushed;
    var y, g := x - Target(p), x - Pushed(p, x, x, lo, hi);
    StoppedPush(p, x, x, lo, hi);
    Trade(y, g);
    SquareUpTo(y, 255);
    assert Pushed(p, x, x, lo, hi) - Target(p) == y - g && Pushed(p, x, x, lo, hi) - x == 0 - g;
  }

  lemma Trade(y: int, g: int)
    requires Square(g) <= y * g
    ensures Square(y - g) + Square(0 - g) <= Square(y)
  {
  }

  /** After the first sample fewer reports are left than the counter of samples can take. */
  lemma {:induction false} FirstRank(p: Params, alpha: Alpha, x: Octet, lo: int, hi: int)
    requires Usable(p) && lo <= Target(p) <= hi && lo <= x <= hi
    ensures 0 <= Rank(p, alpha, SCALE * x, Pushed(p, x, x, lo, hi)) < UINT32_RANGE - 1
  {
    hide Stay, Pushed, Potential, Square;
    var z := Pushed(p, x, x, lo, hi);
    assert Round(SCALE * x) == x;
    EnergyIsPositive(p, alpha, SCALE * x, z);
    FirstPotential(p, alpha, x);
    FirstSquares(p, x, lo, hi);
    Weighed(alpha, Square(z - Target(p)) + Square(z - x), 255 * 255);
  }

  lemma Weighed(alpha: Alpha, e: int, max: nat)
    requires e <= max
    ensures alpha * e <= SCALE * max
  {
    Product(alpha, e, max);
    Product(max, alpha, SCALE);
  }

  lemma SquareUpTo(x: int, n: nat)
    requires 0 - n <= x <= n
    ensures Square(x) <= n * n
  {
    assert (n - x) * (n + x) >= 0;
    assert (n - x) * (n + x) == n * n - x * x;
  }
}
