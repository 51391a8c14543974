/** The downlink power control loop closed over a constant path, with the averaging filter in
    it: that it comes to rest, and when it does so without passing the window. */
module PowerLoop {
  import opened Basics
  import opened Tdma
  import opened PowerControl
  import opened LoopEnergy

  /** The report of a mobile on a constant path, its quality in the acceptable range. */
  function PathReport(s: BsState, p: Params, txLevel: Octet): (rep: Report)
    requires s.current <= txLevel
  {
    Report(txLevel - s.current, p.rxqualLower, txLevel - s.current, p.rxqualLower)
  }

  /** One report of the closed loop, skipped or not. */
  function Closed(s: BsState, p: Params, txLevel: Octet, dtx: bool): (r: BsState)
    requires s.current <= s.max <= txLevel
    ensures r.current <= r.max == s.max
  {
    BsStep(s, p, PathReport(s, p, txLevel), dtx)
  }

  function ClosedAfter(s: BsState, p: Params, txLevel: Octet, dtx: bool, n: nat): (r: BsState)
    requires s.current <= s.max <= txLevel
    ensures r.current <= r.max == s.max
    decreases n
  {
    if n == 0 then s else ClosedAfter(Closed(s, p, txLevel, dtx), p, txLevel, dtx, n - 1)
  }

  function Level(s: BsState, txLevel: Octet): (l: int) {
    txLevel - s.current
  }

  /** The averaged level that the filter holds. */
  function Held(s: BsState): (a: int) {
    Rounded(s.rxlev.avg100)
  }

  /** A configuration with averaging whose step up is small for its window: divided by the
      smoothing factor it is no wider than the window. */
  predicate GentleUp(p: Params) {
    p.rxlevAveraging.Ewma? && SCALE * p.incStep <= p.rxlevAveraging.alpha * (p.rxlevUpper - p.rxlevLower)
  }

  predicate GentleDown(p: Params) {
    p.rxlevAveraging.Ewma? && SCALE * p.redStep <= p.rxlevAveraging.alpha * (p.rxlevUpper - p.rxlevLower)
  }

  /** The level and what the filter holds of it are in the window, or the attenuation is
      exhausted in the direction that would help: nothing changes the attenuation any more. */
  predicate Rests(s: BsState, p: Params, txLevel: Octet) {
    var unset := s.rxlev.measNum == 0;
    || (InWindow(p, Level(s, txLevel)) && (unset || InWindow(p, Held(s))))
    || (s.current == 0 && Level(s, txLevel) < p.rxlevLower && (unset || Held(s) <= p.rxlevUpper))
    || (s.current == s.max && Level(s, txLevel) > p.rxlevUpper && (unset || Held(s) >= p.rxlevLower))
  }

  /** The quality filter holds the acceptable quality. */
  predicate QualityHeld(s: BsState, p: Params) {
    Holds(s.rxqual, p.rxqualLower, p.rxqualLower)
  }

  predicate Low(f: Filter) {
    f.measNum == 0 || f.avg100 >= -ROUND
  }

  /** What the filter lags behind a level is no more than it can be at that step. */
  predicate LagsBelow(f: Filter, alpha: Alpha, level: int, step: nat) {
    f.measNum == 0 || alpha * (SCALE * level - f.avg100 - ROUND) <= SCALE * SCALE * step
  }

  predicate LagsAbove(f: Filter, alpha: Alpha, level: int, step: nat) {
    f.measNum == 0 || alpha * (f.avg100 - SCALE * level - ROUND) <= SCALE * SCALE * step
  }

  /** What every report of the loop keeps, wherever it is. */
  predicate InLoop(s: BsState, p: Params, txLevel: Octet) {
    && s.current <= s.max <= txLevel && Usable(p) && p.rxlevAveraging.Ewma?
    && QualityHeld(s, p) && Holds(s.rxlev, 0, 255) && Low(s.rxlev)
  }

  /** No step up leads above the window: no level is, or the steps are small and the filter
      does not lag behind by more than one of them explains. */
  predicate UpIsSafe(s: BsState, p: Params, txLevel: Octet)
    requires p.rxlevAveraging.Ewma?
  {
    || txLevel <= p.rxlevUpper
    || (GentleUp(p) && LagsBelow(s.rxlev, p.rxlevAveraging.alpha, Level(s, txLevel), p.incStep))
  }

  predicate DownIsSafe(s: BsState, p: Params, txLevel: Octet)
    requires p.rxlevAveraging.Ewma?
  {
    || txLevel - s.max >= p.rxlevLower
    || (GentleDown(p) && LagsAbove(s.rxlev, p.rxlevAveraging.alpha, Level(s, txLevel), p.redStep))
  }

  /** Not above the window: no report will lower the level. */
  predicate Climbing(s: BsState, p: Params, txLevel: Octet) {
    && InLoop(s, p, txLevel)
    && Level(s, txLevel) <= p.rxlevUpper && (s.rxlev.measNum == 0 || Held(s) <= p.rxlevUpper)
    && UpIsSafe(s, p, txLevel)
  }

  /** Not below the window: no report will raise the level. */
  predicate Descending(s: BsState, p: Params, txLevel: Octet) {
    && InLoop(s, p, txLevel)
    && Level(s, txLevel) >= p.rxlevLower && (s.rxlev.measNum == 0 || Held(s) >= p.rxlevLower)
    && DownIsSafe(s, p, txLevel)
  }

  lemma Scaled(a: nat, x: int, y: int)
    requires x <= y
    ensures a * x <= a * y
  {
    assert a * (y - x) >= 0;
  }

  lemma Factor(a: int, b: int, c: int)
    ensures a * (b * c) == b * (a * c)
    ensures a * (b - c) == a * b - a * c
    ensures a * (b + c) == a * b + a * c
  {
  }

  /** What the filter lags behind, after a sample and a step up. */
  lemma {:induction false} LagShrinks(alpha: Alpha, gap: int, miss: int, move: int, step: nat)
    requires SCALE * miss >= gap && 0 <= move <= step && alpha * gap <= SCALE * SCALE * step
    ensures alpha * (gap - alpha * miss + SCALE * move) <= SCALE * SCALE * step
  {
    var k, am, q := alpha * gap, alpha * miss, gap - alpha * miss;
    Scaled(alpha, gap, SCALE * miss);
    Factor(alpha, SCALE, miss);
    assert SCALE * q <= SCALE * gap - k;
    Scaled(alpha, SCALE * q, SCALE * gap - k);
    Factor(alpha, SCALE, q);
    Factor(alpha, SCALE, gap);
    Factor(alpha, SCALE * gap, k);
    assert SCALE * (alpha * q) <= SCALE * k - alpha * k;
    Scaled(SCALE - alpha, k, SCALE * SCALE * step);
    Distribute(alpha, k);
    Distribute(alpha, SCALE * SCALE * step);
    Factor(alpha, SCALE * SCALE, step);
    Scaled(alpha, move, step);
    Factor(alpha, SCALE, move);
    Factor(alpha, q, SCALE * move);
  }

  lemma Distribute(alpha: int, x: int)
    ensures (SCALE - alpha) * x == SCALE * x - alpha * x
  {
  }

  lemma {:induction false} AfterSample(f: Filter, alpha: Alpha, x: nat)
    requires Low(f)
    ensures var (g, r) := Filtered(f, alpha, x);
            && Low(g) && g.avg100 >= -ROUND && r == Rounded(g.avg100) >= 0
            && (f.measNum == 0 ==> g.avg100 == SCALE * x && r == x)
            && (f.measNum != 0 ==>
                  && Between(Rounded(f.avg100), r, x)
                  && g.avg100 == f.avg100 + alpha * (x - Rounded(f.avg100))
                  && SCALE * x - f.avg100 - ROUND <= SCALE * (x - Rounded(f.avg100)) <= SCALE * x - f.avg100 + ROUND)
  {
    if f.measNum != 0 {
      NeverOvershoots(f.avg100, alpha, x);
      ScaledGap(alpha, x - Rounded(f.avg100));
      RoundedRange(f.avg100, Rounded(f.avg100));
    } else {
      RoundedRange(SCALE * x, x);
    }
  }

  lemma {:induction false} LagKeptBelow(f: Filter, alpha: Alpha, x: nat, step: nat, move: int)
    requires Low(f) && LagsBelow(f, alpha, x, step) && 0 <= move <= step
    ensures alpha * (SCALE * (x + move) - Filtered(f, alpha, x).0.avg100 - ROUND) <= SCALE * SCALE * step
  {
    AfterSample(f, alpha, x);
    var g := Filtered(f, alpha, x).0;
    hide Filtered, Rounded;
    if f.measNum != 0 {
      LagShrinks(alpha, SCALE * x - f.avg100 - ROUND, x - Rounded(f.avg100), move, step);
      assert SCALE * (x + move) - g.avg100 - ROUND
          == SCALE * x - f.avg100 - ROUND - alpha * (x - Rounded(f.avg100)) + SCALE * move;
    } else {
      FreshLag(alpha, move, step);
      assert SCALE * (x + move) - g.avg100 - ROUND == SCALE * move - ROUND;
    }
  }

  lemma {:induction false} LagKeptAbove(f: Filter, alpha: Alpha, x: nat, step: nat, move: int)
    requires Low(f) && LagsAbove(f, alpha, x, step) && 0 <= move <= step
    ensures alpha * (Filtered(f, alpha, x).0.avg100 - SCALE * (x - move) - ROUND) <= SCALE * SCALE * step
  {
    AfterSample(f, alpha, x);
    var g := Filtered(f, alpha, x).0;
    hide Filtered, Rounded;
    if f.measNum != 0 {
      LagShrinks(alpha, f.avg100 - SCALE * x - ROUND, Rounded(f.avg100) - x, move, step);
      assert alpha * (Rounded(f.avg100) - x) == -(alpha * (x - Rounded(f.avg100)));
      assert g.avg100 - SCALE * (x - move) - ROUND
          == f.avg100 - SCALE * x - ROUND - alpha * (Rounded(f.avg100) - x) + SCALE * move;
    } else {
      FreshLag(alpha, move, step);
      assert g.avg100 - SCALE * (x - move) - ROUND == SCALE * move - ROUND;
    }
  }

  lemma {:induction false} FreshLag(alpha: Alpha, move: int, step: nat)
    requires 0 <= move <= step
    ensures alpha * (SCALE * move - ROUND) <= SCALE * SCALE * step
  {
    Scaled(alpha, SCALE * move - ROUND, SCALE * step);
    Factor(alpha, SCALE, step);
    ScaledGap(alpha, step);
  }

  /** Within the lag a step taken below the window does not lead beyond it, nor one taken
      above it. */
  lemma {:induction false} NotBeyond(alpha: Alpha, gap: int, width: int, step: nat)
    requires alpha * gap <= SCALE * SCALE * step && SCALE * step <= alpha * width
    ensures gap <= SCALE * width
  {
    if gap > SCALE * width {
      Scaled(alpha, SCALE * width + 1, gap);
      Factor(alpha, SCALE * width, 1);
      Factor(alpha, SCALE, width);
    }
  }

  /** How far the filter is from holding the level. */
  function Unsettled(avg100: int, x: int): (m: nat) {
    if avg100 < Lowest(x) then Lowest(x) - avg100 else if avg100 > Highest(x) then avg100 - Highest(x) else 0
  }

  lemma {:induction false} Settles(f: Filter, alpha: Alpha, x: nat)
    requires Low(f) && f.measNum != 0 && Rounded(f.avg100) != x
    ensures Unsettled(Filtered(f, alpha, x).0.avg100, x) < Unsettled(f.avg100, x)
  {
    NeverOvershoots(f.avg100, alpha, x);
    ScaledGap(alpha, x - Rounded(f.avg100));
    RoundedRange(f.avg100, x);
    RoundedRange(Filtered(f, alpha, x).0.avg100, x);
  }

  /** An effective report: the filter takes the level, and the attenuation follows it. */
  lemma {:induction false} EffectiveReport(s: BsState, p: Params, txLevel: Octet, dtx: bool)
    requires InLoop(s, p, txLevel) && s.skipBlocks <= 0
    ensures var t := Closed(s, p, txLevel, dtx);
            var (g, r) := Filtered(s.rxlev, p.rxlevAveraging.alpha, Level(s, txLevel));
            && t.rxlev == g && t.current == Clamp(s.current - DeltaRxlev(p, r), s.max)
            && InLoop(t, p, txLevel)
  {
    AveragedFits(p.rxlevAveraging, s.rxlev, Level(s, txLevel), 0, 255);
    AveragedFits(p.rxqualAveraging, s.rxqual, p.rxqualLower, p.rxqualLower, p.rxqualLower);
    AfterSample(s.rxlev, p.rxlevAveraging.alpha, Level(s, txLevel));
    hide Filtered, Holds, Clamp, DeltaRxlev;
  }

  lemma {:induction false} StaysInLoop(s: BsState, p: Params, txLevel: Octet, dtx: bool)
    requires InLoop(s, p, txLevel)
    ensures InLoop(Closed(s, p, txLevel, dtx), p, txLevel)
    ensures s.skipBlocks > 0 ==> Closed(s, p, txLevel, dtx) == s.(skipBlocks := s.skipBlocks - 1)
  {
    if s.skipBlocks <= 0 { EffectiveReport(s, p, txLevel, dtx); }
  }

  // ----- At rest ------------------------------------------------------------------------------

  lemma {:induction false} RestStays(s: BsState, p: Params, txLevel: Octet, dtx: bool)
    requires InLoop(s, p, txLevel) && Rests(s, p, txLevel)
    ensures var t := Closed(s, p, txLevel, dtx);
            InLoop(t, p, txLevel) && Rests(t, p, txLevel) && t.current == s.current
  {
    StaysInLoop(s, p, txLevel, dtx);
    if s.skipBlocks <= 0 {
      EffectiveReport(s, p, txLevel, dtx);
      AfterSample(s.rxlev, p.rxlevAveraging.alpha, Level(s, txLevel));
      hide Closed, Filtered, InLoop;
    }
  }

  lemma {:induction false} RestIsForGood(s: BsState, p: Params, txLevel: Octet, dtx: bool, n: nat)
    requires InLoop(s, p, txLevel) && Rests(s, p, txLevel)
    ensures var t := ClosedAfter(s, p, txLevel, dtx, n);
            Rests(t, p, txLevel) && t.current == s.current
    decreases n
  {
    if n > 0 {
      RestStays(s, p, txLevel, dtx);
      hide Closed, Rests, InLoop;
      RestIsForGood(Closed(s, p, txLevel, dtx), p, txLevel, dtx, n - 1);
    }
  }

  // ----- Climbing and descending without turning back ----------------------------------------

  lemma {:induction false} ClimbStep(s: BsState, p: Params, txLevel: Octet, dtx: bool)
    requires Climbing(s, p, txLevel) && s.skipBlocks <= 0
    ensures var t := Closed(s, p, txLevel, dtx);
            && Climbing(t, p, txLevel) && t.current <= s.current
            && (!Rests(s, p, txLevel) && t.current == s.current ==>
                  Unsettled(t.rxlev.avg100, Level(s, txLevel)) < Unsettled(s.rxlev.avg100, Level(s, txLevel)))
  {
    var alpha, x := p.rxlevAveraging.alpha, Level(s, txLevel);
    var t := Closed(s, p, txLevel, dtx);
    var (g, r) := Filtered(s.rxlev, alpha, x);
    EffectiveReport(s, p, txLevel, dtx);
    AfterSample(s.rxlev, alpha, x);
    DeltaHeadsForTarget(p, r);
    hide Closed, Filtered;
    assert t.current <= s.current;
    if txLevel > p.rxlevUpper {
      LagKeptBelow(s.rxlev, alpha, x, p.incStep, s.current - t.current);
      if t.current < s.current {
        assert r < p.rxlevLower;
        RoundedRange(g.avg100, r);
        NotBeyond(alpha, SCALE * Level(t, txLevel) - g.avg100 - ROUND, p.rxlevUpper - p.rxlevLower, p.incStep);
      }
    }
    if t.current == s.current && s.rxlev.measNum != 0 && Held(s) != x { Settles(s.rxlev, alpha, x); }
  }

  lemma {:induction false} DescendStep(s: BsState, p: Params, txLevel: Octet, dtx: bool)
    requires Descending(s, p, txLevel) && s.skipBlocks <= 0
    ensures var t := Closed(s, p, txLevel, dtx);
            && Descending(t, p, txLevel) && t.current >= s.current
            && (!Rests(s, p, txLevel) && t.current == s.current ==>
                  Unsettled(t.rxlev.avg100, Level(s, txLevel)) < Unsettled(s.rxlev.avg100, Level(s, txLevel)))
  {
    var alpha, x := p.rxlevAveraging.alpha, Level(s, txLevel);
    var t := Closed(s, p, txLevel, dtx);
    var (g, r) := Filtered(s.rxlev, alpha, x);
    EffectiveReport(s, p, txLevel, dtx);
    AfterSample(s.rxlev, alpha, x);
    DeltaHeadsForTarget(p, r);
    hide Closed, Filtered;
    assert t.current >= s.current;
    if txLevel - s.max < p.rxlevLower {
      LagKeptAbove(s.rxlev, alpha, x, p.redStep, t.current - s.current);
      if t.current > s.current {
        assert r > p.rxlevUpper;
        RoundedRange(g.avg100, r);
        NotBeyond(alpha, g.avg100 - SCALE * Level(t, txLevel) - ROUND, p.rxlevUpper - p.rxlevLower, p.redStep);
      }
    }
    if t.current == s.current && s.rxlev.measNum != 0 && Held(s) != x { Settles(s.rxlev, alpha, x); }
  }

  /** What every report of such a loop keeps: the attenuation goes one way only. */
  lemma {:induction false} ReportKeepsCourse(s: BsState, p: Params, txLevel: Octet, dtx: bool)
    requires Climbing(s, p, txLevel) || Descending(s, p, txLevel)
    ensures var t := Closed(s, p, txLevel, dtx);
            && (Climbing(s, p, txLevel) ==> Climbing(t, p, txLevel) && t.current <= s.current)
            && (Descending(s, p, txLevel) ==> Descending(t, p, txLevel) && t.current >= s.current)
  {
    StaysInLoop(s, p, txLevel, dtx);
    hide InLoop, Closed;
    if s.skipBlocks <= 0 {
      if Climbing(s, p, txLevel) { ClimbStep(s, p, txLevel, dtx); }
      if Descending(s, p, txLevel) { DescendStep(s, p, txLevel, dtx); }
    }
  }

  /** Over any number of reports the level does not pass the window on its way, nor turn back. */
  lemma {:induction false} CourseIsKept(s: BsState, p: Params, txLevel: Octet, dtx: bool, n: nat)
    requires Climbing(s, p, txLevel) || Descending(s, p, txLevel)
    ensures var t := ClosedAfter(s, p, txLevel, dtx, n);
            && (Climbing(s, p, txLevel) ==> Level(s, txLevel) <= Level(t, txLevel) <= p.rxlevUpper)
            && (Descending(s, p, txLevel) ==> p.rxlevLower <= Level(t, txLevel) <= Level(s, txLevel))
    decreases n
  {
    if n > 0 {
      ReportKeepsCourse(s, p, txLevel, dtx);
      hide InLoop, Closed;
      CourseIsKept(Closed(s, p, txLevel, dtx), p, txLevel, dtx, n - 1);
    }
  }

  /** The parameters that a station has by default. */
  const DEFAULTS: Params := Params(32, 38, 3, 0, 4, 2, 0, Ewma(50), Plain)

  /** A state on the way of a loop without skipped reports and with its quality not averaged. */
  function OnTheWay(att: Octet, max: Octet, num: nat, avg100: int): (s: BsState) {
    BsState(att, max, -1, Filter(num, avg100), Filter(0, 0))
  }

  lemma DefaultStep(att: Octet, num: nat, avg100: int, next: int)
    requires att <= 39 && num < 5 && 0 <= next <= 25500
    requires next == if num == 0 then SCALE * (39 - att) else avg100 + 50 * (39 - att - Rounded(avg100))
    ensures Closed(OnTheWay(att, 39, num, avg100), DEFAULTS, 39, false)
         == OnTheWay(Clamp(att - DeltaRxlev(DEFAULTS, Rounded(next)), 39), 39, num + 1, next)
  {
    hide DeltaRxlev, Clamp, Rounded;
    RoundedRange(next, 0);
    RoundedRange(next, 255);
    if num == 0 { RoundedRange(next, 39 - att); }
  }

  lemma DefaultPath()
    ensures var s := OnTheWay(20, 39, 0, 0);
            ClosedAfter(s, DEFAULTS, 39, false, 5) == OnTheWay(0, 39, 5, 3100)
  {
    DefaultStep(20, 0, 0, 1900);
    DefaultStep(16, 1, 1900, 2100);
    DefaultStep(12, 2, 2100, 2400);
    DefaultStep(8, 3, 2400, 2750);
    DefaultStep(4, 4, 2750, 3100);
    hide Closed, ClosedAfter;
    OneReport(OnTheWay(20, 39, 0, 0), DEFAULTS, 39, false, 4);
    OneReport(OnTheWay(16, 39, 1, 1900), DEFAULTS, 39, false, 3);
    OneReport(OnTheWay(12, 39, 2, 2100), DEFAULTS, 39, false, 2);
    OneReport(OnTheWay(8, 39, 3, 2400), DEFAULTS, 39, false, 1);
    OneReport(OnTheWay(4, 39, 4, 2750), DEFAULTS, 39, false, 0);
    NoReport(OnTheWay(0, 39, 5, 3100), DEFAULTS, 39, false);
  }

  /** Their step up is wide: from a level of 19, below the window, the fifth report leads
      above it. */
  lemma DefaultsPassTheWindow()
    ensures var s := OnTheWay(20, 39, 0, 0);
            && InLoop(s, DEFAULTS, 39) && !GentleUp(DEFAULTS) && GentleDown(DEFAULTS)
            && Level(s, 39) < DEFAULTS.rxlevLower
            && Level(ClosedAfter(s, DEFAULTS, 39, false, 5), 39) > DEFAULTS.rxlevUpper
  {
    hide Closed, ClosedAfter;
    DefaultPath();
  }

  lemma {:induction false} ClimbToRest(s: BsState, p: Params, txLevel: Octet, dtx: bool) returns (n: nat)
    requires Climbing(s, p, txLevel)
    ensures Rests(ClosedAfter(s, p, txLevel, dtx, n), p, txLevel)
    decreases p.rxlevUpper - Level(s, txLevel), Unsettled(s.rxlev.avg100, Level(s, txLevel)), s.skipBlocks
  {
    n := 0;
    if !Rests(s, p, txLevel) {
      ReportKeepsCourse(s, p, txLevel, dtx);
      if s.skipBlocks <= 0 { ClimbStep(s, p, txLevel, dtx); }
      var m := ClimbToRest(Closed(s, p, txLevel, dtx), p, txLevel, dtx);
      n := m + 1;
    }
  }

  lemma {:induction false} DescendToRest(s: BsState, p: Params, txLevel: Octet, dtx: bool) returns (n: nat)
    requires Descending(s, p, txLevel)
    ensures Rests(ClosedAfter(s, p, txLevel, dtx, n), p, txLevel)
    decreases Level(s, txLevel) - p.rxlevLower, Unsettled(s.rxlev.avg100, Level(s, txLevel)), s.skipBlocks
  {
    n := 0;
    if !Rests(s, p, txLevel) {
      ReportKeepsCourse(s, p, txLevel, dtx);
      if s.skipBlocks <= 0 { DescendStep(s, p, txLevel, dtx); }
      var m := DescendToRest(Closed(s, p, txLevel, dtx), p, txLevel, dtx);
      n := m + 1;
    }
  }

  // ----- Target out of reach ------------------------------------------------------------------

  /** All levels are above the target: the filter rises until it does not ask for more. */
  lemma {:induction false} RiseToWindow(s: BsState, p: Params, txLevel: Octet, dtx: bool) returns (n: nat)
    requires InLoop(s, p, txLevel) && txLevel - s.max > Target(p)
    ensures Descending(ClosedAfter(s, p, txLevel, dtx, n), p, txLevel)
    decreases if s.rxlev.measNum == 0 || Held(s) >= p.rxlevLower then 0 else Lowest(p.rxlevLower) - s.rxlev.avg100, s.skipBlocks
  {
    n := 0;
    if s.rxlev.measNum != 0 && Held(s) < p.rxlevLower {
      StaysInLoop(s, p, txLevel, dtx);
      RoundedRange(s.rxlev.avg100, p.rxlevLower);
      if s.skipBlocks <= 0 { OneSample(s, p, txLevel, dtx); }
      var m := RiseToWindow(Closed(s, p, txLevel, dtx), p, txLevel, dtx);
      n := m + 1;
    }
  }

  /** All levels are below the target: the filter falls until it does not ask for less. */
  lemma {:induction false} FallToWindow(s: BsState, p: Params, txLevel: Octet, dtx: bool) returns (n: nat)
    requires InLoop(s, p, txLevel) && txLevel < Target(p)
    ensures Climbing(ClosedAfter(s, p, txLevel, dtx, n), p, txLevel)
    decreases if s.rxlev.measNum == 0 || Held(s) <= p.rxlevUpper then 0 else s.rxlev.avg100 - Highest(p.rxlevUpper), s.skipBlocks
  {
    n := 0;
    if s.rxlev.measNum != 0 && Held(s) > p.rxlevUpper {
      StaysInLoop(s, p, txLevel, dtx);
      RoundedRange(s.rxlev.avg100, p.rxlevUpper);
      if s.skipBlocks <= 0 { OneSample(s, p, txLevel, dtx); }
      var m := FallToWindow(Closed(s, p, txLevel, dtx), p, txLevel, dtx);
      n := m + 1;
    }
  }

  /** What a sample does to a filter that holds something. */
  lemma {:induction false} OneSample(s: BsState, p: Params, txLevel: Octet, dtx: bool)
    requires InLoop(s, p, txLevel) && s.skipBlocks <= 0 && s.rxlev.measNum != 0
    ensures var t := Closed(s, p, txLevel, dtx);
            && t.rxlev.measNum == (s.rxlev.measNum + 1) % UINT32_RANGE
            && t.rxlev.avg100 == s.rxlev.avg100 + p.rxlevAveraging.alpha * (Level(s, txLevel) - Held(s))
            && Between(Held(s), Held(t), Level(s, txLevel))
            && Level(t, txLevel) == Pushed(p, Level(s, txLevel), Held(t), txLevel - s.max, txLevel)
            && s.rxlev.avg100 >= -ROUND && t.rxlev.avg100 >= -ROUND
            && (Level(s, txLevel) > Held(s) ==> t.rxlev.avg100 > s.rxlev.avg100)
            && (Level(s, txLevel) < Held(s) ==> t.rxlev.avg100 < s.rxlev.avg100)
  {
    EffectiveReport(s, p, txLevel, dtx);
    AfterSample(s.rxlev, p.rxlevAveraging.alpha, Level(s, txLevel));
    ScaledGap(p.rxlevAveraging.alpha, Level(s, txLevel) - Held(s));
    hide Closed, DeltaRxlev;
  }

  // ----- Target within reach ------------------------------------------------------------------

  predicate Reachable(s: BsState, p: Params, txLevel: Octet) {
    txLevel - s.max <= Target(p) <= txLevel
  }

  function RankOf(s: BsState, p: Params, txLevel: Octet): (n: int)
    requires p.rxlevAveraging.Ewma?
  {
    Rank(p, p.rxlevAveraging.alpha, s.rxlev.avg100, Level(s, txLevel))
  }

  /** A step of the loop on the way: its energy, or the time left at this average, goes down. */
  lemma {:induction false} SwingStep(s: BsState, p: Params, txLevel: Octet, dtx: bool)
    requires InLoop(s, p, txLevel) && Reachable(s, p, txLevel) && s.skipBlocks <= 0
    requires s.rxlev.measNum != 0 && !Rests(s, p, txLevel)
    ensures 0 <= RankOf(Closed(s, p, txLevel, dtx), p, txLevel) < RankOf(s, p, txLevel)
  {
    hide *;
    Bounds(s, p, txLevel);
    var t := Closed(s, p, txLevel, dtx);
    OneSample(s, p, txLevel, dtx);
    StaysInLoop(s, p, txLevel, dtx);
    Unrested(s, p, txLevel);
    HeldIsRound(s);
    HeldIsRound(t);
    RanksOf(s, p, txLevel);
    RanksOf(t, p, txLevel);
    RankFalls(p, p.rxlevAveraging.alpha, s.rxlev.avg100, Level(s, txLevel), txLevel - s.max, txLevel);
  }

  lemma Bounds(s: BsState, p: Params, txLevel: Octet)
    requires InLoop(s, p, txLevel)
    ensures s.current <= s.max <= txLevel && p.rxlevAveraging.Ewma?
  {
  }

  lemma HeldIsRound(s: BsState)
    requires s.rxlev.avg100 >= -ROUND
    ensures Held(s) == Round(s.rxlev.avg100)
  {
  }

  lemma RanksOf(s: BsState, p: Params, txLevel: Octet)
    requires InLoop(s, p, txLevel)
    ensures p.rxlevAveraging.Ewma?
    ensures RankOf(s, p, txLevel) == Rank(p, p.rxlevAveraging.alpha, s.rxlev.avg100, Level(s, txLevel))
  {
  }

  lemma Unrested(s: BsState, p: Params, txLevel: Octet)
    requires InLoop(s, p, txLevel) && Reachable(s, p, txLevel) && s.rxlev.measNum != 0 && !Rests(s, p, txLevel)
    ensures Usable(p) && txLevel - s.max <= Target(p) <= txLevel && txLevel - s.max <= Level(s, txLevel) <= txLevel
    ensures Level(s, txLevel) != Held(s) || !InWindow(p, Held(s))
  {
  }

  lemma NoReport(s: BsState, p: Params, txLevel: Octet, dtx: bool)
    requires s.current <= s.max <= txLevel
    ensures ClosedAfter(s, p, txLevel, dtx, 0) == s
  {
  }

  lemma OneReport(s: BsState, p: Params, txLevel: Octet, dtx: bool, n: nat)
    requires s.current <= s.max <= txLevel
    ensures ClosedAfter(s, p, txLevel, dtx, n + 1) == ClosedAfter(Closed(s, p, txLevel, dtx), p, txLevel, dtx, n)
  {
    hide Closed;
  }

  /** Either the loop comes to rest or the counter of samples wraps, and that only after more
      reports than its rank says. */
  lemma {:induction false} SwingsOut(s: BsState, p: Params, txLevel: Octet, dtx: bool) returns (n: nat)
    requires InLoop(s, p, txLevel) && Reachable(s, p, txLevel)
    ensures var t := ClosedAfter(s, p, txLevel, dtx, n);
            && InLoop(t, p, txLevel) && (Rests(t, p, txLevel) || t.rxlev.measNum == 0)
            && (s.rxlev.measNum != 0 && s.rxlev.measNum + RankOf(s, p, txLevel) < UINT32_RANGE ==> Rests(t, p, txLevel))
    decreases if s.rxlev.measNum == 0 then 0 else RankOf(s, p, txLevel), s.skipBlocks
  {
    hide Closed, ClosedAfter, Rests, InLoop, Rank, Target, Held;
    Bounds(s, p, txLevel);
    n := 0;
    NoReport(s, p, txLevel, dtx);
    if s.rxlev.measNum != 0 && !Rests(s, p, txLevel) {
      var t := Closed(s, p, txLevel, dtx);
      StaysInLoop(s, p, txLevel, dtx);
      if s.skipBlocks <= 0 {
        SwingStep(s, p, txLevel, dtx);
        OneSample(s, p, txLevel, dtx);
      }
      var m := SwingsOut(t, p, txLevel, dtx);
      OneReport(s, p, txLevel, dtx, m);
      n := m + 1;
    }
  }

  /** A loop whose filter is fresh comes to rest before its counter of samples wraps. */
  lemma {:induction false} FreshSwingsOut(s: BsState, p: Params, txLevel: Octet, dtx: bool) returns (n: nat)
    requires InLoop(s, p, txLevel) && Reachable(s, p, txLevel) && s.rxlev.measNum == 0
    ensures Rests(ClosedAfter(s, p, txLevel, dtx, n), p, txLevel)
    decreases s.skipBlocks
  {
    hide Closed, ClosedAfter, Rests, InLoop, Rank, Target;
    Bounds(s, p, txLevel);
    var t := Closed(s, p, txLevel, dtx);
    StaysInLoop(s, p, txLevel, dtx);
    var m;
    if s.skipBlocks > 0 {
      m := FreshSwingsOut(t, p, txLevel, dtx);
    } else {
      FirstSample(s, p, txLevel, dtx);
      m := SwingsOut(t, p, txLevel, dtx);
    }
    OneReport(s, p, txLevel, dtx, m);
    n := m + 1;
  }

  lemma {:induction false} FirstSample(s: BsState, p: Params, txLevel: Octet, dtx: bool)
    requires InLoop(s, p, txLevel) && Reachable(s, p, txLevel) && s.rxlev.measNum == 0 && s.skipBlocks <= 0
    ensures var t := Closed(s, p, txLevel, dtx);
            t.rxlev.measNum == 1 && 0 <= RankOf(t, p, txLevel) < UINT32_RANGE - 1
  {
    hide Closed, Rank, Target;
    EffectiveReport(s, p, txLevel, dtx);
    var x := Level(s, txLevel);
    assert Level(Closed(s, p, txLevel, dtx), txLevel) == Pushed(p, x, x, txLevel - s.max, txLevel);
    FirstRank(p, p.rxlevAveraging.alpha, x, txLevel - s.max, txLevel);
  }

  // ----- Coming to rest -----------------------------------------------------------------------

  lemma {:induction false} JoinReports(s: BsState, p: Params, txLevel: Octet, dtx: bool, m: nat, n: nat)
    requires s.current <= s.max <= txLevel
    ensures ClosedAfter(s, p, txLevel, dtx, m + n) == ClosedAfter(ClosedAfter(s, p, txLevel, dtx, m), p, txLevel, dtx, n)
    decreases m
  {
    hide Closed;
    if m > 0 {
      JoinReports(Closed(s, p, txLevel, dtx), p, txLevel, dtx, m - 1, n);
      assert m + n - 1 == m - 1 + n;
    }
  }

  lemma {:induction false} InLoopAfter(s: BsState, p: Params, txLevel: Octet, dtx: bool, n: nat)
    requires InLoop(s, p, txLevel)
    ensures InLoop(ClosedAfter(s, p, txLevel, dtx, n), p, txLevel)
    decreases n
  {
    if n > 0 {
      StaysInLoop(s, p, txLevel, dtx);
      InLoopAfter(Closed(s, p, txLevel, dtx), p, txLevel, dtx, n - 1);
    }
  }

  lemma {:induction false} ReachesRest(s: BsState, p: Params, txLevel: Octet, dtx: bool) returns (n: nat)
    requires InLoop(s, p, txLevel)
    ensures Rests(ClosedAfter(s, p, txLevel, dtx, n), p, txLevel)
  {
    hide Closed, Rests, Rank, Target, Climbing, Descending;
    var k, m;
    if txLevel - s.max > Target(p) {
      k := RiseToWindow(s, p, txLevel, dtx);
      m := DescendToRest(ClosedAfter(s, p, txLevel, dtx, k), p, txLevel, dtx);
    } else if txLevel < Target(p) {
      k := FallToWindow(s, p, txLevel, dtx);
      m := ClimbToRest(ClosedAfter(s, p, txLevel, dtx, k), p, txLevel, dtx);
    } else {
      k := SwingsOut(s, p, txLevel, dtx);
      m := 0;
      var t := ClosedAfter(s, p, txLevel, dtx, k);
      if !Rests(t, p, txLevel) { m := FreshSwingsOut(t, p, txLevel, dtx); }
    }
    JoinReports(s, p, txLevel, dtx, k, m);
    n := k + m;
  }

  /** With averaging in the loop, whatever the steps, the window, the interval, the smoothing
      factor, the level and the state of the filter: the attenuation stops changing after
      finitely many reports, with the level in the window or the attenuation exhausted. */
  lemma {:induction false} FilteredLoopComesToRest(s: BsState, p: Params, txLevel: Octet, dtx: bool) returns (n: nat)
    requires InLoop(s, p, txLevel)
    ensures var t := ClosedAfter(s, p, txLevel, dtx, n);
            && Rests(t, p, txLevel) && AtRest(p, t, txLevel)
            && forall k: nat :: k >= n ==> ClosedAfter(s, p, txLevel, dtx, k).current == t.current
  {
    n := ReachesRest(s, p, txLevel, dtx);
    var t := ClosedAfter(s, p, txLevel, dtx, n);
    InLoopAfter(s, p, txLevel, dtx, n);
    forall k: nat | k >= n
      ensures ClosedAfter(s, p, txLevel, dtx, k).current == t.current
    {
      JoinReports(s, p, txLevel, dtx, n, k - n);
      RestIsForGood(t, p, txLevel, dtx, k - n);
      assert n + (k - n) == k;
    }
  }
}
