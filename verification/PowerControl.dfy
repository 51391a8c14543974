/** Power control: the fixed-point averaging filter, the step towards the target level,
    and the downlink attenuation loop built from them. */
module PowerControl {
  import opened Basics
  import opened Tdma

  const SCALE: int := 100
  const ROUND: int := 50
  const UINT32_RANGE: int := 0x1_0000_0000

  /** Smoothing factor in percent. */
  type Alpha = a: int | 1 <= a <= 100 witness 50

  /** Scaled-down average, as C computes it: add half, then truncate toward zero. */
  function Rounded(avg100: int): int {
    CDiv(avg100 + ROUND, SCALE)
  }

  function Updated(avg100: int, alpha: Alpha, val: int): int {
    avg100 + alpha * (val - Rounded(avg100))
  }

  datatype Filter = Filter(measNum: nat, avg100: int)

  /** One sample through the filter. */
  function Filtered(f: Filter, alpha: Alpha, val: int): (r: (Filter, int)) {
    var num := (f.measNum + 1) % UINT32_RANGE;
    if f.measNum == 0 then (Filter(num, val * SCALE), val)
    else
      var x := Updated(f.avg100, alpha, val);
      (Filter(num, x), Rounded(x))
  }

  class MeasProc {
    var measNum: nat
    var avg100: int

    ghost function State(): Filter
      reads this
    {
      Filter(measNum, avg100)
    }

    constructor ()
      ensures State() == Filter(0, 0)
    {
      measNum, avg100 := 0, 0;
    }

    method DoPfEwma(alpha: Alpha, val: int) returns (avg: int)
      modifies this
      ensures (State(), avg) == Filtered(old(State()), alpha, val)
    {
      var first := measNum == 0;
      measNum := (measNum + 1) % UINT32_RANGE;
      if first {
        avg100 := val * SCALE;
        return val;
      }
      avg100 := avg100 + alpha * (val - CDiv(avg100 + ROUND, SCALE));
      return CDiv(avg100 + ROUND, SCALE);
    }
  }

  /** Smallest and largest scaled value that rounds to v. */
  function Lowest(v: int): int {
    if v > 0 then SCALE * v - 50 else SCALE * v - 149
  }

  function Highest(v: int): int {
    if v >= 0 then SCALE * v + 49 else SCALE * v - 50
  }

  lemma RoundedRange(x: int, v: int)
    ensures Rounded(x) == v <==> Lowest(v) <= x <= Highest(v)
    ensures Rounded(x) < v <==> x < Lowest(v)
    ensures Rounded(x) > v <==> x > Highest(v)
  {
  }

  lemma {:induction false} ScaledGap(alpha: Alpha, d: int)
    ensures d >= 0 ==> d <= alpha * d <= SCALE * d
    ensures d <= 0 ==> SCALE * d <= alpha * d <= d
  {
    if d >= 0 {
      assert (alpha - 1) * d >= 0 && (SCALE - alpha) * d >= 0;
    } else {
      assert (alpha - 1) * d <= 0 && (SCALE - alpha) * d <= 0;
    }
  }

  /** A sample pulls the rounded average towards itself and never past itself. */
  lemma {:induction false} NeverOvershoots(avg100: int, alpha: Alpha, val: int)
    ensures Between(Rounded(avg100), Rounded(Updated(avg100, alpha, val)), val)
  {
    var v := Rounded(avg100);
    ScaledGap(alpha, val - v);
    RoundedRange(avg100, v);
    RoundedRange(Updated(avg100, alpha, val), v);
    RoundedRange(Updated(avg100, alpha, val), val);
  }

  // ----- Range of every run -------------------------------------------------------------

  function FilterRun(alpha: Alpha, vals: seq<int>): (r: (Filter, seq<int>)) {
    if vals == [] then (Filter(0, 0), [])
    else
      var (f, outs) := FilterRun(alpha, vals[..|vals| - 1]);
      var (g, out) := Filtered(f, alpha, vals[|vals| - 1]);
      (g, outs + [out])
  }

  lemma {:induction false} FilterRunAppend(alpha: Alpha, vals: seq<int>, val: int)
    ensures var r := FilterRun(alpha, vals);
            var s := Filtered(r.0, alpha, val);
            FilterRun(alpha, vals + [val]) == (s.0, r.1 + [s.1])
  {
    hide Filtered;
    assert (vals + [val])[..|vals|] == vals;
  }

  predicate Within(vals: seq<int>, lo: int, hi: int) {
    forall i :: 0 <= i < |vals| ==> lo <= vals[i] <= hi
  }

  ghost predicate StaysInRange(alpha: Alpha, lo: int, hi: int) {
    forall vals: seq<int> :: Within(vals, lo, hi) ==> Within(FilterRun(alpha, vals).1, lo, hi)
  }

  /** The filter holds an average in range, or was just started with a negative maximum,
      which the code rounds to one more. */
  predicate Holds(f: Filter, lo: int, hi: int) {
    f.measNum == 0 || lo <= Rounded(f.avg100) <= hi || (hi < 0 && f.avg100 == SCALE * hi)
  }

  lemma {:induction false} FilteredHolds(f: Filter, alpha: Alpha, lo: int, hi: int, val: int)
    requires Holds(f, lo, hi) && lo <= val <= hi && (hi >= 0 || alpha >= 50)
    ensures Holds(Filtered(f, alpha, val).0, lo, hi) && lo <= Filtered(f, alpha, val).1 <= hi
  {
    if f.measNum == 0 {
      RoundedRange(SCALE * val, val);
      RoundedRange(SCALE * val, val + 1);
    } else {
      NeverOvershoots(f.avg100, alpha, val);
      if Rounded(f.avg100) > hi {
        var x := Updated(f.avg100, alpha, val);
        RoundedRange(f.avg100, hi + 1);
        assert alpha * (val - (hi + 1)) <= 0 - alpha by { assert alpha * (hi - val) >= 0; }
        RoundedRange(x, hi);
      }
    }
  }

  lemma {:induction false} RunHolds(alpha: Alpha, lo: int, hi: int, vals: seq<int>)
    requires Within(vals, lo, hi) && (hi >= 0 || alpha >= 50)
    ensures Holds(FilterRun(alpha, vals).0, lo, hi) && Within(FilterRun(alpha, vals).1, lo, hi)
  {
    if vals != [] {
      RunHolds(alpha, lo, hi, vals[..|vals| - 1]);
      FilteredHolds(FilterRun(alpha, vals[..|vals| - 1]).0, alpha, lo, hi, vals[|vals| - 1]);
    }
  }

  lemma {:induction false} SecondSample(alpha: Alpha, v: int)
    requires v < 0 && alpha < 50
    ensures Filtered(Filter(1, SCALE * v), alpha, v).1 == v + 1
  {
    RoundedRange(SCALE * v, v + 1);
    RoundedRange(SCALE * v - alpha, v + 1);
  }

  /** A filter fed twice with the same negative value and little weight on new samples
      answers with one more than that value. */
  lemma {:induction false} NegativeStartRoundsUp(alpha: Alpha, v: int)
    requires v < 0 && alpha < 50
    ensures FilterRun(alpha, [v, v]).1 == [v, v + 1]
  {
    FilterRunAppend(alpha, [], v);
    FilterRunAppend(alpha, [v], v);
    assert [] + [v] == [v] && [v] + [v] == [v, v];
    assert Filtered(Filter(0, 0), alpha, v) == (Filter(1, SCALE * v), v);
    SecondSample(alpha, v);
    hide Filtered;
  }

  /** Samples in [lo, hi] always average to values in [lo, hi] exactly if hi is not
      negative or new samples weigh at least one half. */
  lemma {:induction false} RangeIsKeptExactlyWhen(alpha: Alpha, lo: int, hi: int)
    requires lo <= hi
    ensures StaysInRange(alpha, lo, hi) <==> hi >= 0 || alpha >= 50
  {
    if hi >= 0 || alpha >= 50 {
      forall vals: seq<int> | Within(vals, lo, hi)
        ensures Within(FilterRun(alpha, vals).1, lo, hi)
      {
        RunHolds(alpha, lo, hi, vals);
      }
    } else {
      NegativeStartRoundsUp(alpha, hi);
      assert Within([hi, hi], lo, hi);
      assert FilterRun(alpha, [hi, hi]).1[1] == hi + 1;
    }
  }

  // ----- Convergence --------------------------------------------------------------------

  /** Scaled average after n samples of the same value. */
  function Settling(avg100: int, alpha: Alpha, val: int, n: nat): int {
    if n == 0 then avg100 else Updated(Settling(avg100, alpha, val, n - 1), alpha, val)
  }

  /** Under a constant input the average moves monotonically, never passes the input,
      and once there stays there. */
  lemma {:induction false} SettlingIsMonotone(avg100: int, alpha: Alpha, val: int, n: nat)
    ensures Between(Rounded(Settling(avg100, alpha, val, n)), Rounded(Settling(avg100, alpha, val, n + 1)), val)
    ensures Rounded(Settling(avg100, alpha, val, n)) == val ==>
              Settling(avg100, alpha, val, n + 1) == Settling(avg100, alpha, val, n)
  {
    NeverOvershoots(Settling(avg100, alpha, val, n), alpha, val);
  }

  /** Each sample that misses takes at least one unit off the scaled distance. */
  lemma {:induction false} SettlingProgress(avg100: int, alpha: Alpha, val: int, n: nat)
    ensures var x := Settling(avg100, alpha, val, n);
            || Rounded(x) == val
            || (Rounded(x) < val && x >= avg100 + n)
            || (Rounded(x) > val && x <= avg100 - n)
  {
    if n > 0 {
      SettlingProgress(avg100, alpha, val, n - 1);
      var x := Settling(avg100, alpha, val, n - 1);
      ScaledGap(alpha, val - Rounded(x));
      NeverOvershoots(x, alpha, val);
    }
  }

  /** A constant input is reached after finitely many samples. */
  lemma {:induction false} ConstantInputIsReached(avg100: int, alpha: Alpha, val: int, n: nat)
    requires n >= Abs(SCALE * val - avg100) + ROUND
    ensures Rounded(Settling(avg100, alpha, val, n)) == val
  {
    SettlingProgress(avg100, alpha, val, n);
    RoundedRange(Settling(avg100, alpha, val, n), val);
  }

  // ----- One step of the loop -------------------------------------------------------------

  datatype Averaging = Plain | Ewma(alpha: Alpha)

  datatype Params = Params(rxlevLower: Octet, rxlevUpper: Octet, rxqualLower: Octet, rxqualUpper: Octet,
                           incStep: Octet, redStep: Octet, ctrlInterval: Octet,
                           rxlevAveraging: Averaging, rxqualAveraging: Averaging)

  /** A downlink measurement report. */
  datatype Report = Report(rxlevFull: Octet, rxqualFull: Octet, rxlevSub: Octet, rxqualSub: Octet)

  /** A sample through the configured averaging, the result kept in an octet. */
  function Averaged(a: Averaging, f: Filter, val: Octet): (r: (Filter, Octet)) {
    match a
    case Plain => (f, val)
    case Ewma(alpha) => (Filtered(f, alpha, val).0, Filtered(f, alpha, val).1 % 256)
  }

  /** The octet loses nothing, and the average stays within the values received. */
  lemma {:induction false} AveragedFits(a: Averaging, f: Filter, val: Octet, lo: Octet, hi: Octet)
    requires Holds(f, lo, hi) && lo <= val <= hi
    ensures Holds(Averaged(a, f, val).0, lo, hi) && lo <= Averaged(a, f, val).1 <= hi
    ensures a.Ewma? ==> Averaged(a, f, val).1 == Filtered(f, a.alpha, val).1
  {
    if a.Ewma? { FilteredHolds(f, a.alpha, lo, hi, val); }
  }

  function Target(p: Params): (r: int) {
    (p.rxlevLower + p.rxlevUpper) / 2
  }

  predicate InWindow(p: Params, rxlev: int) {
    p.rxlevLower <= rxlev <= p.rxlevUpper
  }

  /** By how much the received level is to be raised (+) or lowered (-). */
  function DeltaRxlev(p: Params, rxlev: int): (delta: int) {
    if InWindow(p, rxlev) then 0
    else
      var delta := Target(p) - rxlev;
      if delta > p.incStep then p.incStep
      else if delta < 0 - p.redStep then 0 - p.redStep
      else delta
  }

  /** The step leads towards the target, not past it, and is never larger than allowed. */
  lemma DeltaHeadsForTarget(p: Params, rxlev: int)
    ensures 0 - p.redStep <= DeltaRxlev(p, rxlev) <= p.incStep
    ensures Between(rxlev, rxlev + DeltaRxlev(p, rxlev), Target(p)) || DeltaRxlev(p, rxlev) == 0
    ensures p.rxlevLower <= p.rxlevUpper && p.incStep > 0 && p.redStep > 0 ==>
              (DeltaRxlev(p, rxlev) == 0 <==> InWindow(p, rxlev))
  {
  }

  datatype BsState = BsState(current: Octet, max: Octet, skipBlocks: int, rxlev: Filter, rxqual: Filter)

  function Clamp(att: int, max: Octet): (r: Octet)
    ensures r <= max
  {
    if att < 0 then 0 else if att > max then max else att
  }

  function NewAttenuation(s: BsState, p: Params, rxqualAvg: int, rxlevAvg: int): (r: Octet) {
    var att := if rxqualAvg > p.rxqualLower then s.current - p.incStep
               else if rxqualAvg < p.rxqualUpper then s.current + p.redStep
               else s.current - DeltaRxlev(p, rxlevAvg);
    Clamp(att, s.max)
  }

  /** One measurement report: either skipped, or its averaged values move the attenuation.
      While the downlink is in DTX the values of the SUB set count. */
  function BsStep(s: BsState, p: Params, rep: Report, dtx: bool): (r: BsState) {
    if s.skipBlocks > 0 then s.(skipBlocks := s.skipBlocks - 1)
    else
      var lev := Averaged(p.rxlevAveraging, s.rxlev, if dtx then rep.rxlevSub else rep.rxlevFull);
      var qual := Averaged(p.rxqualAveraging, s.rxqual, if dtx then rep.rxqualSub else rep.rxqualFull);
      s.(skipBlocks := p.ctrlInterval * 2 - 1, rxlev := lev.0, rxqual := qual.0,
         current := NewAttenuation(s, p, qual.1, lev.1))
  }

  lemma SameAttenuation(s: BsState, t: BsState, p: Params, rxqualAvg: int, rxlevAvg: int)
    requires s.current == t.current && s.max == t.max
    ensures NewAttenuation(s, p, rxqualAvg, rxlevAvg) == NewAttenuation(t, p, rxqualAvg, rxlevAvg)
  {
  }

  /** What an effective report does, by the averaged values: bad quality takes a step of
      attenuation off, good quality puts one on, and otherwise the level decides: below the
      window attenuation goes, above it it comes, as far as the target but no more than a step. */
  lemma {:induction false} ReportMoves(s: BsState, p: Params, rep: Report, dtx: bool)
    requires s.skipBlocks <= 0 && s.current <= s.max
    ensures var t := BsStep(s, p, rep, dtx);
            var qual := Averaged(p.rxqualAveraging, s.rxqual, if dtx then rep.rxqualSub else rep.rxqualFull);
            var lev := Averaged(p.rxlevAveraging, s.rxlev, if dtx then rep.rxlevSub else rep.rxlevFull);
            var target := (p.rxlevLower + p.rxlevUpper) / 2;
            && t.max == s.max && t.skipBlocks == p.ctrlInterval * 2 - 1 && t.rxlev == lev.0 && t.rxqual == qual.0
            && (qual.1 > p.rxqualLower ==>
                  t.current == if s.current >= p.incStep then s.current - p.incStep else 0)
            && (qual.1 < p.rxqualUpper && qual.1 <= p.rxqualLower ==>
                  t.current == if s.current + p.redStep <= s.max then s.current + p.redStep else s.max)
            && (p.rxqualUpper <= qual.1 <= p.rxqualLower ==>
                  && (p.rxlevLower <= lev.1 <= p.rxlevUpper ==> t.current == s.current)
                  && (lev.1 < p.rxlevLower <= p.rxlevUpper ==>
                        t.current == Max(s.current - Min(p.incStep, target - lev.1), 0))
                  && (p.rxlevLower <= p.rxlevUpper < lev.1 ==>
                        t.current == Min(s.current + Min(p.redStep, lev.1 - target), s.max)))
  {
    hide Averaged;
  }

  function Min(a: int, b: int): (m: int)
    ensures m == a || m == b
    ensures m <= a && m <= b
  {
    if a <= b then a else b
  }

  function Max(a: int, b: int): (m: int)
    ensures m == a || m == b
    ensures m >= a && m >= b
  {
    if a >= b then a else b
  }

  class BsPowerControl {
    var current: Octet
    var max: Octet
    var skipBlockNum: int
    const rxlevProc: MeasProc
    const rxqualProc: MeasProc

    ghost function State(): BsState
      reads this, rxlevProc, rxqualProc
    {
      BsState(current, max, skipBlockNum, rxlevProc.State(), rxqualProc.State())
    }

    constructor (max: Octet)
      ensures State() == BsState(0, max, 0, Filter(0, 0), Filter(0, 0))
      ensures fresh(rxlevProc) && fresh(rxqualProc) && rxlevProc != rxqualProc
    {
      current, this.max, skipBlockNum := 0, max, 0;
      rxlevProc := new MeasProc();
      rxqualProc := new MeasProc();
    }

    method SkipBlock(p: Params) returns (skip: bool)
      modifies this`skipBlockNum
      ensures skip <==> old(skipBlockNum) > 0
      ensures skipBlockNum == if skip then old(skipBlockNum) - 1 else p.ctrlInterval * 2 - 1
    {
      skip := skipBlockNum > 0;
      skipBlockNum := skipBlockNum - 1;
      if skip { return; }
      skipBlockNum := p.ctrlInterval * 2 - 1;
    }

    /** Averaging by the configured algorithm. */
    method AvgAlgo(a: Averaging, proc: MeasProc, val: Octet) returns (avg: Octet)
      modifies proc
      ensures (proc.State(), avg) == Averaged(a, old(proc.State()), val)
    {
      if a.Plain? { return val; }
      var x := proc.DoPfEwma(a.alpha, val);
      return x % 256;
    }

    /** The attenuation that the averaged values ask for. */
    method Move(p: Params, rxqualAvg: Octet, rxlevAvg: Octet) returns (changed: bool)
      modifies this`current
      ensures current == NewAttenuation(old(State()), p, rxqualAvg, rxlevAvg)
      ensures changed <==> current != old(current)
    {
      var newAtt: int;
      if rxqualAvg > p.rxqualLower {
        newAtt := current - p.incStep;
      } else if rxqualAvg < p.rxqualUpper {
        newAtt := current + p.redStep;
      } else {
        newAtt := current - DeltaRxlev(p, rxlevAvg);
      }
      if newAtt < 0 { newAtt := 0; }
      if newAtt > max { newAtt := max; }
      if current == newAtt { return false; }
      current := newAtt;
      return true;
    }

    /** A report; without parameters dynamic power control is off. */
    method PowerCtrl(params: Option<Params>, rep: Report, dtx: bool) returns (changed: bool)
      requires rxlevProc != rxqualProc
      modifies this, rxlevProc, rxqualProc
      ensures State() == if params.None? then old(State()) else BsStep(old(State()), params.value, rep, dtx)
      ensures changed <==> current != old(current)
      ensures max == old(max)
      ensures params.Some? && old(skipBlockNum) > 0 ==> current == old(current)
      // Bad quality takes attenuation off, good quality puts some on, else the level decides.
      ensures params.Some? && old(skipBlockNum) <= 0 && old(current) <= old(max) ==>
        var p := params.value;
        var qual := Averaged(p.rxqualAveraging, old(rxqualProc.State()), if dtx then rep.rxqualSub else rep.rxqualFull).1;
        var lev := Averaged(p.rxlevAveraging, old(rxlevProc.State()), if dtx then rep.rxlevSub else rep.rxlevFull).1;
        var target := (p.rxlevLower + p.rxlevUpper) / 2;
        && (qual > p.rxqualLower ==> current == Max(old(current) - p.incStep, 0))
        && (qual < p.rxqualUpper && qual <= p.rxqualLower ==> current == Min(old(current) + p.redStep, max))
        && (p.rxqualUpper <= qual <= p.rxqualLower ==>
              && (p.rxlevLower <= lev <= p.rxlevUpper ==> current == old(current))
              && (lev < p.rxlevLower <= p.rxlevUpper ==>
                    current == Max(old(current) - Min(p.incStep, target - lev), 0))
              && (p.rxlevLower <= p.rxlevUpper < lev ==>
                    current == Min(old(current) + Min(p.redStep, lev - target), max)))
    {
      hide Averaged, Max, Min, NewAttenuation;
      if params.None? { return false; }
      var p := params.value;
      if skipBlockNum <= 0 && current <= max { ReportMoves(State(), p, rep, dtx); }
      var skip := SkipBlock(p);
      if skip { return false; }
      var rxlevAvg := AvgAlgo(p.rxlevAveraging, rxlevProc, if dtx then rep.rxlevSub else rep.rxlevFull);
      var rxqualAvg := AvgAlgo(p.rxqualAveraging, rxqualProc, if dtx then rep.rxqualSub else rep.rxqualFull);
      SameAttenuation(old(State()), State(), p, rxqualAvg, rxlevAvg);
      changed := Move(p, rxqualAvg, rxlevAvg);
    }
  }

  // ----- The loop closed over a constant path ---------------------------------------------

  /** An effective report when quality is acceptable and the mobile receives the
      transmit level minus the attenuation. */
  function Effective(s: BsState, p: Params, txLevel: int): (r: BsState) {
    s.(current := NewAttenuation(s, p, p.rxqualLower, txLevel - s.current))
  }

  /** That is a report that is not skipped, with the averaging switched off. */
  lemma EffectiveIsReport(s: BsState, p: Params, txLevel: int, rep: Report, dtx: bool)
    requires s.skipBlocks <= 0 && p.rxlevAveraging.Plain? && p.rxqualAveraging.Plain?
    requires (if dtx then rep.rxqualSub else rep.rxqualFull) == p.rxqualLower
    requires (if dtx then rep.rxlevSub else rep.rxlevFull) == txLevel - s.current
    ensures BsStep(s, p, rep, dtx) == Effective(s, p, txLevel).(skipBlocks := p.ctrlInterval * 2 - 1)
  {
  }

  function Loop(s: BsState, p: Params, txLevel: int, n: nat): (r: BsState) {
    if n == 0 then s else Effective(Loop(s, p, txLevel, n - 1), p, txLevel)
  }

  function Miss(p: Params, s: BsState, txLevel: int): nat {
    Abs(Target(p) - (txLevel - s.current))
  }

  predicate AtRest(p: Params, s: BsState, txLevel: int) {
    || InWindow(p, txLevel - s.current)
    || (s.current == 0 && txLevel < p.rxlevLower)
    || (s.current == s.max && txLevel - s.max > p.rxlevUpper)
  }

  /** Steps and thresholds a usable configuration has. */
  predicate Usable(p: Params) {
    p.rxlevLower <= p.rxlevUpper && p.incStep > 0 && p.redStep > 0 && p.rxqualUpper <= p.rxqualLower
  }

  /** Every effective report brings the received level nearer to the target, without
      passing it, unless the loop is at rest, and then nothing changes any more. */
  lemma {:induction false} LoopApproaches(s: BsState, p: Params, txLevel: int)
    requires Usable(p) && s.current <= s.max
    ensures var t := Effective(s, p, txLevel);
            && t.max == s.max && t.current <= t.max
            && (Between(txLevel - s.current, txLevel - t.current, Target(p)) || t == s)
    ensures AtRest(p, s, txLevel) ==> Effective(s, p, txLevel) == s
    ensures !AtRest(p, s, txLevel) ==> Miss(p, Effective(s, p, txLevel), txLevel) < Miss(p, s, txLevel)
  {
    DeltaHeadsForTarget(p, txLevel - s.current);
  }

  /** The closed loop comes to rest: the level is in the window, or the attenuation is
      exhausted in the direction that would help. */
  lemma {:induction false} LoopComesToRest(s: BsState, p: Params, txLevel: int, n: nat)
    requires Usable(p) && s.current <= s.max && n >= Miss(p, s, txLevel)
    ensures AtRest(p, Loop(s, p, txLevel, n), txLevel)
  {
    LoopProgress(s, p, txLevel, n);
  }

  lemma {:induction false} LoopProgress(s: BsState, p: Params, txLevel: int, n: nat)
    requires Usable(p) && s.current <= s.max
    ensures var t := Loop(s, p, txLevel, n);
            t.current <= t.max && (AtRest(p, t, txLevel) || Miss(p, t, txLevel) + n <= Miss(p, s, txLevel))
  {
    if n > 0 {
      LoopProgress(s, p, txLevel, n - 1);
      LoopApproaches(Loop(s, p, txLevel, n - 1), p, txLevel);
      hide Effective, AtRest, Miss;
    }
  }

  /** Of the reports after an effective one, 2 * interval - 1 are skipped, and change neither
      the attenuation nor the averages; the next one is effective again. */
  lemma {:induction false} SkippedReports(s: BsState, p: Params, reports: seq<(Report, bool)>)
    requires s.skipBlocks == p.ctrlInterval * 2 - 1 && p.ctrlInterval > 0
    requires |reports| <= p.ctrlInterval * 2 - 1
    ensures var t := Reports(s, p, reports);
            t == s.(skipBlocks := p.ctrlInterval * 2 - 1 - |reports|)
  {
    if reports != [] {
      SkippedReports(s, p, reports[..|reports| - 1]);
    }
  }

  function Reports(s: BsState, p: Params, reports: seq<(Report, bool)>): (r: BsState) {
    if reports == [] then s
    else
      var last := reports[|reports| - 1];
      BsStep(Reports(s, p, reports[..|reports| - 1]), p, last.0, last.1)
  }

  // ----- Quality over a run ---------------------------------------------------------------

  /** Reports between two effective ones and the later one of them. */
  function Period(p: Params): (n: nat)
    ensures n > 0
  {
    if p.ctrlInterval == 0 then 1 else 2 * p.ctrlInterval
  }

  /** After n reports, the first of which was effective: how many were, and how many will be
      skipped before the next one is. */
  function Effectives(n: nat, period: nat): (k: nat)
    requires period > 0
  {
    if n == 0 then 0 else Effectives(n - 1, period) + (if ToSkip(n - 1, period) == 0 then 1 else 0)
  }

  function ToSkip(n: nat, period: nat): (k: nat)
    requires period > 0
    ensures k < period
  {
    if n == 0 then 0 else if ToSkip(n - 1, period) == 0 then period - 1 else ToSkip(n - 1, period) - 1
  }

  /** That is one in a period, rounded up. */
  lemma {:induction false} EffectivesRoundUp(n: nat, period: nat)
    requires period > 0
    ensures Effectives(n, period) * period == n + ToSkip(n, period)
    ensures Effectives(n, period) == (n + period - 1) / period
  {
    if n > 0 { EffectivesRoundUp(n - 1, period); }
    var k, skip := Effectives(n, period), ToSkip(n, period);
    if n > 0 && ToSkip(n - 1, period) == 0 {
      assert k * period == Effectives(n - 1, period) * period + period;
    }
    DivModUnique(n + period - 1, k, period - 1 - skip, period);
  }

  /** All reports say so, and the filter holds nothing else. */
  predicate QualityWithin(s: BsState, reports: seq<(Report, bool)>, lo: Octet, hi: Octet) {
    && Holds(s.rxqual, lo, hi)
    && forall i :: 0 <= i < |reports| ==>
         lo <= (if reports[i].1 then reports[i].0.rxqualSub else reports[i].0.rxqualFull) <= hi
  }

  lemma {:induction false} ReportKeepsQuality(s: BsState, p: Params, rep: Report, dtx: bool, lo: Octet, hi: Octet)
    requires Holds(s.rxqual, lo, hi) && lo <= (if dtx then rep.rxqualSub else rep.rxqualFull) <= hi
    ensures Holds(BsStep(s, p, rep, dtx).rxqual, lo, hi)
    ensures lo <= Averaged(p.rxqualAveraging, s.rxqual, if dtx then rep.rxqualSub else rep.rxqualFull).1 <= hi
  {
    AveragedFits(p.rxqualAveraging, s.rxqual, if dtx then rep.rxqualSub else rep.rxqualFull, lo, hi);
    hide Averaged, Holds, NewAttenuation;
  }

  /** Where a run of reports is: skipping as many as it should, with its quality in bounds. */
  predicate InStep(s: BsState, t: BsState, p: Params, n: nat, lo: Octet, hi: Octet) {
    && t.max == s.max && Holds(t.rxqual, lo, hi)
    && (ToSkip(n, Period(p)) == 0 ==> t.skipBlocks <= 0)
    && (ToSkip(n, Period(p)) > 0 ==> t.skipBlocks == ToSkip(n, Period(p)))
  }

  lemma {:induction false} StaysInStep(s: BsState, t: BsState, p: Params, n: nat, rep: Report, dtx: bool, lo: Octet, hi: Octet)
    requires InStep(s, t, p, n, lo, hi) && lo <= (if dtx then rep.rxqualSub else rep.rxqualFull) <= hi
    ensures InStep(s, BsStep(t, p, rep, dtx), p, n + 1, lo, hi)
    ensures ToSkip(n, Period(p)) > 0 ==> BsStep(t, p, rep, dtx).current == t.current
    ensures ToSkip(n, Period(p)) == 0 ==> t.skipBlocks <= 0
    ensures Effectives(n + 1, Period(p)) == Effectives(n, Period(p)) + (if ToSkip(n, Period(p)) == 0 then 1 else 0)
  {
    ReportKeepsQuality(t, p, rep, dtx, lo, hi);
    hide Averaged, NewAttenuation, Holds;
  }

  lemma {:induction false} BadReport(s: BsState, t: BsState, p: Params, n: nat, rep: Report, dtx: bool)
    requires p.rxqualLower < 255 && InStep(s, t, p, n, p.rxqualLower + 1, 255) && t.current <= t.max
    requires p.rxqualLower < if dtx then rep.rxqualSub else rep.rxqualFull
    ensures BsStep(t, p, rep, dtx).current ==
              if ToSkip(n, Period(p)) == 0 then Max(t.current - p.incStep, 0) else t.current
  {
    hide Averaged, Holds, BsStep;
    StaysInStep(s, t, p, n, rep, dtx, p.rxqualLower + 1, 255);
    ReportKeepsQuality(t, p, rep, dtx, p.rxqualLower + 1, 255);
    if t.skipBlocks <= 0 { ReportMoves(t, p, rep, dtx); }
  }

  lemma {:induction false} GoodReport(s: BsState, t: BsState, p: Params, n: nat, rep: Report, dtx: bool)
    requires 0 < p.rxqualUpper <= p.rxqualLower && InStep(s, t, p, n, 0, p.rxqualUpper - 1) && t.current <= t.max
    requires p.rxqualUpper > if dtx then rep.rxqualSub else rep.rxqualFull
    ensures BsStep(t, p, rep, dtx).current ==
              if ToSkip(n, Period(p)) == 0 then Min(t.current + p.redStep, t.max) else t.current
  {
    hide Averaged, Holds, BsStep;
    StaysInStep(s, t, p, n, rep, dtx, 0, p.rxqualUpper - 1);
    ReportKeepsQuality(t, p, rep, dtx, 0, p.rxqualUpper - 1);
    if t.skipBlocks <= 0 { ReportMoves(t, p, rep, dtx); }
  }

  lemma LastReport(s: BsState, p: Params, reports: seq<(Report, bool)>)
    requires reports != []
    ensures var n := |reports| - 1;
            Reports(s, p, reports) == BsStep(Reports(s, p, reports[..n]), p, reports[n].0, reports[n].1)
  {
    hide BsStep;
  }

  lemma QualityOfParts(s: BsState, reports: seq<(Report, bool)>, lo: Octet, hi: Octet)
    requires QualityWithin(s, reports, lo, hi)
    ensures Holds(s.rxqual, lo, hi)
    ensures reports != [] ==>
              var last := reports[|reports| - 1];
              && QualityWithin(s, reports[..|reports| - 1], lo, hi)
              && lo <= (if last.1 then last.0.rxqualSub else last.0.rxqualFull) <= hi
  {
  }

  lemma NoReports(s: BsState, p: Params, lo: Octet, hi: Octet)
    requires s.skipBlocks <= 0 && Holds(s.rxqual, lo, hi)
    ensures Reports(s, p, []) == s && InStep(s, s, p, 0, lo, hi) && Effectives(0, Period(p)) == 0
  {
  }

  /** What k steps leave of an attenuation, and what they make of it up to the maximum. */
  function Lowered(current: nat, k: nat, step: nat): (a: nat) {
    Max(current - k * step, 0)
  }

  function Raised(current: nat, k: nat, step: nat, max: nat): (a: int) {
    Min(current + k * step, max)
  }

  lemma OneStepMore(current: nat, k: nat, step: nat, max: nat)
    requires current <= max
    ensures Lowered(current, 0, step) == current && Raised(current, 0, step, max) == current
    ensures Lowered(current, k, step) <= current && Raised(current, k, step, max) <= max
    ensures Lowered(current, k + 1, step) == Max(Lowered(current, k, step) - step, 0)
    ensures Raised(current, k + 1, step, max) == Min(Raised(current, k, step, max) + step, max)
  {
    assert 0 <= k * step && (k + 1) * step == k * step + step;
  }

  lemma {:induction false} BadRun(s: BsState, p: Params, reports: seq<(Report, bool)>)
    requires s.skipBlocks <= 0 && s.current <= s.max
    requires p.rxqualLower < 255 && QualityWithin(s, reports, p.rxqualLower + 1, 255)
    ensures var t := Reports(s, p, reports);
            && t.max == s.max && InStep(s, t, p, |reports|, p.rxqualLower + 1, 255)
            && t.current == Lowered(s.current, Effectives(|reports|, Period(p)), p.incStep)
  {
    hide *;
    var n := |reports|;
    QualityOfParts(s, reports, p.rxqualLower + 1, 255);
    if n == 0 {
      NoReports(s, p, p.rxqualLower + 1, 255);
      OneStepMore(s.current, 0, p.incStep, s.max);
      assert reports == [];
    } else {
      var last := reports[n - 1];
      BadRun(s, p, reports[..n - 1]);
      var b := Reports(s, p, reports[..n - 1]);
      LastReport(s, p, reports);
      OneStepMore(s.current, Effectives(n - 1, Period(p)), p.incStep, s.max);
      StaysInStep(s, b, p, n - 1, last.0, last.1, p.rxqualLower + 1, 255);
      KeepsMax(b, p, last.0, last.1);
      BadReport(s, b, p, n - 1, last.0, last.1);
    }
  }

  lemma {:induction false} GoodRun(s: BsState, p: Params, reports: seq<(Report, bool)>)
    requires s.skipBlocks <= 0 && s.current <= s.max
    requires 0 < p.rxqualUpper <= p.rxqualLower && QualityWithin(s, reports, 0, p.rxqualUpper - 1)
    ensures var t := Reports(s, p, reports);
            && t.max == s.max && InStep(s, t, p, |reports|, 0, p.rxqualUpper - 1)
            && t.current == Raised(s.current, Effectives(|reports|, Period(p)), p.redStep, s.max)
  {
    hide *;
    var n := |reports|;
    QualityOfParts(s, reports, 0, p.rxqualUpper - 1);
    if n == 0 {
      NoReports(s, p, 0, p.rxqualUpper - 1);
      OneStepMore(s.current, 0, p.redStep, s.max);
      assert reports == [];
    } else {
      var last := reports[n - 1];
      GoodRun(s, p, reports[..n - 1]);
      var b := Reports(s, p, reports[..n - 1]);
      LastReport(s, p, reports);
      OneStepMore(s.current, Effectives(n - 1, Period(p)), p.redStep, s.max);
      StaysInStep(s, b, p, n - 1, last.0, last.1, 0, p.rxqualUpper - 1);
      KeepsMax(b, p, last.0, last.1);
      GoodReport(s, b, p, n - 1, last.0, last.1);
    }
  }

  /** While quality is bad every effective report takes a step off the attenuation, until there
      is none left: that takes as many effective reports as it has steps, rounded up. */
  lemma {:induction false} BadQualityTakesAllOff(s: BsState, p: Params, reports: seq<(Report, bool)>)
    requires s.skipBlocks <= 0 && s.current <= s.max
    requires p.rxqualLower < 255 && QualityWithin(s, reports, p.rxqualLower + 1, 255)
    ensures var t := Reports(s, p, reports);
            var k := Effectives(|reports|, Period(p));
            && t.current == Max(s.current - k * p.incStep, 0)
            && (t.current == 0 <==> s.current <= k * p.incStep)
  {
    hide Reports, Effectives, Period, QualityWithin, InStep;
    BadRun(s, p, reports);
  }

  /** While quality is good every effective report puts a step on, up to the maximum. */
  lemma {:induction false} GoodQualityPutsAllOn(s: BsState, p: Params, reports: seq<(Report, bool)>)
    requires s.skipBlocks <= 0 && s.current <= s.max
    requires 0 < p.rxqualUpper <= p.rxqualLower && QualityWithin(s, reports, 0, p.rxqualUpper - 1)
    ensures var t := Reports(s, p, reports);
            var k := Effectives(|reports|, Period(p));
            && t.current == Min(s.current + k * p.redStep, s.max)
            && (t.current == s.max <==> s.max - s.current <= k * p.redStep)
  {
    hide Reports, Effectives, Period, QualityWithin, InStep;
    GoodRun(s, p, reports);
  }

  lemma KeepsMax(s: BsState, p: Params, rep: Report, dtx: bool)
    ensures BsStep(s, p, rep, dtx).max == s.max
  {
  }

  predicate Known(s: BsState) {
    Holds(s.rxlev, 0, 255) && Holds(s.rxqual, 0, 255)
  }

  /** Over any run of reports the averages fit their octets, and the attenuation never
      exceeds the maximum and moves by one step at a time. */
  lemma {:induction false} ReportsMoveByOneStep(s: BsState, p: Params, reports: seq<(Report, bool)>)
    requires Known(s) && s.current <= s.max && reports != []
    ensures var b := Reports(s, p, reports[..|reports| - 1]);
            var t := Reports(s, p, reports);
            && Known(t) && t.max == s.max && t.current <= t.max
            && b.current - p.incStep <= t.current <= b.current + p.redStep
  {
    var before := reports[..|reports| - 1];
    if before != [] { ReportsMoveByOneStep(s, p, before); }
    ReportKeeps(Reports(s, p, before), p, reports[|reports| - 1].0, reports[|reports| - 1].1);
  }

  lemma {:induction false} ReportKeeps(s: BsState, p: Params, rep: Report, dtx: bool)
    requires Known(s) && s.current <= s.max
    ensures var t := BsStep(s, p, rep, dtx);
            && Known(t) && t.max == s.max && t.current <= t.max
            && s.current - p.incStep <= t.current <= s.current + p.redStep
  {
    AveragedFits(p.rxlevAveraging, s.rxlev, if dtx then rep.rxlevSub else rep.rxlevFull, 0, 255);
    AveragedFits(p.rxqualAveraging, s.rxqual, if dtx then rep.rxqualSub else rep.rxqualFull, 0, 255);
    hide Averaged, Holds;
  }
}
