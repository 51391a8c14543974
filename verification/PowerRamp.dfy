/** Transmit power ramping: instead of a hard switch the total output power walks to its
    target in steps, each one applied by the hardware and confirmed before the next. */
module PowerRamp {
  import opened Basics

  datatype Config = Config(stepSize: nat, maxInitial: int, nominal: int)

  /** Ramp state in mdB(m).  Beyond the fields of the program: out is the total power last
      requested from the hardware, log all of them, steps the steps taken since the last
      start or request, and completions the calls of the completion callback. */
  datatype Ramp = Ramp(tgt: int, cur: int, att: int, timer: bool, hasCb: bool,
                       out: int, steps: nat, log: seq<int>, completions: nat)

  /** The step timer runs out: the attenuated target becomes the requested power. */
  function Fire(r: Ramp): (s: Ramp) {
    var cur := r.tgt - r.att;
    r.(cur := cur, timer := false, out := cur, steps := 0, log := r.log + [cur])
  }

  /** The attenuation one step nearer to zero. */
  function Shrunk(att: int, up: bool, step: nat): (a: int) {
    if up then (if att - step <= 0 then 0 else att - step)
    else (if att + step >= 0 then 0 else att + step)
  }

  function DoStep(r: Ramp, cfg: Config, first: bool): (s: Ramp) {
    if !first && r.att == 0 then r.(completions := r.completions + (if r.hasCb then 1 else 0))
    else r.(att := Shrunk(r.att, r.tgt > r.cur, cfg.stepSize), timer := true, steps := r.steps + 1)
  }

  predicate Refused(cfg: Config, tgt: int, bypass: bool) {
    !bypass && tgt > cfg.nominal
  }

  /** The level the stepping starts from: what is on air, or one step below the level that
      may be switched on at once. */
  function Base(cfg: Config, cur: int, tgt: int): (b: int) {
    if tgt > cur && cur + cfg.stepSize < cfg.maxInitial then cfg.maxInitial - cfg.stepSize else cur
  }

  predicate Jumps(cfg: Config, cur: int, tgt: int, skip: bool) {
    skip || cur < tgt <= cfg.maxInitial
  }

  function Start(r: Ramp, cfg: Config, tgt: int, bypass: bool, hasCb: bool, skip: bool): (s: Ramp) {
    if Refused(cfg, tgt, bypass) then r
    else
      var n := r.(tgt := tgt, hasCb := hasCb, timer := false, steps := 0);
      if Jumps(cfg, r.cur, tgt, skip) then Fire(n.(cur := tgt, att := 0))
      else
        var base := Base(cfg, r.cur, tgt);
        DoStep(n.(cur := base, att := tgt - base), cfg, true)
  }

  /** Unless bypassed, a start above nominal power changes nothing; any other one sets the
      target, and jumps there if told to or if that may be done at once. */
  lemma StartDecides(r: Ramp, cfg: Config, tgt: int, bypass: bool, hasCb: bool, skip: bool)
    ensures var s := Start(r, cfg, tgt, bypass, hasCb, skip);
            && (!bypass && tgt > cfg.nominal ==> s == r)
            && (bypass || tgt <= cfg.nominal ==>
                  && s.tgt == tgt && s.hasCb == hasCb && s.completions == r.completions
                  && (skip || r.cur < tgt <= cfg.maxInitial ==>
                        s.cur == tgt && s.att == 0 && !s.timer && s.log == r.log + [tgt])
                  && (!skip && (tgt <= r.cur || tgt > cfg.maxInitial) ==> s.timer && s.log == r.log))
  {
  }

  class PowerRamper {
    const cfg: Config
    var tgt: int
    var cur: int
    var att: int
    var timer: bool
    var hasCb: bool
    ghost var out: int
    ghost var steps: nat
    var log: seq<int>
    var completions: nat

    ghost function State(): Ramp
      reads this
    {
      Ramp(tgt, cur, att, timer, hasCb, out, steps, log, completions)
    }

    method TimerCb()
      modifies this
      ensures State() == Fire(old(State()))
    {
      timer := false;
      cur := tgt - att;
      out, steps := cur, 0;
      log := log + [cur];
    }

    method RampDoStep(first: bool)
      modifies this
      ensures State() == DoStep(old(State()), cfg, first)
    {
      if !first && att == 0 {
        if hasCb { completions := completions + 1; }
        return;
      }
      if tgt > cur {
        att := att - cfg.stepSize;
        if att <= 0 { att := 0; }
      } else {
        att := att + cfg.stepSize;
        if att >= 0 { att := 0; }
      }
      timer := true;
      steps := steps + 1;
    }

    /** The hardware confirms the last change. */
    method ChangeCompl()
      modifies this
      ensures State() == DoStep(old(State()), cfg, false)
    {
      RampDoStep(false);
    }

    method RampStart(target: int, bypass: bool, callback: bool, skip: bool) returns (ok: bool)
      modifies this
      ensures ok <==> bypass || target <= cfg.nominal
      ensures !ok ==> State() == old(State())
      ensures State() == Start(old(State()), cfg, target, bypass, callback, skip)
    {
      if !bypass && target > cfg.nominal { return false; }
      timer, steps := false, 0;
      tgt := target;
      hasCb := callback;
      if skip {
        cur := tgt;
        att := 0;
        TimerCb();
      } else if tgt > cur {
        if tgt <= cfg.maxInitial {
          cur := tgt;
          att := 0;
          TimerCb();
        } else {
          if cur + cfg.stepSize < cfg.maxInitial {
            cur := cfg.maxInitial - cfg.stepSize;
          }
          att := tgt - cur;
          RampDoStep(true);
        }
      } else {
        att := tgt - cur;
        RampDoStep(true);
      }
      return true;
    }
  }

  // ----- Any interleaving ---------------------------------------------------------------

  datatype Event = StartReq(tgt: int, bypass: bool, hasCb: bool, skip: bool) | Timer | Confirm

  /** The timer runs out only while it is pending; confirms come whenever they like. */
  function After(r: Ramp, cfg: Config, e: Event): (s: Ramp) {
    match e
    case StartReq(tgt, bypass, hasCb, skip) => Start(r, cfg, tgt, bypass, hasCb, skip)
    case Timer => if r.timer then Fire(r) else r
    case Confirm => DoStep(r, cfg, false)
  }

  function Run(r: Ramp, cfg: Config, es: seq<Event>): (s: Ramp) {
    if es == [] then r else After(Run(r, cfg, es[..|es| - 1]), cfg, es[|es| - 1])
  }

  /** What is left of d after moving n towards zero. */
  function Left(d: int, n: nat): (l: int) {
    if Abs(d) <= n then 0 else if d > 0 then d - n else d + n
  }

  /** The attenuation is what the steps have left of the way from the current power to the
      target.  Without a timer the current power is on air; with one it may be the level of
      a shortcut that has not been requested yet. */
  predicate Sound(r: Ramp, cfg: Config) {
    && r.att == Left(r.tgt - r.cur, r.steps * cfg.stepSize)
    && (r.timer <==> r.steps > 0)
    && (!r.timer ==> r.out == r.cur == r.tgt - r.att)
    && (r.out != r.cur ==> r.cur == cfg.maxInitial - cfg.stepSize > r.out)
  }

  /** Nothing going on at a power. */
  predicate AtRest(r: Ramp) {
    r.out == r.cur == r.tgt && r.att == 0 && !r.timer && r.steps == 0
  }

  lemma {:induction false} OneMore(d: int, n: nat, step: nat)
    ensures Left(Left(d, n * step), step) == Left(d, (n + 1) * step)
    ensures d != 0 && Left(d, n * step) != 0 ==> (d > 0 <==> Left(d, n * step) > 0)
  {
    assert (n + 1) * step == n * step + step && n * step >= 0;
  }

  lemma {:induction false} StepIsSound(r: Ramp, cfg: Config, first: bool)
    requires r.att == Left(r.tgt - r.cur, r.steps * cfg.stepSize)
    requires first || r.att != 0
    ensures var s := DoStep(r, cfg, first);
            s.att == Left(s.tgt - s.cur, s.steps * cfg.stepSize) && s.timer && s.steps > 0
  {
    OneMore(r.tgt - r.cur, r.steps, cfg.stepSize);
  }

  lemma {:induction false} StaysSound(r: Ramp, cfg: Config, e: Event)
    requires Sound(r, cfg)
    ensures Sound(After(r, cfg, e), cfg)
  {
    match e
    case StartReq(tgt, bypass, hasCb, skip) =>
      if !Refused(cfg, tgt, bypass) && !Jumps(cfg, r.cur, tgt, skip) {
        var base := Base(cfg, r.cur, tgt);
        assert 0 * cfg.stepSize == 0;
        StepIsSound(r.(tgt := tgt, hasCb := hasCb, timer := false, steps := 0, cur := base, att := tgt - base), cfg, true);
      } else {
        assert 0 * cfg.stepSize == 0;
      }
    case Timer =>
      assert 0 * cfg.stepSize == 0;
    case Confirm =>
      if r.att != 0 { StepIsSound(r, cfg, false); }
  }

  lemma {:induction false} RunIsSound(r: Ramp, cfg: Config, es: seq<Event>)
    requires Sound(r, cfg)
    ensures Sound(Run(r, cfg, es), cfg)
  {
    hide Sound, After;
    if es != [] {
      RunIsSound(r, cfg, es[..|es| - 1]);
      StaysSound(Run(r, cfg, es[..|es| - 1]), cfg, es[|es| - 1]);
    }
  }

  lemma AtRestIsSound(r: Ramp, cfg: Config)
    requires AtRest(r)
    ensures Sound(r, cfg)
  {
    assert 0 * cfg.stepSize == 0;
  }

  // ----- How far a request goes -----------------------------------------------------------

  /** However starts, timeouts and confirms are interleaved, the timer moves the current
      power by as many steps as were taken since the last start or request, or all the way;
      so by no more than one step exactly if one was taken, or one covers the rest. */
  lemma {:induction false} RequestSize(r: Ramp, cfg: Config, es: seq<Event>)
    requires AtRest(r) && Run(r, cfg, es).timer
    ensures var b := Run(r, cfg, es);
            var moved := Abs(Fire(b).cur - b.cur);
            && b.steps >= 1 && Between(b.cur, Fire(b).cur, b.tgt)
            && moved == (if b.steps * cfg.stepSize <= Abs(b.tgt - b.cur) then b.steps * cfg.stepSize else Abs(b.tgt - b.cur))
            && (moved <= cfg.stepSize <==> b.steps == 1 || Abs(b.tgt - b.cur) <= cfg.stepSize || cfg.stepSize == 0)
  {
    hide Run;
    AtRestIsSound(r, cfg);
    RunIsSound(r, cfg, es);
    Multiple(Run(r, cfg, es).steps, cfg.stepSize);
  }

  lemma Multiple(k: nat, s: nat)
    ensures k >= 1 ==> k * s >= s
    ensures k >= 2 && s > 0 ==> k * s > s
    ensures s == 0 ==> k * s == 0
  {
    if k >= 2 {
      assert k * s == (k - 2) * s + 2 * s && (k - 2) * s >= 0;
    }
  }

  /** The request that the timer would make is wider than one step. */
  predicate TooWide(r: Ramp, cfg: Config) {
    r.timer && Abs(Fire(r).cur - r.cur) > cfg.stepSize
  }

  /** A confirm that comes while a step is waiting for the timer and more than one is left. */
  predicate OutOfTurn(r: Ramp, cfg: Config, e: Event) {
    e.Confirm? && r.timer && Abs(r.tgt - r.cur) > cfg.stepSize
  }

  /** Wherever in the run the timer runs out, it moves the power by one step at most. */
  predicate StepwiseThroughout(r: Ramp, cfg: Config, es: seq<Event>) {
    (es == [] || StepwiseThroughout(r, cfg, es[..|es| - 1])) && !TooWide(Run(r, cfg, es), cfg)
  }

  predicate AllInTurn(r: Ramp, cfg: Config, es: seq<Event>) {
    es == [] || (AllInTurn(r, cfg, es[..|es| - 1]) && !OutOfTurn(Run(r, cfg, es[..|es| - 1]), cfg, es[|es| - 1]))
  }

  lemma {:induction false} OnlyOutOfTurnIsTooWide(r: Ramp, cfg: Config, e: Event)
    requires Sound(r, cfg) && cfg.stepSize > 0 && !TooWide(r, cfg)
    ensures TooWide(After(r, cfg, e), cfg) <==> OutOfTurn(r, cfg, e)
  {
    var s := After(r, cfg, e);
    StaysSound(r, cfg, e);
    Multiple(r.steps, cfg.stepSize);
    Multiple(s.steps, cfg.stepSize);
  }

  /** Over any interleaving: the power moves by one step at a time, wherever the timer runs
      out, if and only if no confirm comes while another step is waiting for the timer with
      more than one step to go. */
  lemma {:induction false} StepwiseExactlyWhen(r: Ramp, cfg: Config, es: seq<Event>)
    requires AtRest(r) && cfg.stepSize > 0
    ensures StepwiseThroughout(r, cfg, es) <==> AllInTurn(r, cfg, es)
  {
    hide TooWide, OutOfTurn, Sound, After;
    if es != [] {
      var before := es[..|es| - 1];
      StepwiseExactlyWhen(r, cfg, before);
      AtRestIsSound(r, cfg);
      RunIsSound(r, cfg, before);
      hide AtRest;
      if StepwiseThroughout(r, cfg, before) {
        assert !TooWide(Run(r, cfg, before), cfg);
        OnlyOutOfTurnIsTooWide(Run(r, cfg, before), cfg, es[|es| - 1]);
      }
    } else {
      RestIsNotTooWide(r, cfg);
    }
  }

  lemma RestIsNotTooWide(r: Ramp, cfg: Config)
    requires AtRest(r)
    ensures !TooWide(r, cfg)
  {
  }

  /** Such a run: a confirm left over from an earlier ramp, and 2 is requested at once. */
  lemma StaleConfirmDoublesTheStep()
    ensures var cfg := Config(1, 0, 10);
            var r := Ramp(0, 0, 0, false, true, 0, 0, [0], 0);
            Run(r, cfg, [StartReq(10, false, true, false), Confirm, Timer]).log == [0, 2]
  {
    var cfg := Config(1, 0, 10);
    var r := Ramp(0, 0, 0, false, true, 0, 0, [0], 0);
    var es := [StartReq(10, false, true, false), Confirm, Timer];
    assert es[..2][..1] == es[..1] && es[..1][..0] == [];
    assert Run(r, cfg, es[..0]) == r;
    assert Run(r, cfg, es[..1]) == Ramp(10, 0, 9, true, true, 0, 1, [0], 0);
    assert Run(r, cfg, es[..2]) == Ramp(10, 0, 8, true, true, 0, 2, [0], 0);
  }

  // ----- Overshooting -----------------------------------------------------------------------

  /** A request that lies outside what is between the last one and the target. */
  predicate Overshoots(before: Ramp, after: Ramp) {
    |after.log| > |before.log| && !Between(before.out, after.out, after.tgt)
  }

  predicate TimerOvershoots(r: Ramp) {
    r.timer && Overshoots(r, Fire(r))
  }

  /** Whatever has happened, the timer makes the power overshoot exactly if a shortcut was
      never requested and both the power on air and the target lie below the level that the
      steps have reached from it; a start that requests something requests its target. */
  lemma {:induction false} TimerOvershootsExactlyWhen(r: Ramp, cfg: Config, es: seq<Event>, e: Event)
    requires AtRest(r)
    ensures var b := Run(r, cfg, es);
            var reached := b.cur - b.steps * cfg.stepSize;
            && (TimerOvershoots(b) <==> b.timer && b.out < reached && b.tgt < reached)
            && (b.out != b.cur ==> b.cur == cfg.maxInitial - cfg.stepSize > b.out)
            && (!e.Timer? ==> !Overshoots(b, After(b, cfg, e)))
  {
    AtRestIsSound(r, cfg);
    RunIsSound(r, cfg, es);
    assert Run(r, cfg, es).steps * cfg.stepSize >= 0;
    hide Run;
  }

  /** A start that turns a ramp around before its shortcut was requested. */
  predicate TurnsAround(r: Ramp, cfg: Config, e: Event) {
    && e.StartReq? && !Refused(cfg, e.tgt, e.bypass) && !e.skip
    && r.out < r.cur - cfg.stepSize && e.tgt < r.cur - cfg.stepSize
  }

  /** Wherever in the run the timer runs out, it does not overshoot. */
  predicate SafeThroughout(r: Ramp, cfg: Config, es: seq<Event>) {
    (es == [] || SafeThroughout(r, cfg, es[..|es| - 1])) && !TimerOvershoots(Run(r, cfg, es))
  }

  predicate NoneTurnsAround(r: Ramp, cfg: Config, es: seq<Event>) {
    es == [] || (NoneTurnsAround(r, cfg, es[..|es| - 1]) && !TurnsAround(Run(r, cfg, es[..|es| - 1]), cfg, es[|es| - 1]))
  }

  /** Going down from a shortcut that was never requested. */
  predicate Turned(r: Ramp, cfg: Config) {
    r.timer && r.out < r.cur - cfg.stepSize && r.tgt < r.cur - cfg.stepSize
  }

  lemma {:induction false} OnlyTurningOvershoots(r: Ramp, cfg: Config, e: Event)
    requires Sound(r, cfg) && !Turned(r, cfg)
    ensures var s := After(r, cfg, e);
            && (Turned(s, cfg) <==> TurnsAround(r, cfg, e))
            && (TimerOvershoots(s) <==> TurnsAround(r, cfg, e))
  {
    var s := After(r, cfg, e);
    StaysSound(r, cfg, e);
    Multiple(s.steps, cfg.stepSize);
    if TurnsAround(r, cfg, e) { assert s.steps == 1; }
  }

  lemma {:induction false} NeverTurned(r: Ramp, cfg: Config, es: seq<Event>)
    requires AtRest(r) && NoneTurnsAround(r, cfg, es)
    ensures !Turned(Run(r, cfg, es), cfg)
  {
    hide Turned, TurnsAround, Sound, After;
    if es == [] {
      RestIsNotTurned(r, cfg);
    } else {
      var before := es[..|es| - 1];
      NeverTurned(r, cfg, before);
      AtRestIsSound(r, cfg);
      RunIsSound(r, cfg, before);
      OnlyTurningOvershoots(Run(r, cfg, before), cfg, es[|es| - 1]);
    }
  }

  lemma RestIsNotTurned(r: Ramp, cfg: Config)
    requires AtRest(r)
    ensures !Turned(r, cfg) && !TimerOvershoots(r)
  {
  }

  /** Over any interleaving of starts, timeouts and confirms, late ones included: every
      requested power lies between the one requested before and the target, wherever the
      timer runs out, if and only if no start turns around a ramp whose shortcut was not
      requested yet, to a target more than one step below it. */
  lemma {:induction false} NeverOvershootsExactlyWhen(r: Ramp, cfg: Config, es: seq<Event>)
    requires AtRest(r)
    ensures SafeThroughout(r, cfg, es) <==> NoneTurnsAround(r, cfg, es)
  {
    hide TimerOvershoots, TurnsAround, Turned, Sound, After;
    if es == [] {
      RestIsNotTurned(r, cfg);
    } else {
      var before := es[..|es| - 1];
      NeverOvershootsExactlyWhen(r, cfg, before);
      if NoneTurnsAround(r, cfg, before) {
        NeverTurned(r, cfg, before);
        AtRestIsSound(r, cfg);
        RunIsSound(r, cfg, before);
        OnlyTurningOvershoots(Run(r, cfg, before), cfg, es[|es| - 1]);
      }
    }
  }

  /** Such a run: 8 is requested on the way from 0 to 5. */
  lemma ShortcutOvershoots()
    ensures var cfg := Config(1, 10, 30);
            var r := Ramp(0, 0, 0, false, true, 0, 0, [0], 0);
            var s := Run(r, cfg, [StartReq(20, false, true, false), StartReq(5, false, true, false), Timer]);
            s.log == [0, 8] && s.tgt == 5
  {
    var cfg := Config(1, 10, 30);
    var r := Ramp(0, 0, 0, false, true, 0, 0, [0], 0);
    var es := [StartReq(20, false, true, false), StartReq(5, false, true, false), Timer];
    assert es[..2][..1] == es[..1] && es[..1][..0] == [];
    assert Run(r, cfg, es[..0]) == r;
    assert Run(r, cfg, es[..1]) == Ramp(20, 9, 10, true, true, 0, 1, [0], 0);
    assert Run(r, cfg, es[..2]) == Ramp(5, 9, -3, true, true, 0, 1, [0], 0);
  }

  // ----- One ramp, each change confirmed once ---------------------------------------------

  /** The powers requested on the way from cur to tgt. */
  function Staircase(cur: int, tgt: int, step: nat): (r: seq<int>)
    requires step > 0
    decreases Abs(tgt - cur)
  {
    if Abs(tgt - cur) <= step then [tgt]
    else
      var next := if tgt > cur then cur + step else cur - step;
      [next] + Staircase(next, tgt, step)
  }

  /** Timer running, attenuation already stepped. */
  predicate Stepping(r: Ramp, cfg: Config) {
    cfg.stepSize > 0 && r.timer && r.att == Shrunk(r.tgt - r.cur, r.tgt > r.cur, cfg.stepSize)
  }

  /** Timeout, confirm, timeout, confirm, until nothing is left to do. */
  function Lockstep(r: Ramp, cfg: Config): (s: Ramp)
    requires Stepping(r, cfg)
    decreases Abs(r.tgt - r.cur)
  {
    var c := DoStep(Fire(r), cfg, false);
    if c.timer then Lockstep(c, cfg) else c
  }

  lemma {:induction false} LockstepIsStaircase(r: Ramp, cfg: Config)
    requires Stepping(r, cfg)
    ensures var s := Lockstep(r, cfg);
            && s.log == r.log + Staircase(r.cur, r.tgt, cfg.stepSize)
            && s.cur == s.tgt == r.tgt && s.att == 0 && !s.timer
            && s.completions == r.completions + (if r.hasCb then 1 else 0)
    decreases Abs(r.tgt - r.cur)
  {
    var c := DoStep(Fire(r), cfg, false);
    if c.timer {
      LockstepIsStaircase(c, cfg);
    }
  }

  /** A start request, driven to its end by one confirm for every change. */
  function Driven(r: Ramp, cfg: Config, tgt: int, bypass: bool, hasCb: bool, skip: bool): (s: Ramp)
    requires cfg.stepSize > 0 && !Refused(cfg, tgt, bypass)
  {
    var n := Start(r, cfg, tgt, bypass, hasCb, skip);
    if n.timer then Lockstep(n, cfg) else DoStep(n, cfg, false)
  }

  /** A ramp requests the staircase from its base to the target, ends there with no
      attenuation left, and reports completion exactly once. */
  lemma {:induction false} RampReachesTarget(r: Ramp, cfg: Config, tgt: int, bypass: bool, hasCb: bool, skip: bool)
    requires cfg.stepSize > 0 && !Refused(cfg, tgt, bypass)
    ensures var s := Driven(r, cfg, tgt, bypass, hasCb, skip);
            && s.log == r.log + (if Jumps(cfg, r.cur, tgt, skip) then [tgt]
                                 else Staircase(Base(cfg, r.cur, tgt), tgt, cfg.stepSize))
            && s.cur == s.tgt == tgt && s.att == 0 && !s.timer
            && s.completions == r.completions + (if hasCb then 1 else 0)
  {
    var n := Start(r, cfg, tgt, bypass, hasCb, skip);
    if !Jumps(cfg, r.cur, tgt, skip) {
      LockstepIsStaircase(n, cfg);
    }
  }

  lemma OneFurther(k: int, step: nat)
    ensures (k + 1) * step == k * step + step
  {
  }

  /** A staircase runs monotonically to its target in steps of full size, the last one
      possibly smaller, and has as many of them as it takes to cover the distance. */
  lemma {:induction false} StaircaseShape(cur: int, tgt: int, step: nat)
    requires step > 0
    ensures var w := Staircase(cur, tgt, step);
            && w != [] && w[|w| - 1] == tgt
            && (cur == tgt || (|w| - 1) * step < Abs(tgt - cur)) && Abs(tgt - cur) <= |w| * step
    ensures Walks(cur, Staircase(cur, tgt, step), tgt, step)
    decreases Abs(tgt - cur)
  {
    var w := Staircase(cur, tgt, step);
    if Abs(tgt - cur) > step {
      var next := if tgt > cur then cur + step else cur - step;
      StaircaseShape(next, tgt, step);
      var t := Staircase(next, tgt, step);
      assert w == [next] + t;
      OneFurther(|t| - 1, step);
      OneFurther(|t|, step);
      assert forall i :: 1 <= i < |w| ==> w[i] == t[i - 1];
    }
  }

  predicate Walks(from: int, w: seq<int>, tgt: int, step: nat) {
    && (w != [] ==> OneStep(from, w[0], tgt, step))
    && forall i :: 1 <= i < |w| ==> OneStep(w[i - 1], w[i], tgt, step)
  }

  /** Towards the target, not past it, by at most one step. */
  predicate OneStep(from: int, to: int, tgt: int, step: nat) {
    Between(from, to, tgt) && Abs(to - from) <= step
  }

  // ----- Completion --------------------------------------------------------------------------

  function Confirms(es: seq<Event>): (n: nat) {
    if es == [] then 0 else Confirms(es[..|es| - 1]) + (if es[|es| - 1].Confirm? then 1 else 0)
  }

  /** The powers that a start takes to its target if every change is confirmed once. */
  function Requests(r: Ramp, cfg: Config, e: Event): (w: seq<int>)
    requires e.StartReq? && cfg.stepSize > 0
    ensures |w| >= 1
  {
    if Jumps(cfg, r.cur, e.tgt, e.skip) then [e.tgt]
    else
      StaircaseShape(Base(cfg, r.cur, e.tgt), e.tgt, cfg.stepSize);
      Staircase(Base(cfg, r.cur, e.tgt), e.tgt, cfg.stepSize)
  }

  /** How often completion is reported for a start with that many changes. */
  function Reports(hasCb: bool, confirms: nat, changes: nat): (n: nat) {
    if hasCb && confirms >= changes then confirms - changes + 1 else 0
  }

  /** What the start left to do, and what the confirms since have left of it. */
  function ToGo(r: Ramp, cfg: Config, e: Event, confirms: nat): (d: int)
    requires e.StartReq?
  {
    if Jumps(cfg, r.cur, e.tgt, e.skip) then 0
    else Left(e.tgt - Base(cfg, r.cur, e.tgt), (confirms + 1) * cfg.stepSize)
  }

  lemma {:induction false} NothingToGo(r: Ramp, cfg: Config, e: Event, confirms: nat)
    requires e.StartReq? && cfg.stepSize > 0
    ensures ToGo(r, cfg, e, confirms) == 0 <==> confirms + 1 >= |Requests(r, cfg, e)|
  {
    if !Jumps(cfg, r.cur, e.tgt, e.skip) {
      var base := Base(cfg, r.cur, e.tgt);
      var w := Staircase(base, e.tgt, cfg.stepSize);
      StaircaseShape(base, e.tgt, cfg.stepSize);
      assert base == e.tgt ==> |w| == 1;
      hide Base, Jumps, Staircase, Walks;
      Multiple(confirms + 1, cfg.stepSize);
      if base != e.tgt { Covering(Abs(e.tgt - base), |w|, confirms + 1, cfg.stepSize); }
    }
  }

  lemma Covering(d: nat, k: nat, n: nat, step: nat)
    requires (k - 1) * step < d <= k * step
    ensures d <= n * step <==> n >= k
  {
    if n >= k { MoreSteps(k, n, step); } else { MoreSteps(n, k - 1, step); }
  }

  lemma MoreSteps(m: nat, n: nat, step: nat)
    requires m <= n
    ensures m * step <= n * step
  {
    assert (n - m) * step >= 0;
  }

  lemma {:induction false} OneEvent(b: Ramp, cfg: Config, ev: Event)
    requires Sound(b, cfg) && !ev.StartReq?
    ensures var s := After(b, cfg, ev);
            && s.hasCb == b.hasCb && s.tgt == b.tgt
            && s.att == (if ev.Confirm? then Left(b.att, cfg.stepSize) else b.att)
            && s.completions == b.completions + (if ev.Confirm? && b.att == 0 && b.hasCb then 1 else 0)
  {
    assert b.steps * cfg.stepSize >= 0;
  }

  lemma {:induction false} StartToGo(r: Ramp, cfg: Config, e: Event)
    requires Sound(r, cfg) && e.StartReq? && !Refused(cfg, e.tgt, e.bypass)
    ensures var n := After(r, cfg, e);
            && n.hasCb == e.hasCb && n.tgt == e.tgt && n.completions == r.completions
            && n.att == ToGo(r, cfg, e, 0)
  {
    assert 1 * cfg.stepSize == cfg.stepSize;
  }

  lemma {:induction false} ToGoNext(r: Ramp, cfg: Config, e: Event, confirms: nat)
    requires e.StartReq?
    ensures ToGo(r, cfg, e, confirms + 1) == Left(ToGo(r, cfg, e, confirms), cfg.stepSize)
  {
    OneMore(e.tgt - Base(cfg, r.cur, e.tgt), confirms + 1, cfg.stepSize);
    assert Left(0, cfg.stepSize) == 0;
    hide Left, Base;
  }

  lemma {:induction false} ConfirmsAreSteps(r: Ramp, cfg: Config, e: Event, es: seq<Event>)
    requires Sound(r, cfg) && cfg.stepSize > 0 && e.StartReq? && !Refused(cfg, e.tgt, e.bypass)
    requires forall i :: 0 <= i < |es| ==> !es[i].StartReq?
    ensures var s := Run(After(r, cfg, e), cfg, es);
            && Sound(s, cfg) && s.hasCb == e.hasCb && s.tgt == e.tgt
            && s.att == ToGo(r, cfg, e, Confirms(es))
            && s.completions == r.completions + Reports(e.hasCb, Confirms(es), |Requests(r, cfg, e)|)
  {
    hide Requests, Sound, ToGo, After, Refused;
    var n := After(r, cfg, e);
    if es == [] {
      StaysSound(r, cfg, e);
      StartToGo(r, cfg, e);
    } else {
      var before := es[..|es| - 1];
      ConfirmsAreSteps(r, cfg, e, before);
      var b := Run(n, cfg, before);
      StaysSound(b, cfg, es[|es| - 1]);
      OneEvent(b, cfg, es[|es| - 1]);
      NothingToGo(r, cfg, e, Confirms(before));
      ToGoNext(r, cfg, e, Confirms(before));
      hide Left;
    }
  }

  /** However timeouts and confirms are interleaved after a start, with confirms left over
      from earlier ramps among them: completion is reported exactly once if and only if
      there are exactly as many confirms as the ramp has changes. */
  lemma {:induction false} CompletesOnceExactlyWhen(r: Ramp, cfg: Config, es: seq<Event>, e: Event, more: seq<Event>)
    requires AtRest(r) && cfg.stepSize > 0 && e.StartReq? && !Refused(cfg, e.tgt, e.bypass)
    requires forall i :: 0 <= i < |more| ==> !more[i].StartReq?
    ensures var b := Run(r, cfg, es);
            var s := Run(After(b, cfg, e), cfg, more);
            && s.completions == b.completions + Reports(e.hasCb, Confirms(more), |Requests(b, cfg, e)|)
            && (s.completions == b.completions + 1 <==> e.hasCb && Confirms(more) == |Requests(b, cfg, e)|)
  {
    AtRestIsSound(r, cfg);
    RunIsSound(r, cfg, es);
    ConfirmsAreSteps(Run(r, cfg, es), cfg, e, more);
    hide *;
    assert Reports(e.hasCb, Confirms(more), |Requests(Run(r, cfg, es), cfg, e)|) == 1
      <==> e.hasCb && Confirms(more) == |Requests(Run(r, cfg, es), cfg, e)| by {
      OneReport(e.hasCb, Confirms(more), |Requests(Run(r, cfg, es), cfg, e)|);
    }
  }

  lemma OneReport(hasCb: bool, confirms: nat, changes: nat)
    ensures Reports(hasCb, confirms, changes) == 1 <==> hasCb && confirms == changes
  {
  }
}
