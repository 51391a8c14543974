/** Uplink side of the TDMA scheduler: reconstruction of lost bursts.

    Bursts arrive with gaps.  For a dedicated channel the scheduler walks the
    cyclic multiframe table from the last processed frame to the current one and
    hands a dummy burst to the channel handler for every skipped frame of that
    channel, before it delivers the received one. */
module UplinkScheduler {
  import opened Basics
  import opened Tdma

  /** uint8_t as the type of a counter, which must not run out of its range. */
  newtype Counter = x: int | 0 <= x < 256

  const UINT32_RANGE: int := 0x1_0000_0000

  datatype ChanType = Idle | Rach | Pdtch | Ptcch | DownlinkOnly | Dedicated(index: nat)

  /** One entry of the multiframe table, uplink half. */
  datatype Frame = Frame(ulChan: ChanType, ulBid: Octet)

  datatype ChanState = ChanState(active: bool, hoRachDetect: bool,
                                 lastFn: Fn, procFs: nat, lostFs: nat)

  /** A burst as a channel handler sees it. */
  datatype Burst = Burst(fn: Fn, chan: ChanType, bid: Octet, substituted: bool)

  /** A multiframe table that uint8_t mf_period can describe. */
  predicate IsTable(frames: seq<Frame>) {
    1 <= |frames| <= 255
  }

  /** fn % period, computed by taking whole periods away. */
  function Offset(fn: nat, period: nat): (r: nat)
    requires period > 0
    ensures r < period
  {
    if fn < period then fn else Offset(fn - period, period)
  }

  /** Offset is the C remainder. */
  lemma {:induction false} OffsetIsRemainder(fn: nat, period: nat)
    requires period > 0
    ensures Offset(fn, period) == fn % period
  {
    if fn >= period {
      OffsetIsRemainder(fn - period, period);
      ModPlusMultiple(fn - period, 1, period);
    } else {
      DivModUnique(fn, 0, fn, period);
    }
  }

  function At(frames: seq<Frame>, fn: Fn): Frame
    requires IsTable(frames)
  {
    frames[Offset(fn, |frames|)]
  }

  lemma AtIsModulo(frames: seq<Frame>, fn: Fn)
    requires IsTable(frames)
    ensures 0 <= fn % |frames| < |frames| && At(frames, fn) == frames[fn % |frames|]
  {
    OffsetIsRemainder(fn, |frames|);
  }

  /** Channels without an uplink handler: idle and downlink-only ones. */
  predicate HasHandler(chan: ChanType) {
    !chan.Idle? && !chan.DownlinkOnly?
  }

  predicate LossApplies(chan: ChanType, cs: ChanState) {
    && !(chan.Idle? || chan.Rach? || chan.Pdtch? || chan.Ptcch?)
    && !cs.hoRachDetect
  }

  /** Dummy bursts for the frames of chan among last+1 .. last+n. */
  function Window(frames: seq<Frame>, chan: ChanType, last: Fn, n: nat): (w: seq<Burst>)
    requires IsTable(frames)
  {
    if n == 0 then []
    else
      var fn := FnSum(last, n);
      var here := if At(frames, fn).ulChan == chan then [Burst(fn, chan, At(frames, fn).ulBid, true)] else [];
      Window(frames, chan, last, n - 1) + here
  }

  /** What one burst of an active channel with a handler makes the scheduler deliver. */
  function Deliveries(frames: seq<Frame>, cs: ChanState, chan: ChanType, fn: Fn): (bs: seq<Burst>)
    requires IsTable(frames)
  {
    var elapsed := FnSub(fn, cs.lastFn);
    var subs := if cs.procFs == 0 || !LossApplies(chan, cs) || elapsed > |frames| || elapsed == 0 then []
                else Window(frames, chan, cs.lastFn, elapsed - 1);
    subs + [Burst(fn, chan, At(frames, fn).ulBid, false)]
  }

  function Processed(cs: ChanState, fn: Fn): ChanState {
    cs.(lastFn := fn, procFs := (cs.procFs + 1) % UINT32_RANGE)
  }

  /** A timeslot: its table, its channel states, and everything its handlers got so far. */
  datatype TsState = TsState(frames: seq<Frame>, chans: map<ChanType, ChanState>, log: seq<Burst>) {
    predicate Valid() {
      && IsTable(frames)
      && (forall i :: 0 <= i < |frames| ==> frames[i].ulChan in chans)
      && (forall c :: c in chans ==> chans[c].lostFs == 0)
    }
  }

  /** One burst on the timeslot. */
  function Step(ts: TsState, fn: Fn): (r: TsState)
    requires ts.Valid()
    ensures r.Valid() && r.frames == ts.frames
  {
    var chan := At(ts.frames, fn).ulChan;
    var cs := ts.chans[chan];
    if !cs.active || !HasHandler(chan) then ts
    else ts.(chans := ts.chans[chan := Processed(cs, fn)],
             log := ts.log + Deliveries(ts.frames, cs, chan, fn))
  }

  function Run(ts: TsState, fns: seq<Fn>): (r: TsState)
    requires ts.Valid()
    ensures r.Valid() && r.frames == ts.frames
  {
    if fns == [] then ts else Step(Run(ts, fns[..|fns| - 1]), fns[|fns| - 1])
  }

  /** What one burst does: nothing on an inactive channel or one without a handler; otherwise
      it is delivered, and before it, on a dedicated channel that has had a burst and does not
      wait for a handover access burst, the dummies of a gap up to the period. */
  lemma {:induction false} BurstDelivers(ts: TsState, fn: Fn)
    requires ts.Valid()
    ensures 0 <= fn % |ts.frames| < |ts.frames|
    ensures var f, s := ts.frames[fn % |ts.frames|], Step(ts, fn);
            var cs := ts.chans[f.ulChan];
            var gap := (fn + HYPERFRAME - cs.lastFn) % HYPERFRAME;
            if !cs.active || f.ulChan.Idle? || f.ulChan.DownlinkOnly? then s == ts
            else
              && s.frames == ts.frames
              && s.chans == ts.chans[f.ulChan := ChanState(true, cs.hoRachDetect, fn, (cs.procFs + 1) % UINT32_RANGE, 0)]
              && s.log == ts.log
                          + (if f.ulChan.Dedicated? && !cs.hoRachDetect && cs.procFs != 0 && 1 <= gap <= |ts.frames|
                             then Window(ts.frames, f.ulChan, cs.lastFn, gap - 1) else [])
                          + [Burst(fn, f.ulChan, f.ulBid, false)]
  {
    AtIsModulo(ts.frames, fn);
    hide Offset, Window;
  }

  lemma {:induction false} NextInWindow(frames: seq<Frame>, chan: ChanType, last: Fn, n: nat)
    requires IsTable(frames) && n > 0
    ensures var f := At(frames, FnSum(last, n));
            Window(frames, chan, last, n) ==
              if f.ulChan == chan then Window(frames, chan, last, n - 1) + [Burst(FnSum(last, n), chan, f.ulBid, true)]
              else Window(frames, chan, last, n - 1)
  {
    hide At;
  }

  lemma {:induction false} WindowGrows(frames: seq<Frame>, chan: ChanType, last: Fn, m: nat, n: nat)
    requires IsTable(frames) && m <= n
    ensures |Window(frames, chan, last, m)| <= |Window(frames, chan, last, n)|
  {
    hide At;
    if m < n {
      WindowGrows(frames, chan, last, m, n - 1);
    }
  }

  class Timeslot {
    var mfIndex: nat                        // 0: no multiframe selected yet
    var mfFrames: seq<Frame>
    var chanState: map<ChanType, ChanState>
    var log: seq<Burst>                     // calls of the channel handlers, in order

    ghost function State(): TsState
      reads this
    {
      TsState(mfFrames, chanState, log)
    }

    /** First walk over the gap: counts the frames that belong to the channel. */
    method CountLost(chan: ChanType, elapsed: nat)
      requires IsTable(mfFrames) && chan in chanState && chanState[chan].lostFs == 0 && elapsed <= |mfFrames|
      modifies this`chanState
      ensures elapsed > 0 ==> chanState == old(chanState)[chan := old(chanState)[chan].(
                lostFs := |Window(mfFrames, chan, old(chanState)[chan].lastFn, elapsed - 1)|)]
      ensures elapsed == 0 ==> chanState == old(chanState)
    {
      hide At, FnSum, FnSub;
      var last := chanState[chan].lastFn;
      var i: Counter := 1;
      while i as int < elapsed
        invariant 1 <= i as int && (i as int <= elapsed || i == 1)
        invariant chanState == old(chanState)[chan := old(chanState)[chan].(
                    lostFs := |Window(mfFrames, chan, last, i as int - 1)|)]
      {
        if At(mfFrames, FnSum(last, i as int)).ulChan == chan {
          chanState := chanState[chan := chanState[chan].(lostFs := chanState[chan].lostFs + 1)];
        }
        i := i + 1;
      }
    }

    /** Hands one dummy burst to the handler. */
    method Substitute(chan: ChanType, fn: Fn, bid: Octet)
      requires chan in chanState && chanState[chan].lostFs > 0
      modifies this`chanState, this`log
      ensures log == old(log) + [Burst(fn, chan, bid, true)]
      ensures chanState == old(chanState)[chan := old(chanState)[chan].(lostFs := old(chanState)[chan].lostFs - 1)]
    {
      log := log + [Burst(fn, chan, bid, true)];
      chanState := chanState[chan := chanState[chan].(lostFs := chanState[chan].lostFs - 1)];
    }

    /** Second walk: hands a dummy burst to the handler for each counted frame. */
    method SubstituteLost(chan: ChanType, elapsed: nat)
      requires IsTable(mfFrames) && chan in chanState && 0 < elapsed <= |mfFrames|
      requires chanState[chan].lostFs == |Window(mfFrames, chan, chanState[chan].lastFn, elapsed - 1)|
      modifies this`chanState, this`log
      ensures log == old(log) + Window(mfFrames, chan, old(chanState)[chan].lastFn, elapsed - 1)
      ensures chanState == old(chanState)[chan := old(chanState)[chan].(lostFs := 0)]
    {
      hide At, FnSum, FnSub;
      var last := chanState[chan].lastFn;
      ghost var all := chanState[chan].lostFs;
      ghost var w := Window(mfFrames, chan, last, 0);
      assert w == [];
      var i: Counter := 1;
      while i as int < elapsed
        invariant 1 <= i as int <= elapsed
        invariant w == Window(mfFrames, chan, last, i as int - 1) && |w| <= all
        invariant log == old(log) + w
        invariant chanState == old(chanState)[chan := old(chanState)[chan].(lostFs := all - |w|)]
      {
        hide Window;
        NextInWindow(mfFrames, chan, last, i as int);
        WindowGrows(mfFrames, chan, last, i as int, elapsed - 1);
        var fnI := FnSum(last, i as int);
        var frame := At(mfFrames, fnI);
        if frame.ulChan == chan {
          w := w + [Burst(fnI, chan, frame.ulBid, true)];
          Substitute(chan, fnI, frame.ulBid);
        }
        i := i + 1;
      }
    }

    /** Substitutes what was lost since the last burst of this channel. */
    method CalcFrameLoss(chan: ChanType, fn: Fn) returns (ok: bool)
      requires State().Valid() && chan in chanState && chanState[chan].active
      modifies this`chanState, this`log
      ensures chanState == old(chanState)
      ensures log + [Burst(fn, chan, At(mfFrames, fn).ulBid, false)]
           == old(log) + Deliveries(mfFrames, chanState[chan], chan, fn)
      ensures ok <==> chanState[chan].procFs == 0 || !LossApplies(chan, chanState[chan])
                      || FnSub(fn, chanState[chan].lastFn) <= |mfFrames|
    {
      hide At, FnSum, FnSub;
      var cs := chanState[chan];
      if cs.procFs == 0 { return true; }
      if !LossApplies(chan, cs) { return true; }
      var elapsed := FnSub(fn, cs.lastFn);
      if elapsed > |mfFrames| { return false; }
      CountLost(chan, elapsed);
      if chanState[chan].lostFs > 0 {
        SubstituteLost(chan, elapsed);
      }
      assert old(chanState)[chan := cs] == old(chanState);
      return true;
    }

    /** Processes one uplink burst indication. */
    method UlBurst(fn: Fn) returns (ok: bool)
      requires State().Valid()
      modifies this`chanState, this`log
      ensures mfIndex == 0 ==> !ok && State() == old(State())
      ensures mfIndex != 0 ==> State() == Step(old(State()), fn)
      ensures 0 <= fn % |mfFrames| < |mfFrames| && mfFrames == old(mfFrames)
      ensures var f := mfFrames[fn % |mfFrames|];
              var cs := old(chanState)[f.ulChan];
              var gap := (fn + HYPERFRAME - cs.lastFn) % HYPERFRAME;
              && (mfIndex != 0 && cs.active && f.ulChan.Dedicated? && !cs.hoRachDetect && cs.procFs != 0
                  && 1 <= gap <= |mfFrames| ==>
                    Slots(log) == Slots(old(log)) + Slots(Window(mfFrames, f.ulChan, cs.lastFn, gap)))
              && (mfIndex != 0 && cs.active
                  && (f.ulChan.Rach? || f.ulChan.Pdtch? || f.ulChan.Ptcch? || f.ulChan.Dedicated?)
                  && (!f.ulChan.Dedicated? || cs.hoRachDetect || cs.procFs == 0 || gap == 0 || gap > |mfFrames|) ==>
                    log == old(log) + [Burst(fn, f.ulChan, f.ulBid, false)])
              && (mfIndex != 0 && (!cs.active || f.ulChan.Idle? || f.ulChan.DownlinkOnly?) ==>
                    log == old(log) && chanState == old(chanState))
    {
      hide Step, Window, Slots, Offset;
      BurstDelivers(State(), fn);
      BurstFillsGap(State(), fn);
      if mfIndex == 0 { return false; }
      ok := FromTable(fn);
    }

    /** The part of UlBurst for a timeslot with a multiframe. */
    method FromTable(fn: Fn) returns (ok: bool)
      requires State().Valid()
      modifies this`chanState, this`log
      ensures State() == Step(old(State()), fn)
    {
      var chan := At(mfFrames, fn).ulChan;
      if !chanState[chan].active { return true; }
      if !HasHandler(chan) { return false; }
      var found := CalcFrameLoss(chan, fn);
      chanState := chanState[chan := Processed(chanState[chan], fn)];
      log := log + [Burst(fn, chan, At(mfFrames, fn).ulBid, false)];
      return true;
    }
  }

  // ----- One channel on its own ---------------------------------------------------

  /** Bursts of the log that belong to chan, in order. */
  function OfChan(log: seq<Burst>, chan: ChanType): (r: seq<Burst>) {
    if log == [] then []
    else OfChan(log[..|log| - 1], chan) + (if log[|log| - 1].chan == chan then [log[|log| - 1]] else [])
  }

  /** Frame numbers of fns that the table gives to chan, in order. */
  function Fed(frames: seq<Frame>, chan: ChanType, fns: seq<Fn>): (r: seq<Fn>)
    requires IsTable(frames)
    ensures forall i :: 0 <= i < |r| ==> At(frames, r[i]).ulChan == chan
  {
    if fns == [] then []
    else Fed(frames, chan, fns[..|fns| - 1])
         + (if At(frames, fns[|fns| - 1]).ulChan == chan then [fns[|fns| - 1]] else [])
  }

  /** State and deliveries of a single active channel after a run of its own bursts. */
  function ChanRun(frames: seq<Frame>, cs: ChanState, chan: ChanType, fns: seq<Fn>): (r: (ChanState, seq<Burst>))
    requires IsTable(frames)
  {
    if fns == [] then (cs, [])
    else
      var (c, bs) := ChanRun(frames, cs, chan, fns[..|fns| - 1]);
      var fn := fns[|fns| - 1];
      (Processed(c, fn), bs + Deliveries(frames, c, chan, fn))
  }

  lemma {:induction false} OfChanAppend(a: seq<Burst>, b: seq<Burst>, chan: ChanType)
    ensures OfChan(a + b, chan) == OfChan(a, chan) + OfChan(b, chan)
  {
    if b == [] {
      assert a + b == a;
    } else {
      assert (a + b)[..|a + b| - 1] == a + b[..|b| - 1];
      OfChanAppend(a, b[..|b| - 1], chan);
    }
  }

  lemma {:induction false} OfChanSame(bs: seq<Burst>, c: ChanType, chan: ChanType)
    requires forall i :: 0 <= i < |bs| ==> bs[i].chan == c
    ensures OfChan(bs, chan) == if c == chan then bs else []
  {
    if bs != [] {
      OfChanSame(bs[..|bs| - 1], c, chan);
      assert bs == bs[..|bs| - 1] + [bs[|bs| - 1]];
    }
  }

  lemma WindowChan(frames: seq<Frame>, chan: ChanType, last: Fn, n: nat)
    requires IsTable(frames)
    ensures forall i :: 0 <= i < |Window(frames, chan, last, n)| ==> Window(frames, chan, last, n)[i].chan == chan
  {
  }

  lemma {:induction false} StepProjects(r: TsState, fn: Fn, chan: ChanType)
    requires r.Valid() && chan in r.chans && r.chans[chan].active && HasHandler(chan)
    ensures var s := Step(r, fn);
            var cs := r.chans[chan];
            chan in s.chans && s.chans[chan].active &&
            if At(r.frames, fn).ulChan == chan
            then s.chans[chan] == Processed(cs, fn)
                 && OfChan(s.log, chan) == OfChan(r.log, chan) + Deliveries(r.frames, cs, chan, fn)
            else s.chans[chan] == cs && OfChan(s.log, chan) == OfChan(r.log, chan)
  {
    hide Deliveries, Window, OfChan;
    var c := At(r.frames, fn).ulChan;
    var cs := r.chans[c];
    hide At;
    if cs.active && HasHandler(c) {
      var ds := Deliveries(r.frames, cs, c, fn);
      OfChanAppend(r.log, ds, chan);
      DeliveriesChan(r.frames, cs, c, fn);
      OfChanSame(ds, c, chan);
    }
  }

  /** On a timeslot shared by several channels each one behaves as if it were alone:
      the bursts of the others neither reach its handler nor disturb its bookkeeping. */
  lemma {:induction false} ChannelsAreIndependent(ts: TsState, fns: seq<Fn>, chan: ChanType)
    requires ts.Valid() && ts.log == []
    requires chan in ts.chans && ts.chans[chan].active && HasHandler(chan)
    ensures var r := Run(ts, fns);
            var own := ChanRun(ts.frames, ts.chans[chan], chan, Fed(ts.frames, chan, fns));
            chan in r.chans && r.chans[chan] == own.0 && OfChan(r.log, chan) == own.1
  {
    hide At, Step, Deliveries, ChanRun, Processed, HasHandler;
    if fns == [] {
      EmptyChanRun(ts.frames, ts.chans[chan], chan);
    } else {
      var before := fns[..|fns| - 1];
      var fn := fns[|fns| - 1];
      var fed := Fed(ts.frames, chan, before);
      ChannelsAreIndependent(ts, before, chan);
      ActiveKept(ts.frames, ts.chans[chan], chan, fed);
      StepProjects(Run(ts, before), fn, chan);
      ChanRunAppend(ts.frames, ts.chans[chan], chan, fed, fn);
      assert fed + [] == fed;
    }
  }

  lemma EmptyChanRun(frames: seq<Frame>, cs: ChanState, chan: ChanType)
    requires IsTable(frames)
    ensures ChanRun(frames, cs, chan, []) == (cs, [])
  {
  }

  lemma {:induction false} ChanRunAppend(frames: seq<Frame>, cs: ChanState, chan: ChanType, fns: seq<Fn>, fn: Fn)
    requires IsTable(frames)
    ensures var r := ChanRun(frames, cs, chan, fns);
            ChanRun(frames, cs, chan, fns + [fn]) == (Processed(r.0, fn), r.1 + Deliveries(frames, r.0, chan, fn))
  {
    hide At, Deliveries, Processed;
    assert (fns + [fn])[..|fns|] == fns;
  }

  lemma {:induction false} DeliveriesChan(frames: seq<Frame>, cs: ChanState, chan: ChanType, fn: Fn)
    requires IsTable(frames)
    ensures forall i :: 0 <= i < |Deliveries(frames, cs, chan, fn)| ==> Deliveries(frames, cs, chan, fn)[i].chan == chan
  {
    hide At;
    var elapsed := FnSub(fn, cs.lastFn);
    if elapsed > 0 { WindowChan(frames, chan, cs.lastFn, elapsed - 1); }
  }

  lemma {:induction false} ActiveKept(frames: seq<Frame>, cs: ChanState, chan: ChanType, fns: seq<Fn>)
    requires IsTable(frames)
    ensures var r := ChanRun(frames, cs, chan, fns).0;
            r.active == cs.active && r.hoRachDetect == cs.hoRachDetect && r.lostFs == cs.lostFs
    ensures fns != [] ==> ChanRun(frames, cs, chan, fns).0.lastFn == fns[|fns| - 1]
    ensures ChanRun(frames, cs, chan, fns).0.procFs == if fns == [] then cs.procFs else (cs.procFs + |fns|) % UINT32_RANGE
  {
    hide At, Deliveries, FnSub;
    if fns != [] { ActiveKept(frames, cs, chan, fns[..|fns| - 1]); }
  }

  // ----- Completeness of the reconstructed stream ----------------------------------

  /** Where a burst sits: its frame number and its position in the block. */
  datatype Slot = Slot(fn: Fn, bid: Octet)

  function Slots(bs: seq<Burst>): (r: seq<Slot>)
    ensures |r| == |bs|
  {
    seq(|bs|, i requires 0 <= i < |bs| => Slot(bs[i].fn, bs[i].bid))
  }

  /** Frames that pass between the first and the last burst of a run. */
  function Span(fns: seq<Fn>): nat {
    if |fns| < 2 then 0 else Span(fns[..|fns| - 1]) + FnSub(fns[|fns| - 1], fns[|fns| - 2])
  }

  /** The stream the handler ought to see: the first burst and then every frame of
      the channel up to the last one, each once, in order, with its block position. */
  function Complete(frames: seq<Frame>, chan: ChanType, first: Fn, span: nat): seq<Slot>
    requires IsTable(frames)
  {
    [Slot(first, At(frames, first).ulBid)] + Slots(Window(frames, chan, first, span))
  }

  /** A frame is in the window exactly if the table gives it to the channel. */
  lemma {:induction false} WindowIsEveryFrame(frames: seq<Frame>, chan: ChanType, last: Fn, n: nat, b: Burst)
    requires IsTable(frames)
    ensures b in Window(frames, chan, last, n) <==>
            exists i :: 1 <= i <= n && b == Burst(FnSum(last, i), chan, At(frames, FnSum(last, i)).ulBid, true)
                        && At(frames, FnSum(last, i)).ulChan == chan
  {
    hide At;
    if n > 0 {
      WindowIsEveryFrame(frames, chan, last, n - 1, b);
      var fn := FnSum(last, n);
      var here := At(frames, fn).ulChan == chan && b == Burst(fn, chan, At(frames, fn).ulBid, true);
      assert b in Window(frames, chan, last, n) <==> (b in Window(frames, chan, last, n - 1) || here);
    }
  }

  predicate Ordered(bs: seq<Burst>, last: Fn, n: nat) {
    && (forall i :: 0 <= i < |bs| ==> 1 <= FnSub(bs[i].fn, last) <= n)
    && (forall i, j :: 0 <= i < j < |bs| ==> FnSub(bs[i].fn, last) < FnSub(bs[j].fn, last))
  }

  /** A window shorter than a hyperframe runs forward in time: no frame occurs twice. */
  lemma {:induction false} WindowOnce(frames: seq<Frame>, chan: ChanType, last: Fn, n: nat)
    requires IsTable(frames) && n < HYPERFRAME
    ensures Ordered(Window(frames, chan, last, n), last, n)
  {
    hide At;
    if n > 0 {
      WindowOnce(frames, chan, last, n - 1);
      FnSubOfSum(last, n);
      hide FnSum, FnSub;
    }
  }

  lemma {:induction false} WindowJoin(frames: seq<Frame>, chan: ChanType, last: Fn, m: nat, n: nat)
    requires IsTable(frames)
    ensures Window(frames, chan, last, m + n) == Window(frames, chan, last, m) + Window(frames, chan, FnSum(last, m), n)
  {
    hide At;
    if n > 0 {
      WindowJoin(frames, chan, last, m, n - 1);
      FnSumAssoc(last, m, n);
      assert m + n - 1 == m + (n - 1);
    }
  }

  /** The whole gap up to the received burst, as slots, is what a short gap delivers. */
  lemma {:induction false} ShortGap(frames: seq<Frame>, cs: ChanState, chan: ChanType, fn: Fn)
    requires IsTable(frames) && At(frames, fn).ulChan == chan && chan.Dedicated? && !cs.hoRachDetect && cs.procFs != 0
    requires 1 <= FnSub(fn, cs.lastFn) <= |frames|
    ensures Slots(Deliveries(frames, cs, chan, fn)) == Slots(Window(frames, chan, cs.lastFn, FnSub(fn, cs.lastFn)))
  {
    hide At;
    FnSumOfSub(fn, cs.lastFn);
  }

  /** A gap longer than the period hides at least one frame of the channel, and the
      scheduler then delivers the received burst alone. */
  lemma {:induction false} LongGap(frames: seq<Frame>, cs: ChanState, chan: ChanType, fn: Fn)
    requires IsTable(frames) && At(frames, fn).ulChan == chan && Offset(HYPERFRAME, |frames|) == 0
    requires FnSub(fn, cs.lastFn) > |frames|
    ensures |Deliveries(frames, cs, chan, fn)| == 1
    ensures |Window(frames, chan, cs.lastFn, FnSub(fn, cs.lastFn))| >= 2
  {
    var n := FnSub(fn, cs.lastFn);
    var hidden := FnSum(cs.lastFn, n - |frames|);
    FnSumOfSub(fn, cs.lastFn);
    PeriodBack(frames, cs.lastFn, n);
    assert At(frames, hidden).ulChan == chan;
    WindowGrows(frames, chan, cs.lastFn, n - |frames|, n - 1);
  }

  lemma {:induction false} PeriodBack(frames: seq<Frame>, last: Fn, n: nat)
    requires IsTable(frames) && Offset(HYPERFRAME, |frames|) == 0 && |frames| <= n < HYPERFRAME
    ensures At(frames, FnSum(last, n - |frames|)) == At(frames, FnSum(last, n))
  {
    WrapKeepsOffset(last + n - |frames|, |frames|);
    WrapKeepsOffset(last + n, |frames|);
  }

  lemma {:induction false} OffsetOfSum(x: nat, y: nat, p: nat)
    requires p > 0 && Offset(y, p) == 0
    ensures Offset(x + y, p) == Offset(x, p)
  {
    if y > 0 { OffsetOfSum(x, y - p, p); }
  }

  /** A period that divides the hyperframe survives the wrap of the frame number. */
  lemma {:induction false} WrapKeepsOffset(x: nat, p: nat)
    requires p > 0 && Offset(HYPERFRAME, p) == 0 && x < 2 * HYPERFRAME
    ensures Offset(x % HYPERFRAME, p) == Offset(x, p)
  {
    if x >= HYPERFRAME {
      assert x % HYPERFRAME == x - HYPERFRAME;
      OffsetOfSum(x - HYPERFRAME, HYPERFRAME, p);
    }
  }

  /** So a gap up to the period is filled: the slots delivered are exactly those of the gap. */
  lemma {:induction false} BurstFillsGap(ts: TsState, fn: Fn)
    requires ts.Valid()
    ensures 0 <= fn % |ts.frames| < |ts.frames|
    ensures var chan := ts.frames[fn % |ts.frames|].ulChan;
            var cs := ts.chans[chan];
            var gap := (fn + HYPERFRAME - cs.lastFn) % HYPERFRAME;
            cs.active && chan.Dedicated? && !cs.hoRachDetect && cs.procFs != 0 && 1 <= gap <= |ts.frames| ==>
              Slots(Step(ts, fn).log) == Slots(ts.log) + Slots(Window(ts.frames, chan, cs.lastFn, gap))
  {
    AtIsModulo(ts.frames, fn);
    var chan := At(ts.frames, fn).ulChan;
    var cs := ts.chans[chan];
    hide Offset, Window, Deliveries, Slots;
    if cs.active && chan.Dedicated? && !cs.hoRachDetect && cs.procFs != 0 && 1 <= FnSub(fn, cs.lastFn) <= |ts.frames| {
      ShortGap(ts.frames, cs, chan, fn);
      SlotsAppend(ts.log, Deliveries(ts.frames, cs, chan, fn));
    }
  }

  predicate GapsAtMost(fns: seq<Fn>, period: nat) {
    forall i :: 1 <= i < |fns| ==> FnSub(fns[i], fns[i - 1]) <= period
  }

  lemma {:induction false} SlotsAppend(a: seq<Burst>, b: seq<Burst>)
    ensures Slots(a + b) == Slots(a) + Slots(b)
  {
  }

  lemma {:induction false} CompleteJoin(frames: seq<Frame>, chan: ChanType, first: Fn, m: nat, n: nat)
    requires IsTable(frames)
    ensures Complete(frames, chan, first, m + n)
         == Complete(frames, chan, first, m) + Slots(Window(frames, chan, FnSum(first, m), n))
  {
    hide At;
    WindowJoin(frames, chan, first, m, n);
    SlotsAppend(Window(frames, chan, first, m), Window(frames, chan, FnSum(first, m), n));
  }

  lemma {:induction false} GapsSplit(fns: seq<Fn>, period: nat)
    requires |fns| > 1
    ensures GapsAtMost(fns, period) <==>
            GapsAtMost(fns[..|fns| - 1], period) && FnSub(fns[|fns| - 1], fns[|fns| - 2]) <= period
  {
    var before := fns[..|fns| - 1];
    assert forall i :: 1 <= i < |before| ==> FnSub(before[i], before[i - 1]) == FnSub(fns[i], fns[i - 1]);
  }

  /** A stream never runs ahead of the due one, and keeps up exactly by matching it. */
  predicate KeepsUp(seen: seq<Slot>, due: seq<Slot>) {
    |seen| <= |due| && (|seen| == |due| ==> seen == due)
  }

  lemma {:induction false} Extend(seen: seq<Slot>, due: seq<Slot>, got: seq<Slot>, window: seq<Slot>, short: bool)
    requires KeepsUp(seen, due)
    requires if short then got == window else |got| < |window|
    ensures KeepsUp(seen + got, due + window)
    ensures seen + got == due + window <==> seen == due && short
  {
    if short && |seen| == |due| {
      assert seen == due;
    } else {
      assert |seen + got| < |due + window|;
    }
  }

  function Seen(frames: seq<Frame>, cs: ChanState, chan: ChanType, fns: seq<Fn>): seq<Slot>
    requires IsTable(frames)
  {
    Slots(ChanRun(frames, cs, chan, fns).1)
  }

  /** A fresh activation outside handover detection, fed at increasing frame numbers. */
  predicate FreshRun(frames: seq<Frame>, cs: ChanState, chan: ChanType, fns: seq<Fn>) {
    && IsTable(frames) && Offset(HYPERFRAME, |frames|) == 0
    && chan.Dedicated? && !cs.hoRachDetect && cs.procFs == 0
    && 0 < |fns| < UINT32_RANGE
    && (forall i :: 0 <= i < |fns| ==> At(frames, fns[i]).ulChan == chan)
    && (forall i :: 1 <= i < |fns| ==> fns[i] != fns[i - 1])
  }

  lemma {:induction false} StreamKeepsUp(frames: seq<Frame>, cs: ChanState, chan: ChanType, fns: seq<Fn>)
    requires FreshRun(frames, cs, chan, fns)
    ensures KeepsUp(Seen(frames, cs, chan, fns), Complete(frames, chan, fns[0], Span(fns)))
    ensures Seen(frames, cs, chan, fns) == Complete(frames, chan, fns[0], Span(fns)) <==> GapsAtMost(fns, |frames|)
  {
    hide At, FnSum, FnSub, Window, Deliveries, Slots, Complete, GapsAtMost;
    var last := |fns| - 1;
    if last > 0 {
      var before := fns[..last];
      StreamKeepsUp(frames, cs, chan, before);
      ActiveKept(frames, cs, chan, before);
      var (c, bs) := ChanRun(frames, cs, chan, before);
      var ds := Deliveries(frames, c, chan, fns[last]);
      var gap := FnSub(fns[last], fns[last - 1]);
      var due := Complete(frames, chan, fns[0], Span(before));
      var window := Slots(Window(frames, chan, fns[last - 1], gap));
      SpanReaches(before);
      GapsSplit(fns, |frames|);
      GapMatches(frames, c, chan, fns[last]);
      Extend(Slots(bs), due, Slots(ds), window, gap <= |frames|);
      CompleteJoin(frames, chan, fns[0], Span(before), gap);
      SlotsAppend(bs, ds);
    } else {
      FirstBurst(frames, cs, chan, fns);
    }
  }

  /** Exactly-once reconstruction: the handler sees the complete stream exactly if no
      gap is longer than the multiframe period. */
  lemma {:induction false} StreamIsComplete(frames: seq<Frame>, cs: ChanState, chan: ChanType, fns: seq<Fn>)
    requires FreshRun(frames, cs, chan, fns)
    ensures Seen(frames, cs, chan, fns) == Complete(frames, chan, fns[0], Span(fns)) <==> GapsAtMost(fns, |frames|)
  {
    StreamKeepsUp(frames, cs, chan, fns);
  }

  lemma {:induction false} FirstBurst(frames: seq<Frame>, cs: ChanState, chan: ChanType, fns: seq<Fn>)
    requires IsTable(frames) && cs.procFs == 0 && |fns| == 1
    ensures Slots(ChanRun(frames, cs, chan, fns).1) == Complete(frames, chan, fns[0], Span(fns))
    ensures GapsAtMost(fns, |frames|)
  {
    assert ChanRun(frames, cs, chan, fns[..0]) == (cs, []);
  }

  lemma {:induction false} GapMatches(frames: seq<Frame>, cs: ChanState, chan: ChanType, fn: Fn)
    requires IsTable(frames) && At(frames, fn).ulChan == chan && Offset(HYPERFRAME, |frames|) == 0
    requires chan.Dedicated? && !cs.hoRachDetect && cs.procFs != 0 && fn != cs.lastFn
    ensures var gap := FnSub(fn, cs.lastFn);
            var got := Slots(Deliveries(frames, cs, chan, fn));
            var window := Slots(Window(frames, chan, cs.lastFn, gap));
            if gap <= |frames| then got == window else |got| < |window|
  {
    hide At;
    if FnSub(fn, cs.lastFn) <= |frames| {
      ShortGap(frames, cs, chan, fn);
    } else {
      LongGap(frames, cs, chan, fn);
    }
  }

  lemma {:induction false} SpanReaches(fns: seq<Fn>)
    requires fns != []
    ensures FnSum(fns[0], Span(fns)) == fns[|fns| - 1]
  {
    if |fns| > 1 {
      var before := fns[..|fns| - 1];
      SpanReaches(before);
      FnSumAssoc(fns[0], Span(before), FnSub(fns[|fns| - 1], fns[|fns| - 2]));
      FnSumOfSub(fns[|fns| - 1], fns[|fns| - 2]);
    }
  }

  function Received(bs: seq<Burst>): seq<Fn> {
    if bs == [] then []
    else Received(bs[..|bs| - 1]) + (if bs[|bs| - 1].substituted then [] else [bs[|bs| - 1].fn])
  }

  lemma {:induction false} ReceivedAppend(a: seq<Burst>, b: seq<Burst>)
    ensures Received(a + b) == Received(a) + Received(b)
  {
    if b == [] {
      assert a + b == a;
    } else {
      assert (a + b)[..|a + b| - 1] == a + b[..|b| - 1];
      ReceivedAppend(a, b[..|b| - 1]);
    }
  }

  lemma WindowSubstituted(frames: seq<Frame>, chan: ChanType, last: Fn, n: nat)
    requires IsTable(frames)
    ensures Received(Window(frames, chan, last, n)) == []
  {
    hide At;
    if n > 0 {
      var fn := FnSum(last, n);
      ReceivedAppend(Window(frames, chan, last, n - 1),
                     if At(frames, fn).ulChan == chan then [Burst(fn, chan, At(frames, fn).ulBid, true)] else []);
    }
  }

  lemma {:induction false} DeliveriesReceived(frames: seq<Frame>, cs: ChanState, chan: ChanType, fn: Fn)
    requires IsTable(frames)
    ensures Received(Deliveries(frames, cs, chan, fn)) == [fn]
  {
    hide At;
    var ds := Deliveries(frames, cs, chan, fn);
    var elapsed := FnSub(fn, cs.lastFn);
    if elapsed > 0 { WindowSubstituted(frames, chan, cs.lastFn, elapsed - 1); }
    ReceivedAppend(ds[..|ds| - 1], [ds[|ds| - 1]]);
    assert ds == ds[..|ds| - 1] + [ds[|ds| - 1]];
  }

  /** The bursts that are not substitutes are the received ones, in order. */
  lemma {:induction false} ReceivedAreKept(frames: seq<Frame>, cs: ChanState, chan: ChanType, fns: seq<Fn>)
    requires IsTable(frames)
    ensures Received(ChanRun(frames, cs, chan, fns).1) == fns
  {
    hide At, Deliveries, Processed;
    if fns != [] {
      var before := fns[..|fns| - 1];
      ReceivedAreKept(frames, cs, chan, before);
      var (c, bs) := ChanRun(frames, cs, chan, before);
      DeliveriesReceived(frames, c, chan, fns[|fns| - 1]);
      ReceivedAppend(bs, Deliveries(frames, c, chan, fns[|fns| - 1]));
    }
  }
}
