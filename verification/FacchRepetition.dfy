/** Downlink FACCH repetition (section 10 of 3GPP TS 44.006).

    A frame that may be repeated is kept in one of two slots and sent again at a later
    request, at least eight frames after the original. */
module FacchRepetition {
  import opened Basics
  import opened Tdma

  /** A LAPDm frame: its address octet and everything behind it. */
  datatype Frame = Frame(address: Octet, rest: seq<Octet>)

  datatype Stored = Stored(frame: Frame, fn: Fn)

  /** Shortest distance between an original and its repetition. */
  const REPEAT_AFTER: int := 8

  /** Command frames carry the C/R bit in the address octet; a mobile that supports it
      gets every frame repeated. */
  predicate Repeatable(f: Frame, repeatAll: bool) {
    repeatAll || f.address / 2 % 2 == 1
  }

  lemma RepeatableExactlyWhen(f: Frame, repeatAll: bool)
    ensures Repeatable(f, repeatAll) <==> repeatAll || f.address % 4 >= 2
  {
  }

  datatype Slots = Slots(slot0: Option<Stored>, slot1: Option<Stored>)

  predicate Due(s: Option<Stored>, fn: Fn) {
    s.Some? && FnSub(fn, s.value.fn) >= REPEAT_AFTER
  }

  /** The request that would run into the assertion: nothing due, both slots taken and
      a new frame to be kept. */
  predicate Overflows(s: Slots, fn: Fn, fetched: Option<Frame>, repeatAll: bool) {
    && !Due(s.slot0, fn) && !Due(s.slot1, fn)
    && fetched.Some? && Repeatable(fetched.value, repeatAll)
    && s.slot0.Some? && s.slot1.Some?
  }

  /** Slots and frame sent by one request; fetched is what LAPDm has to offer, and it
      is left with LAPDm when a repetition goes first. */
  function Step(s: Slots, fn: Fn, fetched: Option<Frame>, repeatAll: bool): (r: (Slots, Option<Frame>)) {
    if Due(s.slot0, fn) then (s.(slot0 := None), Some(s.slot0.value.frame))
    else if Due(s.slot1, fn) then (s.(slot1 := None), Some(s.slot1.value.frame))
    else if fetched.None? || !Repeatable(fetched.value, repeatAll) then (s, fetched)
    else if s.slot0.None? then (s.(slot0 := Some(Stored(fetched.value, fn))), fetched)
    else (s.(slot1 := Some(Stored(fetched.value, fn))), fetched)
  }

  class FacchRepeater {
    var slot0: Option<Stored>
    var slot1: Option<Stored>
    var repeatAll: bool

    ghost function State(): Slots
      reads this
    {
      Slots(slot0, slot1)
    }

    method DequeueFacch(fn: Fn, fetched: Option<Frame>) returns (msg: Option<Frame>)
      requires !Overflows(State(), fn, fetched, repeatAll)
      modifies this`slot0, this`slot1
      ensures (State(), msg) == Step(old(State()), fn, fetched, repeatAll)
      ensures var age0 := if old(slot0).Some? then (fn + HYPERFRAME - old(slot0).value.fn) % HYPERFRAME else 0;
              var age1 := if old(slot1).Some? then (fn + HYPERFRAME - old(slot1).value.fn) % HYPERFRAME else 0;
              && (age0 >= 8 ==> msg == Some(old(slot0).value.frame) && slot0 == None && slot1 == old(slot1))
              && (age0 < 8 <= age1 ==> msg == Some(old(slot1).value.frame) && slot0 == old(slot0) && slot1 == None)
              && (age0 < 8 && age1 < 8 ==>
                    && msg == fetched
                    && (msg.None? || (!repeatAll && msg.value.address % 4 < 2) ==> State() == old(State()))
                    && (msg.Some? && (repeatAll || msg.value.address % 4 >= 2) ==>
                          if old(slot0) == None then slot0 == Some(Stored(msg.value, fn)) && slot1 == old(slot1)
                          else slot0 == old(slot0) && slot1 == Some(Stored(msg.value, fn))))
    {
      if slot0.Some? && FnSub(fn, slot0.value.fn) >= REPEAT_AFTER {
        msg := Some(slot0.value.frame);
        slot0 := None;
      } else if slot1.Some? && FnSub(fn, slot1.value.fn) >= REPEAT_AFTER {
        msg := Some(slot1.value.frame);
        slot1 := None;
      } else {
        msg := fetched;
        if msg.None? { return; }
        if !Repeatable(msg.value, repeatAll) { return; }
        if slot0.None? {
          slot0 := Some(Stored(msg.value, fn));
        } else if slot1.None? {
          slot1 := Some(Stored(msg.value, fn));
        } else {
          assert false;
        }
      }
    }
  }

  // ----- Runs -------------------------------------------------------------------------

  /** A request at absolute frame t. */
  datatype Request = Request(t: nat, fetched: Option<Frame>)

  datatype Tx = Tx(frame: Frame, t: nat)

  /** The same bookkeeping in absolute time, with everything sent so far. */
  datatype History = History(slot0: Option<Tx>, slot1: Option<Tx>,
                             originals: seq<Tx>, repeats: seq<Tx>, sent: seq<Option<Frame>>)

  const EMPTY: History := History(None, None, [], [], [])

  predicate DueAt(s: Option<Tx>, t: nat) {
    s.Some? && t - s.value.t >= REPEAT_AFTER
  }

  function Next(h: History, q: Request, repeatAll: bool): (r: History) {
    if DueAt(h.slot0, q.t) then
      h.(slot0 := None, repeats := h.repeats + [Tx(h.slot0.value.frame, q.t)], sent := h.sent + [Some(h.slot0.value.frame)])
    else if DueAt(h.slot1, q.t) then
      h.(slot1 := None, repeats := h.repeats + [Tx(h.slot1.value.frame, q.t)], sent := h.sent + [Some(h.slot1.value.frame)])
    else if q.fetched.None? || !Repeatable(q.fetched.value, repeatAll) then h.(sent := h.sent + [q.fetched])
    else
      var tx := Tx(q.fetched.value, q.t);
      var kept := h.(originals := h.originals + [tx], sent := h.sent + [q.fetched]);
      if h.slot0.None? then kept.(slot0 := Some(tx)) else kept.(slot1 := Some(tx))
  }

  function Replay(qs: seq<Request>, repeatAll: bool): (r: History) {
    if qs == [] then EMPTY else Next(Replay(qs[..|qs| - 1], repeatAll), qs[|qs| - 1], repeatAll)
  }

  /** The code's own run, on frame numbers. */
  function Run(qs: seq<Request>, repeatAll: bool): (r: (Slots, seq<Option<Frame>>)) {
    if qs == [] then (Slots(None, None), [])
    else
      var (s, sent) := Run(qs[..|qs| - 1], repeatAll);
      var q := qs[|qs| - 1];
      var (s', msg) := Step(s, FnAt(q.t), q.fetched, repeatAll);
      (s', sent + [msg])
  }

  const MIN_GAP: int := 4
  const MAX_GAP: int := HYPERFRAME / 2 - 1

  /** FACCH requests come at block boundaries, four frames apart or more, and not so
      rarely that half a hyperframe passes in between. */
  predicate Spaced(qs: seq<Request>) {
    SpacedBy(qs, MIN_GAP)
  }

  predicate SpacedBy(qs: seq<Request>, gap: int) {
    forall i :: 1 <= i < |qs| ==> gap <= qs[i].t - qs[i - 1].t <= MAX_GAP
  }

  function Pending(h: History): seq<Tx> {
    (if h.slot0.Some? then [h.slot0.value] else []) + (if h.slot1.Some? then [h.slot1.value] else [])
  }

  /** Repetitions follow the originals in order, each late enough. */
  predicate Follow(originals: seq<Tx>, repeats: seq<Tx>) {
    && |repeats| <= |originals|
    && forall i :: 0 <= i < |repeats| ==>
         repeats[i].frame == originals[i].frame && repeats[i].t >= originals[i].t + REPEAT_AFTER
  }

  /** What a request at time clock leaves behind. */
  predicate Settled(h: History, clock: nat) {
    && Follow(h.originals, h.repeats)
    && h.originals[|h.repeats|..] == Pending(h)
    && (h.slot0.Some? ==> h.slot0.value.t <= clock < h.slot0.value.t + REPEAT_AFTER)
    && (h.slot0.Some? && h.slot1.Some? ==> h.slot0.value.t + MIN_GAP <= h.slot1.value.t == clock)
    && (h.slot0.None? && h.slot1.Some? ==> MIN_GAP <= clock - h.slot1.value.t <= MAX_GAP)
  }

  lemma {:induction false} NextSettles(h: History, clock: nat, q: Request, repeatAll: bool)
    requires Settled(h, clock) && MIN_GAP <= q.t - clock <= MAX_GAP
    ensures Settled(Next(h, q, repeatAll), q.t)
  {
    var n := Next(h, q, repeatAll);
    var k := |h.repeats|;
    if h.slot0.Some? { assert h.originals[k] == h.originals[k..][0] == h.slot0.value; }
    if DueAt(h.slot0, q.t) {
      assert n.originals[k + 1..] == h.originals[k..][1..];
    } else if DueAt(h.slot1, q.t) {
      assert h.originals[k] == h.originals[k..][0] == h.slot1.value;
      assert n.originals[k + 1..] == h.originals[k..][1..];
    } else if q.fetched.Some? && Repeatable(q.fetched.value, repeatAll) {
      assert n.originals[k..] == h.originals[k..] + [Tx(q.fetched.value, q.t)];
    }
  }

  /** Every frame that is kept is sent again, once, in order and at least eight frames
      later; what is still outstanding sits in the two slots. */
  lemma {:induction false} RepeatsFollowOriginals(qs: seq<Request>, repeatAll: bool)
    requires Spaced(qs) && qs != []
    ensures Settled(Replay(qs, repeatAll), qs[|qs| - 1].t)
  {
    var before := qs[..|qs| - 1];
    if before == [] {
      assert Replay(before, repeatAll) == EMPTY;
    } else {
      RepeatsFollowOriginals(before, repeatAll);
      NextSettles(Replay(before, repeatAll), before[|before| - 1].t, qs[|qs| - 1], repeatAll);
    }
  }

  lemma {:induction false} TwoRequests(h: History, clock: nat, q: Request, r: Request, repeatAll: bool)
    requires Settled(h, clock) && MIN_GAP <= q.t - clock <= MAX_GAP && MIN_GAP <= r.t - q.t <= MAX_GAP
    ensures |Next(Next(h, q, repeatAll), r, repeatAll).repeats| >= |h.originals|
  {
    assert |h.originals| == |h.repeats| + |Pending(h)|;
    hide Repeatable, Follow;
    var n := Next(h, q, repeatAll);
    if h.slot0.Some? && h.slot1.Some? {
      assert DueAt(h.slot0, q.t) && DueAt(n.slot1, r.t);
    } else if h.slot0.Some? {
      assert DueAt(h.slot0, q.t) || DueAt(n.slot0, r.t);
    } else if h.slot1.Some? {
      assert DueAt(h.slot1, q.t);
    }
  }

  /** Every frame kept by some request has been repeated two requests later. */
  lemma {:induction false} RepeatedWithinTwoRequests(qs: seq<Request>, repeatAll: bool)
    requires Spaced(qs) && |qs| > 2
    ensures |Replay(qs, repeatAll).repeats| >= |Replay(qs[..|qs| - 2], repeatAll).originals|
  {
    var a := qs[..|qs| - 2];
    var b := qs[..|qs| - 1];
    assert b[..|b| - 1] == a;
    RepeatsFollowOriginals(a, repeatAll);
    var q, r := b[|b| - 1], qs[|qs| - 1];
    var h := Replay(a, repeatAll);
    assert Replay(b, repeatAll) == Next(h, q, repeatAll);
    assert Replay(qs, repeatAll) == Next(Replay(b, repeatAll), r, repeatAll);
    hide Replay, Next, Settled;
    TwoRequests(h, a[|a| - 1].t, q, r, repeatAll);
  }

  /** The slots of the code hold the frames of the history. */
  predicate Represents(s: Slots, h: History) {
    && s.slot0 == (if h.slot0.Some? then Some(Stored(h.slot0.value.frame, FnAt(h.slot0.value.t))) else None)
    && s.slot1 == (if h.slot1.Some? then Some(Stored(h.slot1.value.frame, FnAt(h.slot1.value.t))) else None)
  }

  lemma {:induction false} AgeIsModular(s: nat, t: nat)
    requires s <= t < s + HYPERFRAME
    ensures FnSub(FnAt(t), FnAt(s)) == t - s
  {
    var q := t / HYPERFRAME - s / HYPERFRAME;
    assert FnAt(t) + HYPERFRAME - FnAt(s) == t - s + (1 - q) * HYPERFRAME;
  }

  lemma {:induction false} StepRepresents(s: Slots, h: History, clock: nat, q: Request, repeatAll: bool)
    requires Represents(s, h) && Settled(h, clock) && MIN_GAP <= q.t - clock <= MAX_GAP
    ensures !Overflows(s, FnAt(q.t), q.fetched, repeatAll)
    ensures var (s', msg) := Step(s, FnAt(q.t), q.fetched, repeatAll);
            var n := Next(h, q, repeatAll);
            Represents(s', n) && n.sent == h.sent + [msg]
  {
    if h.slot0.Some? { AgeIsModular(h.slot0.value.t, q.t); }
    if h.slot1.Some? { AgeIsModular(h.slot1.value.t, q.t); }
    hide FnSub, FnAt, Repeatable;
  }

  /** The code's run on wrapping frame numbers sends exactly what the history says, and
      the assertion about a third slot is never reached. */
  lemma {:induction false} RunIsReplay(qs: seq<Request>, repeatAll: bool)
    requires Spaced(qs)
    ensures Represents(Run(qs, repeatAll).0, Replay(qs, repeatAll))
    ensures Run(qs, repeatAll).1 == Replay(qs, repeatAll).sent
    ensures forall i :: 0 <= i < |qs| ==>
              !Overflows(Run(qs[..i], repeatAll).0, FnAt(qs[i].t), qs[i].fetched, repeatAll)
  {
    hide Step, Next, Overflows, FnAt;
    if qs != [] {
      var before := qs[..|qs| - 1];
      var q := qs[|qs| - 1];
      RunIsReplay(before, repeatAll);
      if before == [] {
        FirstStep(q, repeatAll);
        assert Run(before, repeatAll) == (Slots(None, None), []);
        assert Replay(before, repeatAll) == EMPTY;
      } else {
        RepeatsFollowOriginals(before, repeatAll);
        StepRepresents(Run(before, repeatAll).0, Replay(before, repeatAll), before[|before| - 1].t, q, repeatAll);
      }
      forall i | 0 <= i < |qs|
        ensures !Overflows(Run(qs[..i], repeatAll).0, FnAt(qs[i].t), qs[i].fetched, repeatAll)
      {
        if i < |before| { assert before[..i] == qs[..i] && before[i] == qs[i]; }
      }
    }
  }

  lemma FirstStep(q: Request, repeatAll: bool)
    ensures !Overflows(Slots(None, None), FnAt(q.t), q.fetched, repeatAll)
    ensures var (s, msg) := Step(Slots(None, None), FnAt(q.t), q.fetched, repeatAll);
            var n := Next(EMPTY, q, repeatAll);
            Represents(s, n) && n.sent == [msg]
  {
  }

  /** No request of the run reaches the assertion about a third slot. */
  predicate NoOverflow(qs: seq<Request>, repeatAll: bool) {
    forall i :: 0 <= i < |qs| ==> !Overflows(Run(qs[..i], repeatAll).0, FnAt(qs[i].t), qs[i].fetched, repeatAll)
  }

  /** Three commands requested three frames apart do. */
  lemma ThreeFramesApartOverflow(f: Frame, repeatAll: bool)
    requires Repeatable(f, repeatAll)
    ensures var qs := [Request(0, Some(f)), Request(3, Some(f)), Request(6, Some(f))];
            SpacedBy(qs, 3) && Overflows(Run(qs[..2], repeatAll).0, FnAt(qs[2].t), qs[2].fetched, repeatAll)
  {
    var qs := [Request(0, Some(f)), Request(3, Some(f)), Request(6, Some(f))];
    assert qs[..2][..1] == qs[..1] && qs[..1][..0] == [];
    assert Run(qs[..0], repeatAll) == (Slots(None, None), []);
    assert Run(qs[..1], repeatAll).0 == Slots(Some(Stored(f, 0)), None);
    assert Run(qs[..2], repeatAll).0 == Slots(Some(Stored(f, 0)), Some(Stored(f, 3)));
  }

  /** So a distance between requests keeps every run away from it if and only if it is four
      frames or more. */
  lemma {:induction false} GapSufficesExactlyWhen(gap: int, repeatAll: bool)
    ensures (forall qs: seq<Request> :: SpacedBy(qs, gap) ==> NoOverflow(qs, repeatAll)) <==> gap >= MIN_GAP
  {
    if gap >= MIN_GAP {
      forall qs: seq<Request> | SpacedBy(qs, gap)
        ensures NoOverflow(qs, repeatAll)
      {
        RunIsReplay(qs, repeatAll);
      }
    } else {
      var f := Frame(2, []);
      var qs := [Request(0, Some(f)), Request(3, Some(f)), Request(6, Some(f))];
      ThreeFramesApartOverflow(f, repeatAll);
      hide Run, Overflows, FnAt;
      assert SpacedBy(qs, gap) && !NoOverflow(qs, repeatAll);
    }
  }
}
