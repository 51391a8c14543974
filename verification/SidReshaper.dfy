/** Downlink SID reshaping for FR, HR and EFR speech (section 5.1.2 of GSM 06.31 and
    section C.3.2.1.1 of 3GPP TS 28.062).

    In a speech pause one SID frame is to go out per window; a window starts at every
    mandatory SID position and at every talkspurt.  A SID from RTP is cached and replayed
    while RTP stays silent, until it expires. */
module SidReshaper {
  import opened Basics
  import opened Tdma

  /** An RTP frame as classified, or none at all. */
  datatype Rtp = Nothing | Speech(payload: seq<Octet>) | Sid(payload: seq<Octet>) | InvalidSid

  /** What is handed to the BTS model for one frame. */
  datatype Out = Empty | SpeechOut(payload: seq<Octet>) | SidOut(payload: seq<Octet>)

  datatype Channel = FullRate | HalfRate(nr: nat)

  /** One TCH frame: its number, the RTP input, and whether FACCH steals it. */
  datatype Frame = Frame(fn: Fn, rtp: Rtp, stolen: bool)

  const MAX_AGE: nat := 47
  const SID_BUFFER: nat := 33

  predicate IsSidPosition(chan: Channel, fn: Fn) {
    match chan
    case FullRate => fn % 104 == 52
    case HalfRate(0) => fn % 104 == 0 || fn % 104 == 52
    case HalfRate(1) => fn % 104 == 14 || fn % 104 == 66
    case HalfRate(_) => false
  }

  lemma SamePosition(t: nat)
    ensures FnAt(t) % 104 == t % 104
  {
    var q := t / HYPERFRAME;
    assert t == FnAt(t) + (q * 26112) * 104;
    ModPlusMultiple(FnAt(t), q * 26112, 104);
  }

  lemma HalfPosition(t: nat)
    ensures t % 52 == if t % 104 < 52 then t % 104 else t % 104 - 52
  {
  }

  /** A mandatory position comes every 104 frames on a full rate channel, every 52 on a half
      rate one, also across the end of the hyperframe. */
  lemma PositionsRecur(chan: Channel, t: nat)
    ensures IsSidPosition(chan, FnAt(t)) <==>
              match chan
              case FullRate => t % 104 == 52
              case HalfRate(nr) => nr <= 1 && t % 52 == 14 * nr
  {
    hide FnAt;
    SamePosition(t);
    HalfPosition(t);
  }

  function Cached(payload: seq<Octet>): (r: seq<Octet>) {
    if |payload| <= SID_BUFFER then payload else payload[..SID_BUFFER]
  }

  lemma CacheHolds33(payload: seq<Octet>)
    ensures |Cached(payload)| == if |payload| < 33 then |payload| else 33
    ensures forall i :: 0 <= i < |Cached(payload)| ==> Cached(payload)[i] == payload[i]
  {
  }

  datatype State = State(lastWasSid: bool, lastSid: seq<Octet>, age: nat, transmitted: bool)

  const FRESH: State := State(false, [], 0, false)

  predicate Good(rtp: Rtp) {
    rtp.Speech? || rtp.Sid?
  }

  function AfterInput(s: State, rtp: Rtp): (r: State) {
    match rtp
    case Sid(p) => s.(lastWasSid := true, lastSid := Cached(p), age := 0)
    case Speech(_) => s.(lastWasSid := false, transmitted := false)
    case _ => s
  }

  function AfterOutput(s: State, chan: Channel, f: Frame): (r: (State, Out)) {
    var c := if IsSidPosition(chan, f.fn) then s.(transmitted := false) else s;
    if !Good(f.rtp) && c.lastWasSid && c.age < MAX_AGE then
      var aged := c.(age := c.age + 1);
      if c.transmitted then (aged, Empty)
      else (aged.(transmitted := !f.stolen), SidOut(c.lastSid))
    else if f.rtp.Sid? then
      if c.transmitted then (c, Empty) else (c.(transmitted := !f.stolen), SidOut(f.rtp.payload))
    else if f.rtp.Speech? then (c, SpeechOut(f.rtp.payload))
    else (c, Empty)
  }

  function Step(s: State, chan: Channel, f: Frame): (r: (State, Out)) {
    AfterOutput(AfterInput(s, f.rtp), chan, f)
  }

  class Reshaper {
    const chan: Channel
    var lastRtpInputWasSid: bool
    var lastSid: seq<Octet>
    var lastSidAge: nat
    var dlSidTransmitted: bool
    var dlFacchStealing: bool

    ghost function Now(): State
      reads this
    {
      State(lastRtpInputWasSid, lastSid, lastSidAge, dlSidTransmitted)
    }

    constructor (chan: Channel)
      ensures this.chan == chan && Now() == FRESH && !dlFacchStealing
    {
      this.chan := chan;
      lastRtpInputWasSid, lastSid, lastSidAge, dlSidTransmitted := false, [], 0, false;
      dlFacchStealing := false;
    }

    /** Input stage, called for every frame that RTP delivered. */
    method Input(rtp: Rtp) returns (good: bool, isSid: bool)
      requires !rtp.Nothing?
      modifies this
      ensures Now() == AfterInput(old(Now()), rtp) && dlFacchStealing == old(dlFacchStealing)
      ensures good == Good(rtp) && isSid == rtp.Sid?
      ensures rtp.Sid? ==> var p := rtp.payload;
                           |lastSid| == (if |p| < 33 then |p| else 33) && lastSid == p[..|lastSid|] && lastSidAge == 0
    {
      if rtp.InvalidSid? { return false, false; }
      isSid := rtp.Sid?;
      lastRtpInputWasSid := isSid;
      if isSid {
        var copyLen := if |rtp.payload| <= SID_BUFFER then |rtp.payload| else SID_BUFFER;
        lastSid := rtp.payload[..copyLen];
        assert |rtp.payload| <= SID_BUFFER ==> rtp.payload[..copyLen] == rtp.payload;
        lastSidAge := 0;
      } else {
        dlSidTransmitted := false;
      }
      good := true;
    }

    /** Output stage: replays the cached SID or suppresses a surplus one. */
    method Output(fn: Fn, currentIsSid: bool, resp: Out) returns (out: Out)
      requires resp.SidOut? <==> currentIsSid
      modifies this
      ensures dlFacchStealing == old(dlFacchStealing)
      ensures var rtp := match resp { case Empty => Nothing case SpeechOut(p) => Speech(p) case SidOut(p) => Sid(p) };
              (Now(), out) == AfterOutput(old(Now()), chan, Frame(fn, rtp, dlFacchStealing))
    {
      out := resp;
      var sidInHand := currentIsSid;
      if IsSidPosition(chan, fn) {
        dlSidTransmitted := false;
      }
      if out.Empty? && lastRtpInputWasSid && lastSidAge < MAX_AGE {
        lastSidAge := lastSidAge + 1;
        if !dlSidTransmitted {
          out := SidOut(lastSid);
          sidInHand := true;
        }
      } else if !out.Empty? && sidInHand {
        if dlSidTransmitted { out := Empty; }
      }
      if !out.Empty? && sidInHand && !dlFacchStealing {
        dlSidTransmitted := true;
      }
    }

    /** One TCH frame, both stages. */
    method TchRts(f: Frame) returns (out: Out)
      modifies this
      ensures (Now(), out) == Step(old(Now()), chan, f)
    {
      dlFacchStealing := f.stolen;
      var isSid, resp := false, Empty;
      if !f.rtp.Nothing? {
        var good;
        good, isSid := Input(f.rtp);
        if good {
          resp := if isSid then SidOut(f.rtp.payload) else SpeechOut(f.rtp.payload);
        }
      }
      out := Output(f.fn, isSid, resp);
    }
  }

  // ----- Whole runs ---------------------------------------------------------------------

  function Run(chan: Channel, fs: seq<Frame>): (r: State) {
    if fs == [] then FRESH else Step(Run(chan, fs[..|fs| - 1]), chan, fs[|fs| - 1]).0
  }

  function OutAt(chan: Channel, fs: seq<Frame>, k: nat): (r: Out)
    requires k < |fs|
  {
    Step(Run(chan, fs[..k]), chan, fs[k]).1
  }

  /** A SID really goes on air at frame k. */
  predicate Transmits(chan: Channel, fs: seq<Frame>, k: nat)
    requires k < |fs|
  {
    OutAt(chan, fs, k).SidOut? && !fs[k].stolen
  }

  /** A new window starts at frame k. */
  predicate Resets(chan: Channel, fs: seq<Frame>, k: nat)
    requires k < |fs|
  {
    IsSidPosition(chan, fs[k].fn) || fs[k].rtp.Speech?
  }

  /** A SID went on air before frame n, and no window started since. */
  ghost predicate SentBefore(chan: Channel, fs: seq<Frame>, n: nat)
    requires n <= |fs|
  {
    exists i :: 0 <= i < n && Transmits(chan, fs, i) && forall j :: i < j < n ==> !Resets(chan, fs, j)
  }

  /** The window that frame k belongs to has had its SID before frame k. */
  ghost predicate Served(chan: Channel, fs: seq<Frame>, k: nat)
    requires k < |fs|
  {
    SentBefore(chan, fs, k) && !Resets(chan, fs, k)
  }

  /** The cached SID frame k may replay: RTP last delivered it at frame m, and has been
      silent, or delivered garbage, for no more than MAX_AGE frames since, k included. */
  predicate Replayable(fs: seq<Frame>, m: nat, k: nat)
    requires k < |fs|
  {
    m < k <= m + MAX_AGE && fs[m].rtp.Sid? && forall j :: m < j <= k ==> !Good(fs[j].rtp)
  }

  ghost predicate SidAvailable(fs: seq<Frame>, k: nat)
    requires k < |fs|
  {
    fs[k].rtp.Sid? || exists m :: 0 <= m < k && Replayable(fs, m, k)
  }

  /** Index of the last good RTP frame; -1 if there was none. */
  function LastGood(fs: seq<Frame>): (r: int)
    ensures -1 <= r < |fs|
    ensures r >= 0 ==> Good(fs[r].rtp)
    ensures forall j :: r < j < |fs| ==> !Good(fs[j].rtp)
  {
    if fs == [] then -1
    else if Good(fs[|fs| - 1].rtp) then |fs| - 1
    else LastGood(fs[..|fs| - 1])
  }

  /** The cache part of the state is determined by the last good RTP frame. */
  lemma {:induction false} CacheIsLastSid(chan: Channel, fs: seq<Frame>)
    ensures var s := Run(chan, fs);
            var m := LastGood(fs);
            && (s.lastWasSid <==> m >= 0 && fs[m].rtp.Sid?)
            && (s.lastWasSid ==> s.lastSid == Cached(fs[m].rtp.payload)
                                 && s.age == (if |fs| - 1 - m <= MAX_AGE then |fs| - 1 - m else MAX_AGE))
  {
    if fs != [] {
      hide IsSidPosition;
      CacheIsLastSid(chan, fs[..|fs| - 1]);
    }
  }

  lemma {:induction false} FlagStep(chan: Channel, fs: seq<Frame>, n: nat)
    requires n < |fs|
    ensures Run(chan, fs[..n + 1]).transmitted <==>
            Transmits(chan, fs, n) || (Run(chan, fs[..n]).transmitted && !Resets(chan, fs, n))
  {
    hide IsSidPosition;
    assert fs[..n + 1][..n] == fs[..n];
  }

  /** The state flag says whether a SID went on air since the last window start. */
  lemma {:induction false} FlagMeansSent(chan: Channel, fs: seq<Frame>, n: nat)
    requires n <= |fs|
    ensures Run(chan, fs[..n]).transmitted <==> SentBefore(chan, fs, n)
  {
    hide Transmits, Resets, Step;
    if n > 0 {
      var m := n - 1;
      FlagMeansSent(chan, fs, m);
      FlagStep(chan, fs, m);
      hide Run;
      if SentBefore(chan, fs, m) && !Resets(chan, fs, m) {
        var i :| 0 <= i < m && Transmits(chan, fs, i) && forall j :: i < j < m ==> !Resets(chan, fs, j);
        assert forall j :: i < j < n ==> !Resets(chan, fs, j);
      }
      if i :| 0 <= i < m && Transmits(chan, fs, i) && forall j :: i < j < n ==> !Resets(chan, fs, j) {
        assert SentBefore(chan, fs, m) && !Resets(chan, fs, m);
      }
    }
  }

  lemma {:induction false} AvailableIsCache(chan: Channel, fs: seq<Frame>, k: nat)
    requires k < |fs|
    ensures var s := Run(chan, fs[..k]);
            SidAvailable(fs, k) <==> fs[k].rtp.Sid? || (!Good(fs[k].rtp) && s.lastWasSid && s.age < MAX_AGE)
  {
    CacheIsLastSid(chan, fs[..k]);
    var m := LastGood(fs[..k]);
    hide Run;
    if !Good(fs[k].rtp) && m >= 0 && fs[m].rtp.Sid? && k <= m + MAX_AGE {
      assert Replayable(fs, m, k);
    }
    if m' :| 0 <= m' < k && Replayable(fs, m', k) {
      assert !Good(fs[k].rtp);
      assert m' == m;
    }
  }

  /** A SID goes on air exactly at the unstolen frames that have one to send, fresh or
      cached and unexpired, in a window that has not had its SID yet. */
  lemma {:induction false} SidGoesOutExactlyWhenDue(chan: Channel, fs: seq<Frame>, k: nat)
    requires k < |fs|
    ensures Transmits(chan, fs, k) <==> !fs[k].stolen && SidAvailable(fs, k) && !Served(chan, fs, k)
  {
    FlagMeansSent(chan, fs, k);
    AvailableIsCache(chan, fs, k);
    hide Run, SidAvailable, SentBefore, IsSidPosition;
  }

  /** Two SIDs on air are always separated by the start of a window. */
  lemma {:induction false} AtMostOneSidPerWindow(chan: Channel, fs: seq<Frame>, i: nat, k: nat)
    requires i < k < |fs| && Transmits(chan, fs, i) && Transmits(chan, fs, k)
    ensures exists j :: i < j <= k && Resets(chan, fs, j)
  {
    SidGoesOutExactlyWhenDue(chan, fs, k);
  }

  /** Speech always passes, and a replayed SID is the last one RTP delivered, at most
      MAX_AGE frames ago. */
  lemma {:induction false} OutputIsFaithful(chan: Channel, fs: seq<Frame>, k: nat)
    requires k < |fs|
    ensures fs[k].rtp.Speech? <==> OutAt(chan, fs, k).SpeechOut?
    ensures fs[k].rtp.Speech? ==> OutAt(chan, fs, k) == SpeechOut(fs[k].rtp.payload)
    ensures OutAt(chan, fs, k).SidOut? && fs[k].rtp.Sid? ==> OutAt(chan, fs, k).payload == fs[k].rtp.payload
    ensures OutAt(chan, fs, k).SidOut? && !fs[k].rtp.Sid? ==>
              exists m :: 0 <= m < k && Replayable(fs, m, k) && OutAt(chan, fs, k).payload == Cached(fs[m].rtp.payload)
  {
    CacheIsLastSid(chan, fs[..k]);
    hide Run, IsSidPosition;
    var m := LastGood(fs[..k]);
    if OutAt(chan, fs, k).SidOut? && !fs[k].rtp.Sid? {
      assert Replayable(fs, m, k);
    }
  }
}
