/** Downlink side of the TDMA scheduler: picking the primitive for the current frame
    from the queue of pending ones, in modular time. */
module DownlinkQueue {
  import opened Basics
  import opened Tdma

  /** A queued primitive; Wrong stands for any type the scheduler does not transmit. */
  datatype Prim =
    | Data(chanNr: nat, linkId: Octet, fn: Fn, payload: nat)
    | Tch(chanNr: nat, fn: Fn, payload: nat)
    | Wrong(payload: nat)

  /** What the multiframe table expects at a frame. */
  datatype Channel = Channel(chanNr: nat, linkId: Octet)

  /** A primitive at most this many frames ahead is early, anything else is late. */
  const MAX_AHEAD: int := 100

  /** Same channel number, and the same link once the six low bits of its octet are masked off. */
  predicate Matches(p: Prim, want: Channel) {
    match p
    case Data(chanNr, linkId, _, _) => chanNr == want.chanNr && linkId / 64 * 64 == want.linkId
    case Tch(chanNr, _, _) => chanNr == want.chanNr && want.linkId == 0
    case Wrong(_) => false
  }

  datatype Outcome = Outcome(msg: Option<Prim>, rest: seq<Prim>, freed: seq<Prim>, late: nat)

  /** One call of the dequeue function, on values. */
  function Dequeue(q: seq<Prim>, fn: Fn, want: Channel): (r: Outcome) {
    if q == [] then Outcome(None, [], [], 0)
    else if q[0].Wrong? then Outcome(None, q[1..], q[..1], 0)
    else if FnSub(q[0].fn, fn) > MAX_AHEAD then
      var r := Dequeue(q[1..], fn, want);
      Outcome(r.msg, r.rest, [q[0]] + r.freed, 1 + r.late)
    else if FnSub(q[0].fn, fn) > 0 then Outcome(None, q, [], 0)
    else if !Matches(q[0], want) then Outcome(None, q[1..], q[..1], 0)
    else Outcome(Some(q[0]), q[1..], [], 0)
  }

  /** Which primitives are for a channel: speech frames for its main link; data, FACCH blocks
      among it, for the link that the two high bits of the identifier name. */
  lemma MatchesExactlyWhen(chanNr: nat, linkId: Octet, fn: Fn, payload: nat, want: Channel)
    ensures Matches(Tch(chanNr, fn, payload), want) <==> want == Channel(chanNr, 0)
    ensures Matches(Data(chanNr, linkId, fn, payload), want) <==>
              want.chanNr == chanNr && linkId / 64 == want.linkId / 64 && want.linkId % 64 == 0
    ensures !Matches(Wrong(payload), want)
  {
  }

  /** What the head of the queue decides: a mistyped one is freed and nothing is returned, an
      early one stays, one that is due goes and is returned exactly if it is for the channel. */
  lemma HeadDecides(q: seq<Prim>, fn: Fn, want: Channel)
    ensures q == [] ==> Dequeue(q, fn, want) == Outcome(None, [], [], 0)
    ensures q == [] || var r, p := Dequeue(q, fn, want), q[0];
            && (p.Wrong? ==> r == Outcome(None, q[1..], [p], 0))
            && (!p.Wrong? ==>
                  var d := (p.fn + HYPERFRAME - fn) % HYPERFRAME;
                  && (d > 100 ==> r.late == 1 + Dequeue(q[1..], fn, want).late
                                  && r.msg == Dequeue(q[1..], fn, want).msg && r.rest == Dequeue(q[1..], fn, want).rest)
                  && (1 <= d <= 100 ==> r == Outcome(None, q, [], 0))
                  && (d == 0 ==> p.fn == fn && r.rest == q[1..] && r.late == 0))
            && (p.Tch? && p.fn == fn ==> r.msg == if want == Channel(p.chanNr, 0) then Some(p) else None)
            && (p.Data? && p.fn == fn ==>
                  r.msg == if want.chanNr == p.chanNr && p.linkId / 64 == want.linkId / 64 && want.linkId % 64 == 0
                           then Some(p) else None)
  {
    if q == [] { return; }
    if q[0].Tch? { MatchesExactlyWhen(q[0].chanNr, 0, q[0].fn, 0, want); }
    if q[0].Data? { MatchesExactlyWhen(q[0].chanNr, q[0].linkId, q[0].fn, 0, want); }
    if !q[0].Wrong? { FnSumOfSub(q[0].fn, fn); }
  }

  /** Primitives of a channel that is being deactivated. */
  predicate Belongs(p: Prim, chanNr: nat, linkId: Octet)
    requires !p.Wrong?
  {
    p.chanNr == chanNr && (if p.Data? then p.linkId == linkId else linkId == 0)
  }

  function Without(q: seq<Prim>, chanNr: nat, linkId: Octet): (r: seq<Prim>)
    requires forall p :: p in q ==> !p.Wrong?
    ensures forall p :: p in r <==> p in q && !Belongs(p, chanNr, linkId)
  {
    if q == [] then []
    else if Belongs(q[0], chanNr, linkId) then Without(q[1..], chanNr, linkId)
    else [q[0]] + Without(q[1..], chanNr, linkId)
  }

  /** Which primitives the filter removes: data of that channel and link, with all bits of the
      identifier, and speech frames of the channel if its main link goes. */
  lemma FilteredExactlyWhen(q: seq<Prim>, chanNr: nat, linkId: Octet, p: Prim)
    requires (forall x :: x in q ==> !x.Wrong?) && p in q
    ensures p.Data? ==> (p !in Without(q, chanNr, linkId) <==> p.chanNr == chanNr && p.linkId == linkId)
    ensures p.Tch? ==> (p !in Without(q, chanNr, linkId) <==> p.chanNr == chanNr && linkId == 0)
  {
  }

  /** Either step of the filter loop keeps what the whole filter comes to. */
  lemma {:induction false} RemoveOrSkip(q: seq<Prim>, r: seq<Prim>, i: nat, chanNr: nat, linkId: Octet)
    requires forall p :: p in q ==> !p.Wrong?
    requires if r == q then 0 < i <= |q| && !Belongs(q[i - 1], chanNr, linkId)
             else i < |q| && r == q[..i] + q[i + 1..] && Belongs(q[i], chanNr, linkId)
    ensures var j := if r == q then i - 1 else i;
            q[..j] + Without(q[j..], chanNr, linkId) == r[..i] + Without(r[i..], chanNr, linkId)
  {
    hide Belongs;
    if r == q {
      assert q[i - 1..][1..] == q[i..];
      assert q[..i] == q[..i - 1] + [q[i - 1]];
    } else {
      assert r[i..] == q[i..][1..];
      assert r[..i] == q[..i];
    }
  }

  /** What becomes of the two primitives that a traffic channel fetches for a frame. */
  function TchPair(msg1: Option<Prim>, msg2: Option<Prim>): (r: (Option<Prim>, Option<Prim>, bool)) {
    match (msg1, msg2)
    case (None, _) => (None, None, msg2.Some?)
    case (Some(p), None) => if p.Tch? then (msg1, None, false) else (None, msg1, false)
    case (Some(p), Some(q)) =>
      if p.Tch? then (msg1, if q.Tch? then None else msg2, false) else (if q.Tch? then msg2 else None, msg1, false)
  }

  /** Of two primitives a traffic channel uses one of each kind, the first one where both are
      of a kind; alone, the first one is used and the second one lost. */
  lemma PairsByKind(a: Prim, b: Prim)
    requires !a.Wrong? && !b.Wrong?
    ensures a.Tch? && b.Data? ==> TchPair(Some(a), Some(b)) == (Some(a), Some(b), false)
    ensures a.Data? && b.Tch? ==> TchPair(Some(a), Some(b)) == (Some(b), Some(a), false)
    ensures a.Tch? && b.Tch? ==> TchPair(Some(a), Some(b)) == (Some(a), None, false)
    ensures a.Data? && b.Data? ==> TchPair(Some(a), Some(b)) == (None, Some(a), false)
    ensures TchPair(Some(a), None) == if a.Tch? then (Some(a), None, false) else (None, Some(a), false)
    ensures TchPair(None, Some(b)) == (None, None, true) && TchPair(None, None) == (None, None, false)
  {
  }

  class DlQueue {
    var prims: seq<Prim>
    var late: nat          // rate counter of late primitives

    method DequeuePrim(fn: Fn, want: Channel) returns (msg: Option<Prim>)
      modifies this
      ensures msg == Dequeue(old(prims), fn, want).msg
      ensures prims == Dequeue(old(prims), fn, want).rest
      ensures late == old(late) + Dequeue(old(prims), fn, want).late
      ensures old(prims) == [] ==> msg == None && prims == []
      ensures old(prims) != [] && old(prims)[0].Wrong? ==> msg == None && prims == old(prims)[1..]
      ensures old(prims) != [] && !old(prims)[0].Wrong? ==>
                var d := (old(prims)[0].fn + HYPERFRAME - fn) % HYPERFRAME;
                && (d > 100 ==> late > old(late))
                && (1 <= d <= 100 ==> msg == None && prims == old(prims) && late == old(late))
                && (d == 0 ==> prims == old(prims)[1..] && late == old(late))
      ensures old(prims) != [] && old(prims)[0].Tch? && old(prims)[0].fn == fn ==>
                msg == if want == Channel(old(prims)[0].chanNr, 0) then Some(old(prims)[0]) else None
      ensures old(prims) != [] && old(prims)[0].Data? && old(prims)[0].fn == fn ==>
                var p := old(prims)[0];
                msg == if want.chanNr == p.chanNr && p.linkId / 64 == want.linkId / 64 && want.linkId % 64 == 0
                       then Some(p) else None
    {
      hide FnSub, Matches;
      HeadDecides(prims, fn, want);
      while prims != []
        invariant Dequeue(prims, fn, want).msg == Dequeue(old(prims), fn, want).msg
        invariant Dequeue(prims, fn, want).rest == Dequeue(old(prims), fn, want).rest
        invariant late + Dequeue(prims, fn, want).late == old(late) + Dequeue(old(prims), fn, want).late
        decreases |prims|
      {
        var p := prims[0];
        if p.Wrong? {
          prims := prims[1..];
          return None;
        }
        var ahead := FnSub(p.fn, fn);
        if ahead > MAX_AHEAD {
          late := late + 1;
          prims := prims[1..];
          continue;
        }
        if ahead > 0 { return None; }
        prims := prims[1..];
        if !Matches(p, want) { return None; }
        return Some(p);
      }
      return None;
    }

    /** A traffic channel dequeues twice for a frame: a speech frame and a FACCH block.  Of two
        of a kind the second is freed; lost says that the second call was given one that is
        neither used nor freed. */
    method TchDlDequeue(fn: Fn, want: Channel) returns (tch: Option<Prim>, facch: Option<Prim>, lost: bool)
      modifies this
      ensures var a := Dequeue(old(prims), fn, want);
              var b := Dequeue(a.rest, fn, want);
              prims == b.rest && late == old(late) + a.late + b.late && (tch, facch, lost) == TchPair(a.msg, b.msg)
    {
      hide Dequeue;
      tch, facch, lost := None, None, false;
      var msg1 := DequeuePrim(fn, want);
      var msg2 := DequeuePrim(fn, want);
      if msg1.Some? {
        if msg1.value.Tch? {
          tch := msg1;
          if msg2.Some? && !msg2.value.Tch? { facch := msg2; }
        } else {
          facch := msg1;
          if msg2.Some? && msg2.value.Tch? { tch := msg2; }
        }
      } else {
        lost := msg2.Some?;
      }
    }

    /** Removes the pending primitives of one channel. */
    method Filter(chanNr: nat, linkId: Octet)
      requires forall p :: p in prims ==> !p.Wrong?
      modifies this`prims
      ensures prims == Without(old(prims), chanNr, linkId)
      ensures forall p :: p in old(prims) ==>
                (p !in prims <==> p.chanNr == chanNr && if p.Data? then p.linkId == linkId else linkId == 0)
    {
      forall p | p in prims
        ensures p !in Without(prims, chanNr, linkId) <==>
                  p.chanNr == chanNr && if p.Data? then p.linkId == linkId else linkId == 0
      {
        FilteredExactlyWhen(prims, chanNr, linkId, p);
      }
      hide Belongs;
      var i := 0;
      while i < |prims|
        invariant i <= |prims|
        invariant forall p :: p in prims ==> !p.Wrong?
        invariant prims[..i] + Without(prims[i..], chanNr, linkId) == Without(old(prims), chanNr, linkId)
        decreases |prims| - i
      {
        ghost var before := prims;
        if Belongs(prims[i], chanNr, linkId) {
          prims := prims[..i] + prims[i + 1..];
        } else {
          i := i + 1;
        }
        RemoveOrSkip(before, prims, i, chanNr, linkId);
      }
      assert prims[..i] == prims;
    }
  }

  // ----- Absolute time --------------------------------------------------------------

  /** A primitive together with the absolute frame it is due at. */
  datatype Timed = Timed(prim: Prim, due: nat)

  predicate WellFormed(e: Timed) {
    !e.prim.Wrong? && e.prim.fn == FnAt(e.due)
  }

  function Prims(q: seq<Timed>): (r: seq<Prim>)
    ensures |r| == |q|
  {
    if q == [] then [] else [q[0].prim] + Prims(q[1..])
  }

  /** The primitive for frame t: the first one waiting for it, provided it is for this channel. */
  function PrimFor(w: seq<Timed>, t: nat, want: Channel): Option<Prim> {
    if w == [] then None
    else if w[0].due == t then (if Matches(w[0].prim, want) then Some(w[0].prim) else None)
    else PrimFor(w[1..], t, want)
  }

  /** That one taken out, whether it is for this channel or not. */
  function Taken(w: seq<Timed>, t: nat): (r: seq<Timed>) {
    if w == [] then [] else if w[0].due == t then w[1..] else [w[0]] + Taken(w[1..], t)
  }

  /** The queue without the late ones at its head. */
  function OnTime(q: seq<Timed>, t: nat): (r: seq<Timed>)
    ensures r != [] ==> r[0].due >= t
  {
    if q == [] || q[0].due >= t then q else OnTime(q[1..], t)
  }

  /** What the code leaves after frame t: late ones are gone as well. */
  function Remaining(q: seq<Timed>, t: nat): (r: seq<Timed>) {
    var r := OnTime(q, t);
    if r != [] && r[0].due == t then r[1..] else r
  }

  predicate Sorted(q: seq<Timed>) {
    forall i, j :: 0 <= i < j < |q| ==> q[i].due <= q[j].due
  }

  /** The queue as it stands after a call at frame clock, nothing in it due after last. */
  predicate Ready(q: seq<Timed>, clock: nat, last: nat) {
    && Sorted(q)
    && forall i :: 0 <= i < |q| ==> WellFormed(q[i]) && clock <= q[i].due <= last
  }

  /** A call may come at the same frame again or at any later one, up to where modular time
      becomes ambiguous, and finds nothing more than MAX_AHEAD frames ahead. */
  predicate InReach(clock: nat, t: nat, last: nat) {
    clock <= t <= clock + HYPERFRAME - MAX_AHEAD - 1 && last <= t + MAX_AHEAD
  }

  lemma {:induction false} Distance(due: nat, clock: nat, t: nat, last: nat)
    requires clock <= due <= last && InReach(clock, t, last)
    ensures var d := FnSub(FnAt(due), FnAt(t));
            if due < t then d > MAX_AHEAD else d == due - t && d <= MAX_AHEAD
  {
    var d := if due < t then due + HYPERFRAME - t else due - t;
    var q := due / HYPERFRAME - t / HYPERFRAME;
    assert FnAt(due) + HYPERFRAME - FnAt(t)
        == d + (if due < t then 0 - q else 1 - q) * HYPERFRAME;
  }

  lemma {:induction false} StaysReady(q: seq<Timed>, clock: nat, t: nat, last: nat)
    requires Ready(q, clock, last) && clock <= t
    ensures Ready(Remaining(q, t), t, last)
  {
    if q != [] && q[0].due < t { StaysReady(q[1..], clock, t, last); }
  }

  /** One call on the modular queue is a lookup in absolute time. */
  lemma {:induction false} DequeueIsLookup(q: seq<Timed>, clock: nat, t: nat, last: nat, want: Channel)
    requires Ready(q, clock, last) && InReach(clock, t, last)
    ensures Dequeue(Prims(q), FnAt(t), want).msg == PrimFor(q, t, want)
    ensures Dequeue(Prims(q), FnAt(t), want).rest == Prims(Remaining(q, t))
  {
    if q != [] {
      Distance(q[0].due, clock, t, last);
      hide FnSub, FnAt, Matches, InReach;
      assert Prims(q)[0] == q[0].prim && Prims(q)[1..] == Prims(q[1..]);
      if q[0].due < t {
        DequeueIsLookup(q[1..], clock, t, last, want);
      } else if q[0].due > t {
        NoneFor(q, t, want);
      }
    }
  }

  // ----- Runs -----------------------------------------------------------------------

  datatype Event = Enqueue(e: Timed) | Call(t: nat, want: Channel)

  /** What a call at frame t was given. */
  datatype Answer = Answer(t: nat, msg: Option<Prim>)

  /** The code's own run, on frame numbers. */
  function Run(q: seq<Prim>, evs: seq<Event>): (r: seq<Answer>)
    decreases evs
  {
    if evs == [] then []
    else match evs[0]
      case Enqueue(e) => Run(q + [e.prim], evs[1..])
      case Call(t, want) =>
        var d := Dequeue(q, FnAt(t), want);
        [Answer(t, d.msg)] + Run(d.rest, evs[1..])
  }

  /** The same run as it ought to be: each call takes the first primitive still waiting for
      its frame, by order of arrival.  Nothing else ever goes, and time plays no part. */
  function Answers(w: seq<Timed>, evs: seq<Event>): (r: seq<Answer>)
    decreases evs
  {
    if evs == [] then []
    else match evs[0]
      case Enqueue(e) => Answers(w + [e], evs[1..])
      case Call(t, want) => [Answer(t, PrimFor(w, t, want))] + Answers(Taken(w, t), evs[1..])
  }

  /** Primitives come in due order, none for a frame that is over; calls move forward, with
      any number of them at one frame, and nothing is more than MAX_AHEAD frames ahead of a
      call. */
  predicate WellTimed(last: nat, clock: nat, evs: seq<Event>)
    decreases evs
  {
    evs == [] ||
    match evs[0]
    case Enqueue(e) => WellFormed(e) && last <= e.due && clock <= e.due && WellTimed(e.due, clock, evs[1..])
    case Call(t, _) => InReach(clock, t, last) && WellTimed(last, t, evs[1..])
  }

  lemma OneMore(x: Timed, b: seq<Timed>, t: nat, want: Channel)
    requires x.due != t
    ensures PrimFor([x] + b, t, want) == PrimFor(b, t, want) && Taken([x] + b, t) == [x] + Taken(b, t)
  {
    hide Matches;
    assert ([x] + b)[1..] == b;
  }

  lemma {:induction false} Behind(a: seq<Timed>, b: seq<Timed>, t: nat, want: Channel)
    requires forall i :: 0 <= i < |a| ==> a[i].due != t
    ensures PrimFor(a + b, t, want) == PrimFor(b, t, want) && Taken(a + b, t) == a + Taken(b, t)
  {
    hide *;
    if a == [] {
      assert a + b == b && a + Taken(b, t) == Taken(b, t);
    } else {
      var before, x := a[..|a| - 1], a[|a| - 1];
      Behind(before, [x] + b, t, want);
      OneMore(x, b, t, want);
      assert a + b == before + ([x] + b);
      assert a + Taken(b, t) == before + ([x] + Taken(b, t));
    }
  }

  lemma {:induction false} NoneFor(w: seq<Timed>, t: nat, want: Channel)
    requires forall i :: 0 <= i < |w| ==> w[i].due != t
    ensures PrimFor(w, t, want) == None && Taken(w, t) == w
  {
    Behind(w, [], t, want);
    assert w + [] == w;
  }

  /** Primitives for frames that are over do not matter any more. */
  lemma {:induction false} LateDoNotMatter(a: seq<Timed>, b: seq<Timed>, last: nat, clock: nat, evs: seq<Event>)
    requires WellTimed(last, clock, evs) && forall i :: 0 <= i < |a| ==> a[i].due < clock
    ensures Answers(a + b, evs) == Answers(b, evs)
    decreases evs
  {
    hide Matches, PrimFor, Taken, WellFormed;
    if evs != [] {
      match evs[0]
      case Enqueue(e) =>
        assert a + b + [e] == a + (b + [e]);
        LateDoNotMatter(a, b + [e], e.due, clock, evs[1..]);
      case Call(t, want) =>
        Behind(a, b, t, want);
        LateDoNotMatter(a, Taken(b, t), last, t, evs[1..]);
    }
  }

  lemma {:induction false} OnTimeIsTail(q: seq<Timed>, t: nat) returns (late: seq<Timed>)
    ensures q == late + OnTime(q, t) && forall i :: 0 <= i < |late| ==> late[i].due < t
  {
    late := [];
    if q != [] && q[0].due < t {
      var more := OnTimeIsTail(q[1..], t);
      late := [q[0]] + more;
      assert q == [q[0]] + q[1..];
    }
  }

  lemma {:induction false} RemainingIsTaken(q: seq<Timed>, t: nat) returns (late: seq<Timed>)
    requires Sorted(q)
    ensures Taken(q, t) == late + Remaining(q, t) && forall i :: 0 <= i < |late| ==> late[i].due < t
  {
    late := OnTimeIsTail(q, t);
    var r := OnTime(q, t);
    Behind(late, r, t, Channel(0, 0));
    if r != [] && r[0].due != t {
      assert forall i :: 0 <= i < |r| ==> r[i] == q[|late| + i];
      NoneFor(r, t, Channel(0, 0));
    }
  }

  /** Over any run of arrivals and calls, several at one frame among them, each call is given
      exactly the first primitive still waiting for its own frame: nothing early, late, lost
      or out of order. */
  lemma {:induction false} EveryCallGetsItsPrimitive(q: seq<Timed>, last: nat, clock: nat, evs: seq<Event>)
    requires Ready(q, clock, last) && WellTimed(last, clock, evs)
    ensures Run(Prims(q), evs) == Answers(q, evs)
    decreases evs
  {
    if evs == [] { return; }
    hide *;
    if evs[0].Enqueue? {
      UnfoldEnqueue(q, last, clock, evs);
      EveryCallGetsItsPrimitive(q + [evs[0].e], evs[0].e.due, clock, evs[1..]);
    } else {
      var t := evs[0].t;
      UnfoldCall(q, last, clock, evs);
      DequeueIsLookup(q, clock, t, last, evs[0].want);
      EveryCallGetsItsPrimitive(Remaining(q, t), last, t, evs[1..]);
    }
  }

  lemma {:induction false} UnfoldEnqueue(q: seq<Timed>, last: nat, clock: nat, evs: seq<Event>)
    requires evs != [] && evs[0].Enqueue? && Ready(q, clock, last) && WellTimed(last, clock, evs)
    ensures var e := evs[0].e;
            && Ready(q + [e], clock, e.due) && WellTimed(e.due, clock, evs[1..])
            && Run(Prims(q), evs) == Run(Prims(q + [e]), evs[1..])
            && Answers(q, evs) == Answers(q + [e], evs[1..])
  {
    hide Dequeue, WellFormed, Matches, FnAt, PrimFor, InReach, Taken;
    PrimsAppend(q, evs[0].e);
  }

  lemma {:induction false} UnfoldCall(q: seq<Timed>, last: nat, clock: nat, evs: seq<Event>)
    requires evs != [] && evs[0].Call? && Ready(q, clock, last) && WellTimed(last, clock, evs)
    ensures var t, want := evs[0].t, evs[0].want;
            var d := Dequeue(Prims(q), FnAt(t), want);
            && InReach(clock, t, last) && WellTimed(last, t, evs[1..]) && Ready(Remaining(q, t), t, last)
            && Run(Prims(q), evs) == [Answer(t, d.msg)] + Run(d.rest, evs[1..])
            && Answers(q, evs) == [Answer(t, PrimFor(q, t, want))] + Answers(Remaining(q, t), evs[1..])
  {
    var t := evs[0].t;
    StaysReady(q, clock, t, last);
    var late := RemainingIsTaken(q, t);
    hide Dequeue, Matches, FnAt, PrimFor, Taken, Remaining, WellFormed;
    LateDoNotMatter(late, Remaining(q, t), last, t, evs[1..]);
  }

  lemma {:induction false} PrimsAppend(q: seq<Timed>, e: Timed)
    ensures Prims(q + [e]) == Prims(q) + [e.prim]
  {
    if q != [] {
      assert (q + [e])[1..] == q[1..] + [e];
      PrimsAppend(q[1..], e);
    }
  }

  // ----- Which call gets which primitive --------------------------------------------------

  /** Everything the run enqueues. */
  function Arrivals(evs: seq<Event>): seq<Timed> {
    if evs == [] then []
    else (if evs[0].Enqueue? then [evs[0].e] else []) + Arrivals(evs[1..])
  }

  /** The primitives due at frame t, by order of arrival. */
  function DueAt(w: seq<Timed>, t: nat): (r: seq<Prim>) {
    if w == [] then [] else (if w[0].due == t then [w[0].prim] else []) + DueAt(w[1..], t)
  }

  /** The channels asked for by the calls at frame t. */
  function Wants(evs: seq<Event>, t: nat): (r: seq<Channel>) {
    if evs == [] then []
    else (if evs[0].Call? && evs[0].t == t then [evs[0].want] else []) + Wants(evs[1..], t)
  }

  /** What the calls at frame t were given. */
  function GivenAt(answers: seq<Answer>, t: nat): (r: seq<Option<Prim>>) {
    if answers == [] then []
    else (if answers[0].t == t then [answers[0].msg] else []) + GivenAt(answers[1..], t)
  }

  /** One primitive for each call: the j-th for the j-th, if it is for the channel asked for. */
  function OneEach(ps: seq<Prim>, wants: seq<Channel>): (r: seq<Option<Prim>>)
    ensures |r| == |wants|
    ensures forall j :: 0 <= j < |wants| ==>
              r[j] == if j < |ps| && Matches(ps[j], wants[j]) then Some(ps[j]) else None
  {
    seq(|wants|, j requires 0 <= j < |wants| => if j < |ps| && Matches(ps[j], wants[j]) then Some(ps[j]) else None)
  }

  /** Everything due at frame t has arrived when the first call at t comes. */
  predicate InAdvance(evs: seq<Event>, t: nat) {
    evs == [] || (InAdvance(evs[1..], t) && (evs[0].Call? && evs[0].t == t ==> DueAt(Arrivals(evs[1..]), t) == []))
  }

  lemma {:induction false} DueAtAppend(a: seq<Timed>, b: seq<Timed>, t: nat)
    ensures DueAt(a + b, t) == DueAt(a, t) + DueAt(b, t)
  {
    if a == [] {
      assert a + b == b;
    } else {
      assert (a + b)[0] == a[0] && (a + b)[1..] == a[1..] + b;
      DueAtAppend(a[1..], b, t);
      assert DueAt(a + b, t) == (if a[0].due == t then [a[0].prim] else []) + DueAt(a[1..] + b, t);
    }
  }

  /** Taking a primitive for frame u takes the first one due then, and none due elsewhere. */
  lemma {:induction false} TakenIsFirst(w: seq<Timed>, u: nat, t: nat, want: Channel)
    ensures t != u ==> DueAt(Taken(w, u), t) == DueAt(w, t)
    ensures DueAt(w, u) == [] ==> Taken(w, u) == w && PrimFor(w, u, want) == None
    ensures DueAt(w, u) != [] ==>
              && DueAt(Taken(w, u), u) == DueAt(w, u)[1..]
              && PrimFor(w, u, want) == if Matches(DueAt(w, u)[0], want) then Some(DueAt(w, u)[0]) else None
  {
    hide Matches;
    if w != [] {
      if w[0].due == u {
        assert ([w[0].prim] + DueAt(w[1..], u))[1..] == DueAt(w[1..], u);
      } else {
        TakenIsFirst(w[1..], u, t, want);
        var r := [w[0]] + Taken(w[1..], u);
        assert r[1..] == Taken(w[1..], u);
      }
    }
  }

  lemma {:induction false} ShiftOne(ps: seq<Prim>, wants: seq<Channel>, want: Channel)
    ensures OneEach(ps, [want] + wants)
         == [if ps != [] && Matches(ps[0], want) then Some(ps[0]) else None]
            + OneEach(if ps == [] then [] else ps[1..], wants)
  {
    hide Matches;
  }

  lemma {:induction false} AnswersByFrame(w: seq<Timed>, evs: seq<Event>, t: nat)
    requires InAdvance(evs, t)
    ensures GivenAt(Answers(w, evs), t) == OneEach(DueAt(w + Arrivals(evs), t), Wants(evs, t))
    decreases evs
  {
    hide *;
    if evs == [] {
      NoEvents(w, t);
    } else if evs[0].Enqueue? {
      AnswersByFrameEnqueue(w, evs, t);
      AnswersByFrame(w + [evs[0].e], evs[1..], t);
    } else {
      AdvanceTail(evs, t);
      AnswersByFrame(Taken(w, evs[0].t), evs[1..], t);
      CallByFrame(w, evs, t);
    }
  }

  lemma NoEvents(w: seq<Timed>, t: nat)
    ensures GivenAt(Answers(w, []), t) == OneEach(DueAt(w + Arrivals([]), t), Wants([], t)) == []
  {
  }

  lemma AdvanceTail(evs: seq<Event>, t: nat)
    requires evs != [] && InAdvance(evs, t)
    ensures InAdvance(evs[1..], t)
  {
  }

  lemma AnswersByFrameEnqueue(w: seq<Timed>, evs: seq<Event>, t: nat)
    requires evs != [] && evs[0].Enqueue? && InAdvance(evs, t)
    ensures InAdvance(evs[1..], t) && Wants(evs, t) == Wants(evs[1..], t)
    ensures Answers(w, evs) == Answers(w + [evs[0].e], evs[1..])
    ensures w + Arrivals(evs) == w + [evs[0].e] + Arrivals(evs[1..])
  {
    hide PrimFor, Taken, DueAt, Matches;
  }

  lemma {:induction false} CallByFrame(w: seq<Timed>, evs: seq<Event>, t: nat)
    requires evs != [] && evs[0].Call? && InAdvance(evs, t)
    requires var r := Taken(w, evs[0].t);
             GivenAt(Answers(r, evs[1..]), t) == OneEach(DueAt(r + Arrivals(evs[1..]), t), Wants(evs[1..], t))
    ensures GivenAt(Answers(w, evs), t) == OneEach(DueAt(w + Arrivals(evs), t), Wants(evs, t))
  {
    var u, want, more := evs[0].t, evs[0].want, Arrivals(evs[1..]);
    var rest := Wants(evs[1..], t);
    assert Arrivals(evs) == more;
    assert Wants(evs, t) == (if u == t then [want] else []) + rest && [] + rest == rest;
    assert Answers(w, evs) == [Answer(u, PrimFor(w, u, want))] + Answers(Taken(w, u), evs[1..]);
    assert u == t ==> DueAt(more, t) == [];
    hide Wants, Arrivals, Answers, InAdvance;
    GivenFirst(u, PrimFor(w, u, want), Answers(Taken(w, u), evs[1..]), t);
    hide GivenAt;
    TakenIsFirst(w, u, t, want);
    DueAtAppend(w, more, t);
    DueAtAppend(Taken(w, u), more, t);
    hide Taken, PrimFor, DueAt;
    if u == t { ShiftOne(DueAt(w, t), rest, want); }
    hide OneEach, Matches;
    assert DueAt(w, t) + [] == DueAt(w, t) && DueAt(Taken(w, u), t) + [] == DueAt(Taken(w, u), t);
  }

  lemma GivenFirst(u: nat, msg: Option<Prim>, rest: seq<Answer>, t: nat)
    ensures GivenAt([Answer(u, msg)] + rest, t) == (if u == t then [msg] else []) + GivenAt(rest, t)
  {
    assert ([Answer(u, msg)] + rest)[1..] == rest;
  }

  lemma {:induction false} NotDueAt(w: seq<Timed>, t: nat)
    requires forall i :: 0 <= i < |w| ==> w[i].due != t
    ensures DueAt(w, t) == []
  {
    if w != [] { NotDueAt(w[1..], t); }
  }

  /** Every primitive arrives for a frame that no call has been made at yet. */
  predicate AlwaysAhead(clock: nat, evs: seq<Event>)
    decreases evs
  {
    evs == [] ||
    match evs[0]
    case Enqueue(e) => e.due > clock && AlwaysAhead(clock, evs[1..])
    case Call(t, _) => AlwaysAhead(t, evs[1..])
  }

  lemma {:induction false} AheadIsInAdvance(last: nat, clock: nat, evs: seq<Event>, t: nat)
    requires WellTimed(last, clock, evs) && AlwaysAhead(clock, evs)
    ensures InAdvance(evs, t) && (t <= clock ==> DueAt(Arrivals(evs), t) == [])
    decreases evs
  {
    if evs == [] { return; }
    hide *;
    if evs[0].Enqueue? {
      AheadEnqueue(last, clock, evs, t);
      AheadIsInAdvance(evs[0].e.due, clock, evs[1..], t);
    } else {
      AheadCall(last, clock, evs, t);
      AheadIsInAdvance(last, evs[0].t, evs[1..], t);
    }
  }

  lemma AheadEnqueue(last: nat, clock: nat, evs: seq<Event>, t: nat)
    requires evs != [] && evs[0].Enqueue? && WellTimed(last, clock, evs) && AlwaysAhead(clock, evs)
    ensures var e := evs[0].e;
            && e.due > clock && WellTimed(e.due, clock, evs[1..]) && AlwaysAhead(clock, evs[1..])
            && InAdvance(evs, t) == InAdvance(evs[1..], t)
            && (e.due != t ==> DueAt(Arrivals(evs), t) == DueAt(Arrivals(evs[1..]), t))
  {
    hide WellFormed;
    assert Arrivals(evs)[1..] == Arrivals(evs[1..]);
  }

  lemma AheadCall(last: nat, clock: nat, evs: seq<Event>, t: nat)
    requires evs != [] && evs[0].Call? && WellTimed(last, clock, evs) && AlwaysAhead(clock, evs)
    ensures var u := evs[0].t;
            && clock <= u && WellTimed(last, u, evs[1..]) && AlwaysAhead(u, evs[1..])
            && Arrivals(evs) == Arrivals(evs[1..])
            && (InAdvance(evs, t) <==> InAdvance(evs[1..], t) && (u == t ==> DueAt(Arrivals(evs[1..]), t) == []))
  {
  }

  /** Over any well-timed run: the j-th call at a frame takes the j-th of the primitives due
      then, by order of arrival, and is given it exactly if it asks for its channel. */
  lemma {:induction false} CallsTakeInOrder(q: seq<Timed>, last: nat, clock: nat, evs: seq<Event>, t: nat)
    requires Ready(q, clock, last) && WellTimed(last, clock, evs) && InAdvance(evs, t)
    ensures GivenAt(Run(Prims(q), evs), t) == OneEach(DueAt(q + Arrivals(evs), t), Wants(evs, t))
  {
    hide *;
    EveryCallGetsItsPrimitive(q, last, clock, evs);
    AnswersByFrame(q, evs, t);
  }

  /** The dequeue of a traffic channel: with two primitives for its channel due at the frame it
      uses both if they are of different kinds.  One is lost, neither used nor freed, exactly
      if the first one due is for another channel and the second is not. */
  lemma {:induction false} LostExactlyWhen(q: seq<Timed>, clock: nat, t: nat, last: nat, want: Channel)
    requires Ready(q, clock, last) && InReach(clock, t, last)
    ensures var a := Dequeue(Prims(q), FnAt(t), want);
            var b := Dequeue(a.rest, FnAt(t), want);
            var due := DueAt(q, t);
            var (tch, facch, lost) := TchPair(a.msg, b.msg);
            && (lost <==> |due| >= 2 && !Matches(due[0], want) && Matches(due[1], want))
            && (|due| >= 2 && Matches(due[0], want) && Matches(due[1], want) && due[0].Tch? != due[1].Tch? ==>
                  (tch, facch) == if due[0].Tch? then (Some(due[0]), Some(due[1])) else (Some(due[1]), Some(due[0])))
  {
    var r := Remaining(q, t);
    DequeueIsLookup(q, clock, t, last, want);
    StaysReady(q, clock, t, last);
    DequeueIsLookup(r, t, t, last, want);
    var late := RemainingIsTaken(q, t);
    TakenIsFirst(q, t, t, want);
    TakenIsFirst(r, t, t, want);
    NotDueAt(late, t);
    DueAtAppend(late, r, t);
    hide Dequeue, Matches, DueAt, Remaining, Taken, PrimFor, Ready, InReach, Prims, FnAt;
  }

  /** How many of the primitives due at the same frame arrived before the k-th. */
  function Ahead(all: seq<Timed>, k: nat): (r: nat)
    requires k < |all|
    ensures r == |DueAt(all[..k], all[k].due)|
    ensures r < |DueAt(all, all[k].due)| && DueAt(all, all[k].due)[r] == all[k].prim
  {
    AheadIsPlace(all, k);
    |DueAt(all[..k], all[k].due)|
  }

  lemma {:induction false} AheadIsPlace(all: seq<Timed>, k: nat)
    requires k < |all|
    ensures var r := |DueAt(all[..k], all[k].due)|;
            r < |DueAt(all, all[k].due)| && DueAt(all, all[k].due)[r] == all[k].prim
  {
    var t := all[k].due;
    assert all == all[..k] + all[k..];
    DueAtAppend(all[..k], all[k..], t);
    assert DueAt(all[k..], t)[0] == all[k].prim;
  }

  /** A primitive is sent if and only if there are calls enough at its frame to reach it, and
      the call that does asks for its channel. */
  lemma {:induction false} SentExactlyWhen(q: seq<Timed>, last: nat, clock: nat, evs: seq<Event>, k: nat)
    requires Ready(q, clock, last) && WellTimed(last, clock, evs) && k < |q + Arrivals(evs)|
    requires InAdvance(evs, (q + Arrivals(evs))[k].due)
    ensures var all := q + Arrivals(evs);
            var given := GivenAt(Run(Prims(q), evs), all[k].due);
            var wants := Wants(evs, all[k].due);
            var r := Ahead(all, k);
            && |given| == |wants|
            && (r < |given| && given[r] == Some(all[k].prim) <==> r < |wants| && Matches(all[k].prim, wants[r]))
  {
    var all := q + Arrivals(evs);
    CallsTakeInOrder(q, last, clock, evs, all[k].due);
    hide Matches, DueAt, Arrivals, Run, Ready, WellTimed, Wants, GivenAt;
    var r := Ahead(all, k);
  }

  /** So a traffic channel, which calls twice for a frame, gets both its speech frame and its
      FACCH block, in the order they came. */
  lemma {:induction false} TrafficChannelGetsBoth(q: seq<Timed>, last: nat, clock: nat, evs: seq<Event>, t: nat,
                                                  chanNr: nat, linkId: Octet, speech: nat, facch: nat)
    requires Ready(q, clock, last) && WellTimed(last, clock, evs) && InAdvance(evs, t)
    requires Wants(evs, t) == [Channel(chanNr, 0), Channel(chanNr, 0)] && linkId < 64
    requires var a, b := Tch(chanNr, FnAt(t), speech), Data(chanNr, linkId, FnAt(t), facch);
             DueAt(q + Arrivals(evs), t) == [a, b] || DueAt(q + Arrivals(evs), t) == [b, a]
    ensures var due := DueAt(q + Arrivals(evs), t);
            GivenAt(Run(Prims(q), evs), t) == [Some(due[0]), Some(due[1])]
  {
    MatchesExactlyWhen(chanNr, linkId, FnAt(t), speech, Channel(chanNr, 0));
    MatchesExactlyWhen(chanNr, linkId, FnAt(t), facch, Channel(chanNr, 0));
    CallsTakeInOrder(q, last, clock, evs, t);
    hide Run, Ready, WellTimed, Wants, GivenAt, DueAt, Matches, FnAt;
  }

  /** Index of the first primitive due at frame t; -1 if there is none. */
  function FirstDue(w: seq<Timed>, t: nat): (i: int)
    ensures -1 <= i < |w|
    ensures i >= 0 ==> w[i].due == t
    ensures forall k :: 0 <= k < (if i < 0 then |w| else i) ==> w[k].due != t
  {
    if w == [] then -1
    else if w[0].due == t then 0
    else
      var i := FirstDue(w[1..], t);
      if i < 0 then -1 else i + 1
  }

  /** A call looks at that one among the primitives waiting, and at no other. */
  lemma {:induction false} PrimForIsFirstDue(w: seq<Timed>, t: nat, want: Channel)
    ensures var i := FirstDue(w, t);
            && PrimFor(w, t, want) == (if i >= 0 && Matches(w[i].prim, want) then Some(w[i].prim) else None)
            && Taken(w, t) == if i < 0 then w else w[..i] + w[i + 1..]
  {
    hide Matches;
    if w != [] && w[0].due != t {
      PrimForIsFirstDue(w[1..], t, want);
      var i := FirstDue(w[1..], t);
      if i >= 0 {
        assert w[..i + 1] == [w[0]] + w[1..][..i] && w[i + 2..] == w[1..][i + 1..];
      }
    }
  }

  /** A call splits the queue: discarded, handed out, kept, in that order. */
  lemma {:induction false} NothingIsLost(q: seq<Prim>, fn: Fn, want: Channel)
    ensures var r := Dequeue(q, fn, want);
            r.freed + (if r.msg.Some? then [r.msg.value] else []) + r.rest == q
  {
    hide FnSub, Matches;
    if q != [] && !q[0].Wrong? && FnSub(q[0].fn, fn) > MAX_AHEAD {
      NothingIsLost(q[1..], fn, want);
      assert q == [q[0]] + q[1..];
    }
  }

  /** Only late, wrong or mismatched primitives are ever discarded, and everything
      behind the one looked at stays in place. */
  lemma {:induction false} OnlyUselessOnesAreFreed(q: seq<Prim>, fn: Fn, want: Channel)
    ensures var r := Dequeue(q, fn, want);
            && (forall p :: p in r.freed ==> p.Wrong? || FnSub(p.fn, fn) > MAX_AHEAD || (p.fn == fn && !Matches(p, want)))
            && (r.msg.Some? ==> !r.msg.value.Wrong? && r.msg.value.fn == fn && Matches(r.msg.value, want))
  {
    if q != [] && !q[0].Wrong? {
      if FnSub(q[0].fn, fn) > MAX_AHEAD {
        OnlyUselessOnesAreFreed(q[1..], fn, want);
      } else if FnSub(q[0].fn, fn) == 0 {
        FnSumOfSub(q[0].fn, fn);
      }
    }
  }
}
