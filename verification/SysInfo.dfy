/** Scheduling of System Information: on the BCCH by the TC of the multiframe (section
    6.3.1.3 of 3GPP TS 45.002), and on the SACCH of a channel in turn. */
module SysInfo {

  datatype Si = Si1 | Si2 | Si2bis | Si2ter | Si2quater | Si3 | Si4 | Si9 | Si13

  /** What goes out: a message, for SI 2quater which instance of it. */
  datatype Sent = Message(si: Si) | Quater(index: nat)

  /** The next position in turn. */
  function Succ(i: nat, n: nat): (r: nat)
    requires n > 0
    ensures r < n
  {
    (i + 1) % n
  }

  lemma SuccOrZero(i: nat, n: nat)
    requires i < n
    ensures Succ(i, n) == if i + 1 == n then 0 else i + 1
  {
  }

  // ----- BCCH ------------------------------------------------------------------------------

  /** The messages that share the occasions with TC = 4. */
  function Tc4(have: set<Si>, pcu: bool): (s: seq<Si>)
    ensures |s| <= 4 && forall i, j :: 0 <= i < j < |s| ==> s[i] != s[j]
  {
    (if Si2ter in have && Si2bis in have then [Si2ter] else [])
    + (if Si2quater in have && (Si2bis in have || Si2ter in have) then [Si2quater] else [])
    + (if Si13 in have && pcu then [Si13] else [])
    + (if Si9 in have then [Si9] else [])
  }

  /** Which messages share them: 2ter if 2bis, which has TC = 5 then, is needed as well;
      2quater if TC = 5 is taken by either; 13 while the packet control unit is connected; 9. */
  lemma SharesExactlyWhen(have: set<Si>, pcu: bool, si: Si)
    ensures si in Tc4(have, pcu) <==>
              match si
              case Si2ter => {Si2ter, Si2bis} <= have
              case Si2quater => Si2quater in have && {Si2ter, Si2bis} * have != {}
              case Si13 => Si13 in have && pcu
              case Si9 => Si9 in have
              case _ => false
  {
    assert {Si2ter, Si2bis} * have != {} <==> Si2bis in have || Si2ter in have by {
      if Si2bis in have { assert Si2bis in {Si2ter, Si2bis} * have; }
      if Si2ter in have { assert Si2ter in {Si2ter, Si2bis} * have; }
    }
  }

  class BcchScheduler {
    var tc4Ctr: nat
    var si2qIndex: nat

    /** si2qCount is the highest index of an SI 2quater instance. */
    method Si2qIncIndex(si2qCount: nat) returns (s: Sent)
      modifies this`si2qIndex
      ensures s == Quater(old(si2qIndex)) && si2qIndex == Succ(old(si2qIndex), si2qCount + 1)
    {
      s := Quater(si2qIndex);
      si2qIndex := (si2qIndex + 1) % (si2qCount + 1);
    }

    method SysinfoGet(tc: nat, have: set<Si>, pcu: bool, si2qCount: nat) returns (s: Sent)
      requires tc < 8
      modifies this
      ensures var subs := Tc4(have, pcu);
              && tc4Ctr == (if tc == 4 && subs != [] then Succ(old(tc4Ctr), |subs|) else old(tc4Ctr))
              && (tc == 4 && subs != [] && !s.Quater? ==> s == Message(subs[tc4Ctr]))
              && (s.Quater? <==> || (tc == 5 && Si2quater in have && Si2bis !in have && Si2ter !in have)
                                 || (tc == 4 && subs != [] && subs[tc4Ctr] == Si2quater))
      ensures s.Quater? ==> s.index == old(si2qIndex)
      ensures si2qIndex == if s.Quater? then Succ(old(si2qIndex), si2qCount + 1) else old(si2qIndex)
      ensures tc == 0 && Si1 in have ==> s == Message(Si1)
      ensures (tc == 0 && Si1 !in have) || tc == 1 ==> s == Message(Si2)
      ensures tc == 2 || tc == 6 ==> s == Message(Si3)
      ensures tc == 3 || tc == 7 ==> s == Message(Si4)
      ensures tc == 4 && Tc4(have, pcu) == [] ==> s == Message(Si2)
      ensures tc == 5 && !s.Quater? ==>
        s == Message(if Si2bis in have then Si2bis else if Si2ter in have then Si2ter else Si2)
    {
      if tc == 0 {
        return Message(if Si1 in have then Si1 else Si2);
      } else if tc == 1 {
        return Message(Si2);
      } else if tc == 2 || tc == 6 {
        return Message(Si3);
      } else if tc == 3 || tc == 7 {
        return Message(Si4);
      } else if tc == 4 {
        var subs := Tc4(have, pcu);
        if subs == [] { return Message(Si2); }
        tc4Ctr := (tc4Ctr + 1) % |subs|;
        if subs[tc4Ctr] == Si2quater {
          s := Si2qIncIndex(si2qCount);
          return;
        }
        return Message(subs[tc4Ctr]);
      } else {
        if Si2bis in have && Si2ter !in have { return Message(Si2bis); }
        if Si2ter in have && Si2bis !in have { return Message(Si2ter); }
        if Si2bis in have && Si2ter in have { return Message(Si2bis); }
        if Si2quater in have {
          s := Si2qIncIndex(si2qCount);
          return;
        }
        return Message(Si2);
      }
    }
  }

  /** The position after so many steps, n messages taking turns. */
  function Turn(start: nat, n: nat, steps: nat): (c: nat)
    requires n > 0
    ensures steps > 0 || start < n ==> c < n
  {
    if steps == 0 then start else Succ(Turn(start, n, steps - 1), n)
  }

  lemma {:induction false} TurnAt(start: nat, n: nat, k: nat)
    requires n > 0 && start < n && k <= n
    ensures Turn(start, n, k) == if start + k < n then start + k else start + k - n
  {
    hide Succ;
    if k > 0 {
      TurnAt(start, n, k - 1);
      SuccOrZero(Turn(start, n, k - 1), n);
    }
  }

  /** Of any n occasions in a row, exactly one belongs to each of n messages that take
      turns, whatever the counter was before. */
  lemma {:induction false} EveryTurnOnce(start: nat, n: nat, m: nat, k: nat)
    requires n > 0 && m < n && 1 <= k <= n
    ensures var first := Turn(start, n, 1);
            Turn(start, n, k) == m <==> k == 1 + (if m >= first then m - first else m + n - first)
  {
    var first := Turn(start, n, 1);
    TurnShift(start, n, k - 1);
    TurnAt(first, n, k - 1);
  }

  lemma {:induction false} TurnShift(start: nat, n: nat, k: nat)
    requires n > 0
    ensures Turn(start, n, k + 1) == Turn(Turn(start, n, 1), n, k)
  {
    if k > 0 { TurnShift(start, n, k - 1); }
  }

  /** The message of occasion k with TC = 4 while nothing becomes available or vanishes. */
  function Tc4At(have: set<Si>, pcu: bool, ctr: nat, k: nat): Si
    requires k > 0
  {
    var subs := Tc4(have, pcu);
    if subs == [] then Si2 else subs[Turn(ctr, |subs|, k)]
  }

  /** Every message that shares TC = 4 is sent at least once in any four consecutive
      occasions, as the standard demands. */
  lemma {:induction false} SentWithinFour(have: set<Si>, pcu: bool, ctr: nat, si: Si)
    requires si in Tc4(have, pcu)
    ensures exists k :: 1 <= k <= 4 && Tc4At(have, pcu, ctr, k) == si
  {
    var subs := Tc4(have, pcu);
    var m :| 0 <= m < |subs| && subs[m] == si;
    var first := Turn(ctr, |subs|, 1);
    var k := 1 + (if m >= first then m - first else m + |subs| - first);
    EveryTurnOnce(ctr, |subs|, m, k);
    assert Tc4At(have, pcu, ctr, k) == si;
  }

  // ----- A PCU that comes and goes -----------------------------------------------------------

  /** The counter after occasions with TC = 4 at which the PCU was connected or not. */
  function CounterAfter(have: set<Si>, ctr: nat, pcus: seq<bool>): (c: nat)
    ensures pcus != [] && Tc4(have, pcus[|pcus| - 1]) != [] ==> c < |Tc4(have, pcus[|pcus| - 1])|
  {
    if pcus == [] then ctr
    else
      var before := CounterAfter(have, ctr, pcus[..|pcus| - 1]);
      var subs := Tc4(have, pcus[|pcus| - 1]);
      if subs == [] then before else Succ(before, |subs|)
  }

  /** The message of occasion k. */
  function SentAt(have: set<Si>, ctr: nat, pcus: seq<bool>, k: nat): (si: Si)
    requires k < |pcus|
  {
    var subs := Tc4(have, pcus[k]);
    if subs == [] then Si2 else subs[CounterAfter(have, ctr, pcus[..k + 1])]
  }

  /** Connected at so many occasions in a row. */
  predicate Connected(pcus: seq<bool>, from: nat, len: nat) {
    from + len <= |pcus| && forall k :: from <= k < from + len ==> pcus[k]
  }

  lemma {:induction false} CounterWhileConnected(have: set<Si>, ctr: nat, pcus: seq<bool>, from: nat, n: nat)
    requires Connected(pcus, from, n) && Tc4(have, true) != []
    ensures CounterAfter(have, ctr, pcus[..from + n]) == Turn(CounterAfter(have, ctr, pcus[..from]), |Tc4(have, true)|, n)
  {
    hide Tc4, Succ;
    if n > 0 {
      CounterWhileConnected(have, ctr, pcus, from, n - 1);
      assert pcus[..from + n][..from + n - 1] == pcus[..from + n - 1];
    }
  }

  /** Some occasion of the stretch sends SI 13. */
  ghost predicate SendsSi13(have: set<Si>, ctr: nat, pcus: seq<bool>, from: nat, len: nat)
    requires from + len <= |pcus|
  {
    exists k :: from <= k < from + len && SentAt(have, ctr, pcus, k) == Si13
  }

  /** A stretch that long sends it, whatever came before. */
  ghost predicate Suffices(have: set<Si>, len: nat) {
    forall ctr: nat, pcus: seq<bool>, from: nat :: Connected(pcus, from, len) ==> SendsSi13(have, ctr, pcus, from, len)
  }

  lemma {:induction false} SentWhileConnected(have: set<Si>, ctr: nat, pcus: seq<bool>, from: nat, len: nat, k: nat)
    requires Connected(pcus, from, len) && Tc4(have, true) != [] && 1 <= k <= len
    ensures var subs := Tc4(have, true);
            var c := Turn(CounterAfter(have, ctr, pcus[..from]), |subs|, k);
            c < |subs| && SentAt(have, ctr, pcus, from + k - 1) == subs[c]
  {
    CounterWhileConnected(have, ctr, pcus, from, k);
    hide Tc4, Turn;
    assert pcus[from + k - 1];
  }

  lemma {:induction false} LongStretchSends(have: set<Si>, len: nat, ctr: nat, pcus: seq<bool>, from: nat)
    requires Si13 in have && len >= |Tc4(have, true)| && Connected(pcus, from, len)
    ensures SendsSi13(have, ctr, pcus, from, len)
  {
    var subs := Tc4(have, true);
    assert Si13 in subs;
    hide Tc4;
    var m :| 0 <= m < |subs| && subs[m] == Si13;
    var c := CounterAfter(have, ctr, pcus[..from]);
    var first := Turn(c, |subs|, 1);
    var k := 1 + (if m >= first then m - first else m + |subs| - first);
    EveryTurnOnce(c, |subs|, m, k);
    SentWhileConnected(have, ctr, pcus, from, len, k);
    assert SentAt(have, ctr, pcus, from + k - 1) == Si13;
  }

  /** SI 13 is sent in every stretch of so many occasions with the PCU connected, whatever
      came before, if and only if the stretch gives each message that shares them a turn. */
  lemma {:induction false} SufficesExactlyWhen(have: set<Si>, len: nat)
    requires Si13 in have
    ensures Suffices(have, len) <==> len >= |Tc4(have, true)|
  {
    var subs := Tc4(have, true);
    if len >= |subs| {
      forall ctr: nat, pcus: seq<bool>, from: nat | Connected(pcus, from, len)
        ensures SendsSi13(have, ctr, pcus, from, len)
      {
        LongStretchSends(have, len, ctr, pcus, from);
      }
    } else {
      assert Si13 in subs;
      hide Tc4, SentAt;
      var m :| 0 <= m < |subs| && subs[m] == Si13;
      var pcus := seq(len, i => true);
      assert Connected(pcus, 0, len) && pcus[..0] == [];
      forall k | 0 <= k < len
        ensures SentAt(have, m, pcus, k) != Si13
      {
        SentWhileConnected(have, m, pcus, 0, len, k + 1);
        TurnAt(m, |subs|, k + 1);
      }
      assert !SendsSi13(have, m, pcus, 0, len);
    }
  }

  /** Occasion k of a PCU that is connected at n of them and then misses one, again and
      again: how many it has been connected at since it last missed one. */
  function Phase(n: nat, k: nat): (r: nat)
    ensures r <= n
  {
    if k == 0 || Phase(n, k - 1) == n then 0 else Phase(n, k - 1) + 1
  }

  function Flapping(n: nat, occasions: nat): (pcus: seq<bool>)
    ensures |pcus| == occasions
    ensures forall k :: 0 <= k < occasions ==> pcus[k] == (Phase(n, k) < n)
  {
    if occasions == 0 then [] else Flapping(n, occasions - 1) + [Phase(n, occasions - 1) < n]
  }

  /** Where the counter then stands: at every miss right before SI 13, which comes last but
      one of the n + 1 messages. */
  function FlappingCounter(n: nat, r: nat): (c: nat)
    requires n > 0 && r <= n
  {
    if r == 0 then n - 1 else if r == 1 then n else r - 2
  }

  lemma {:induction false} WithAndWithout(have: set<Si>)
    requires Si9 in have && Si13 in have
    ensures var n := |Tc4(have, false)|;
            && n > 0 && |Tc4(have, true)| == n + 1 && Tc4(have, true)[n - 1] == Si13
            && Si13 !in Tc4(have, false)
  {
  }

  lemma {:induction false} FlappingStep(n: nat, r: nat)
    requires n > 0 && r <= n
    ensures Succ(FlappingCounter(n, r), if r < n then n + 1 else n) == FlappingCounter(n, if r == n then 0 else r + 1)
  {
    if r < n {
      SuccOrZero(FlappingCounter(n, r), n + 1);
    } else if n > 1 {
      SuccOrZero(FlappingCounter(n, r), n);
    } else {
      assert Succ(1, 1) == 0;
    }
    hide Succ;
  }

  lemma {:induction false} CounterOfFlapping(have: set<Si>, n: nat, occasions: nat)
    requires n > 0 && |Tc4(have, false)| == n && |Tc4(have, true)| == n + 1
    ensures CounterAfter(have, n - 1, Flapping(n, occasions)) == FlappingCounter(n, Phase(n, occasions))
  {
    hide *;
    if occasions == 0 {
      FlappingEmpty(have, n);
    } else {
      CounterOfFlapping(have, n, occasions - 1);
      FlappingOnce(n, occasions);
      FlappingStep(n, Phase(n, occasions - 1));
      CounterSnoc(have, n - 1, Flapping(n, occasions - 1), Phase(n, occasions - 1) < n);
    }
  }

  lemma FlappingEmpty(have: set<Si>, n: nat)
    requires n > 0
    ensures CounterAfter(have, n - 1, Flapping(n, 0)) == FlappingCounter(n, Phase(n, 0))
  {
  }

  lemma FlappingOnce(n: nat, occasions: nat)
    requires occasions > 0
    ensures Flapping(n, occasions) == Flapping(n, occasions - 1) + [Phase(n, occasions - 1) < n]
    ensures Phase(n, occasions) == if Phase(n, occasions - 1) == n then 0 else Phase(n, occasions - 1) + 1
  {
  }

  lemma CounterSnoc(have: set<Si>, ctr: nat, pcus: seq<bool>, pcu: bool)
    requires Tc4(have, pcu) != []
    ensures CounterAfter(have, ctr, pcus + [pcu]) == Succ(CounterAfter(have, ctr, pcus), |Tc4(have, pcu)|)
  {
    hide Tc4, Succ;
    assert (pcus + [pcu])[..|pcus|] == pcus;
  }

  /** Stretches shorter by one, with single misses between them, can starve SI 13 for ever
      in every cell that also has SI 9. */
  lemma {:induction false} ShortStretchesStarve(have: set<Si>, occasions: nat, k: nat)
    requires Si9 in have && Si13 in have && k < occasions
    ensures var n := |Tc4(have, false)|;
            && n > 0 && |Tc4(have, true)| == n + 1
            && SentAt(have, n - 1, Flapping(n, occasions), k) != Si13
  {
    WithAndWithout(have);
    var n := |Tc4(have, false)|;
    CounterOfFlapping(have, n, k + 1);
    FlappingPrefix(n, k + 1, occasions);
    var subs := Tc4(have, true);
    assert forall i, j :: 0 <= i < j < |subs| ==> subs[i] != subs[j];
    hide Tc4, Flapping, CounterAfter;
  }

  lemma {:induction false} FlappingPrefix(n: nat, k: nat, occasions: nat)
    requires k <= occasions
    ensures Flapping(n, occasions)[..k] == Flapping(n, k)
  {
  }

  // ----- SACCH -----------------------------------------------------------------------------

  /** The valid ones of n types from start on, going round. */
  function Ring(valid: seq<bool>, start: nat, n: nat): (r: seq<nat>)
    requires start < |valid|
    ensures forall i :: 0 <= i < |r| ==> r[i] < |valid| && valid[r[i]]
    decreases n
  {
    if n == 0 then []
    else (if valid[start] then [start] else []) + Ring(valid, Succ(start, |valid|), n - 1)
  }

  /** A whole round, starting behind the type sent last. */
  function Round(valid: seq<bool>, last: nat): (r: seq<nat>)
    requires last < |valid|
  {
    Ring(valid, Succ(last, |valid|), |valid|)
  }

  class Sacch {
    var valid: seq<bool>       // by type of system information
    var last: nat

    ghost predicate Valid()
      reads this
    {
      last < |valid|
    }

    /** The type to send: the first valid one behind the last one sent. */
    method SacchGet() returns (si: int)
      requires Valid()
      modifies this`last
      ensures Valid()
      ensures var round := Round(valid, old(last));
              if round == [] then si == -1 && last == old(last) else si == last == round[0]
    {
      ghost var was := last;
      var next := last;
      for i := 0 to |valid|
        invariant last == was && next == Turn(was, |valid|, i)
        invariant Round(valid, was) == Ring(valid, Succ(next, |valid|), |valid| - i)
      {
        next := (next + 1) % |valid|;
        if !valid[next] { continue; }
        last := next;
        return next;
      }
      return -1;
    }
  }

  /** The types that so many calls in a row send. */
  function Calls(valid: seq<bool>, last: nat, n: nat): (r: seq<nat>)
    requires last < |valid|
    decreases n
  {
    if n == 0 || Round(valid, last) == [] then []
    else [Round(valid, last)[0]] + Calls(valid, Round(valid, last)[0], n - 1)
  }

  lemma {:induction false} RingJoin(valid: seq<bool>, start: nat, m: nat, n: nat)
    requires start < |valid|
    ensures Ring(valid, start, m + n) == Ring(valid, start, m) + Ring(valid, Turn(start, |valid|, m), n)
    decreases m
  {
    if m > 0 {
      RingJoin(valid, Succ(start, |valid|), m - 1, n);
      TurnShift(start, |valid|, m - 1);
      assert m + n - 1 == m - 1 + n;
    }
  }

  /** How many steps from start on the first valid type lies. */
  function Steps(valid: seq<bool>, start: nat, n: nat): (k: nat)
    requires start < |valid| && Ring(valid, start, n) != []
    ensures k < n
    ensures Turn(start, |valid|, k) == Ring(valid, start, n)[0]
    ensures Ring(valid, start, k + 1) == [Ring(valid, start, n)[0]]
    decreases n
  {
    if valid[start] then
      assert Ring(valid, start, 1) == [start] + Ring(valid, Succ(start, |valid|), 0);
      0
    else
      var k := Steps(valid, Succ(start, |valid|), n - 1);
      TurnShift(start, |valid|, k);
      k + 1
  }

  /** After a call the round continues where it was, the type just sent now at its end. */
  lemma {:induction false} RoundRotates(valid: seq<bool>, last: nat)
    requires last < |valid| && Round(valid, last) != []
    ensures var round := Round(valid, last);
            round[0] < |valid| && Round(valid, round[0]) == round[1..] + [round[0]]
  {
    var n, start := |valid|, Succ(last, |valid|);
    RoundIsRing(valid, last, start);
    hide *;
    var k := Steps(valid, start, n);
    var first, next := Ring(valid, start, n)[0], Turn(start, n, k + 1);
    TurnNext(start, n, k);
    RoundIsRing(valid, first, next);
    RingRotates(valid, start, k, first);
  }

  lemma {:induction false} RingRotates(valid: seq<bool>, start: nat, k: nat, first: nat)
    requires start < |valid| && k < |valid| && Ring(valid, start, k + 1) == [first]
    ensures var n, next := |valid|, Turn(start, |valid|, k + 1);
            Ring(valid, start, n) != [] && Ring(valid, next, n) == Ring(valid, start, n)[1..] + [first]
  {
    hide *;
    var n, next, rest := |valid|, Turn(start, |valid|, k + 1), |valid| - (k + 1);
    RingJoin(valid, start, k + 1, rest);
    TurnTwice(start, n, k + 1, rest);
    TurnAt(start, n, n);
    RingJoin(valid, next, rest, k + 1);
    assert k + 1 + rest == n && rest + (k + 1) == n;
    assert ([first] + Ring(valid, next, rest))[1..] == Ring(valid, next, rest);
  }

  lemma TurnNext(start: nat, n: nat, k: nat)
    requires n > 0
    ensures Turn(start, n, k + 1) == Succ(Turn(start, n, k), n)
  {
  }

  lemma RoundIsRing(valid: seq<bool>, last: nat, next: nat)
    requires last < |valid| && next == Succ(last, |valid|)
    ensures Round(valid, last) == Ring(valid, next, |valid|)
  {
  }

  lemma {:induction false} TurnTwice(start: nat, n: nat, i: nat, j: nat)
    requires n > 0
    ensures Turn(Turn(start, n, i), n, j) == Turn(start, n, i + j)
  {
    if j > 0 {
      TurnTwice(start, n, i, j - 1);
      assert i + j - 1 == i + (j - 1);
    }
  }

  lemma {:induction false} CallsFollowRound(valid: seq<bool>, last: nat, n: nat)
    requires last < |valid| && n <= |Round(valid, last)|
    ensures Calls(valid, last, n) == Round(valid, last)[..n]
    decreases n
  {
    var round := Round(valid, last);
    if n > 0 {
      RoundRotates(valid, last);
      CallsFollowRound(valid, round[0], n - 1);
      assert Round(valid, round[0])[..n - 1] == round[1..n];
      hide Round;
      assert round[..n] == [round[0]] + round[1..n];
    }
  }

  predicate Holds(valid: seq<bool>, start: nat, n: nat, si: nat)
    requires start < |valid| && si < |valid|
  {
    valid[si] && exists i :: 0 <= i < n && Turn(start, |valid|, i) == si
  }

  lemma {:induction false} HoldsNext(valid: seq<bool>, start: nat, n: nat, si: nat)
    requires start < |valid| && si < |valid| && n > 0
    ensures Holds(valid, start, n, si) <==>
            (valid[start] && si == start) || Holds(valid, Succ(start, |valid|), n - 1, si)
  {
    hide Succ;
    var next := Succ(start, |valid|);
    forall i | 0 <= i < n - 1
      ensures Turn(next, |valid|, i) == Turn(start, |valid|, i + 1)
    {
      TurnShift(start, |valid|, i);
    }
    assert Turn(start, |valid|, 0) == start;
    if i :| 1 <= i < n && Turn(start, |valid|, i) == si {
      assert Turn(next, |valid|, i - 1) == si;
    }
  }

  lemma {:induction false} NotAgain(valid: seq<bool>, start: nat, n: nat)
    requires start < |valid| && 0 < n <= |valid|
    ensures !Holds(valid, Succ(start, |valid|), n - 1, start)
  {
    var next := Succ(start, |valid|);
    forall i | 0 <= i < n - 1
      ensures Turn(next, |valid|, i) != start
    {
      TurnShift(start, |valid|, i);
      TurnAt(start, |valid|, i + 1);
    }
  }

  /** A ring of no more than one round holds each valid type it passes once. */
  lemma {:induction false} RingHolds(valid: seq<bool>, start: nat, n: nat, si: nat)
    requires start < |valid| && si < |valid| && n <= |valid|
    ensures si in Ring(valid, start, n) <==> Holds(valid, start, n, si)
    ensures forall i, j :: 0 <= i < j < |Ring(valid, start, n)| ==> Ring(valid, start, n)[i] != Ring(valid, start, n)[j]
    decreases n
  {
    if n > 0 {
      var next := Succ(start, |valid|);
      RingHolds(valid, next, n - 1, si);
      RingHolds(valid, next, n - 1, start);
      HoldsNext(valid, start, n, si);
      NotAgain(valid, start, n);
      hide Holds, Succ;
      assert start !in Ring(valid, next, n - 1);
    }
  }

  /** As many calls as there are valid types send each valid type, and each just once. */
  lemma {:induction false} EveryTypeOncePerRound(valid: seq<bool>, last: nat, si: nat)
    requires last < |valid| && si < |valid|
    ensures var sent := Calls(valid, last, |Round(valid, last)|);
            && (si in sent <==> valid[si])
            && forall i, j :: 0 <= i < j < |sent| ==> sent[i] != sent[j]
  {
    var n, start := |valid|, Succ(last, |valid|);
    CallsFollowRound(valid, last, |Round(valid, last)|);
    RingHolds(valid, start, n, si);
    var i := if si >= start then si - start else si + n - start;
    TurnAt(start, n, i);
    assert Turn(start, n, i) == si;
  }
}
