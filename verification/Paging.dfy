/** The paging queues: one per paging group, each holding identities to page and ready
    MAC blocks from the PCU, and the choice of what one paging block carries. */
module Paging {
  import opened Basics
  import opened PagingMessage

  /** identity holds nine octets: the length and up to eight more, the rest zero. */
  datatype Record =
    | Normal(expires: int, chan: Octet, identity: seq<Octet>)
    | MacBlock(msg: seq<Octet>, confirm: bool, id: nat)

  const QUEUES: nat := 81
  const MAX_RECORDS: nat := 4

  predicate ProperRecord(r: Record) {
    match r
    case Normal(_, _, identity) =>
      && |identity| == MAX_IDENTITY + 1 && identity[0] <= MAX_IDENTITY
      && (forall i :: identity[0] < i <= MAX_IDENTITY ==> identity[i] == 0)
    case MacBlock(msg, _, _) => |msg| == MACBLOCK_LEN
  }

  predicate ProperQueue(q: seq<Record>) {
    forall i :: 0 <= i < |q| ==> ProperRecord(q[i])
  }

  predicate Imsi(r: Record) {
    r.Normal? && |r.identity| >= 2 && IsImsi(r.identity)
  }

  // ----- Sorting -------------------------------------------------------------------------

  /** The records that are IMSIs, or those that are not, in order. */
  function Those(rs: seq<Record>, imsi: bool): (r: seq<Record>) {
    if rs == [] then []
    else (if Imsi(rs[0]) == imsi then [rs[0]] else []) + Those(rs[1..], imsi)
  }

  /** TMSIs ahead of IMSIs, otherwise in the order they came. */
  function Sorted(rs: seq<Record>): (r: seq<Record>) {
    Those(rs, false) + Those(rs, true)
  }

  lemma {:induction false} ThoseMembers(rs: seq<Record>, imsi: bool)
    ensures forall x :: x in Those(rs, imsi) <==> x in rs && Imsi(x) == imsi
  {
    hide Imsi;
    if rs != [] { ThoseMembers(rs[1..], imsi); }
  }

  lemma {:induction false} ThoseFront(rs: seq<Record>, imsi: bool)
    ensures Those(rs, imsi) == if rs == [] then []
                               else (if Imsi(rs[0]) == imsi then [rs[0]] else []) + Those(rs[1..], imsi)
  {
  }

  lemma Regrouped(a: seq<Record>, b: seq<Record>, c: seq<Record>)
    ensures a + (b + c) == a + b + c
  {
  }

  lemma {:induction false} ThoseAppend(a: seq<Record>, b: seq<Record>, imsi: bool)
    ensures Those(a + b, imsi) == Those(a, imsi) + Those(b, imsi)
  {
    hide *;
    ThoseFront(a, imsi);
    if a == [] {
      assert a + b == b;
      assert Those(a, imsi) + Those(b, imsi) == Those(b, imsi);
    } else {
      ThoseFront(a + b, imsi);
      assert (a + b)[0] == a[0] && (a + b)[1..] == a[1..] + b;
      ThoseAppend(a[1..], b, imsi);
      Regrouped(if Imsi(a[0]) == imsi then [a[0]] else [], Those(a[1..], imsi), Those(b, imsi));
    }
  }

  lemma {:induction false} ThoseSame(rs: seq<Record>, imsi: bool)
    requires forall i :: 0 <= i < |rs| ==> Imsi(rs[i]) == imsi
    ensures Those(rs, imsi) == rs && Those(rs, !imsi) == []
  {
    hide Imsi;
    if rs != [] { ThoseSame(rs[1..], imsi); }
  }

  lemma {:induction false} ThoseSizes(rs: seq<Record>)
    ensures |Those(rs, false)| + |Those(rs, true)| == |rs|
    ensures multiset(Sorted(rs)) == multiset(rs)
  {
    hide Imsi;
    if rs != [] {
      ThoseSizes(rs[1..]);
      assert rs == [rs[0]] + rs[1..];
    }
  }

  lemma {:induction false} PairSwap(x: Record, y: Record, b: seq<Record>, imsi: bool)
    requires Imsi(x) && !Imsi(y)
    ensures Those([x, y] + b, imsi) == Those([y, x] + b, imsi)
  {
    hide Imsi;
    assert ([x, y] + b)[1..] == [y] + b && ([y] + b)[1..] == b;
    assert ([y, x] + b)[1..] == [x] + b && ([x] + b)[1..] == b;
  }

  /** Swapping an IMSI with a non-IMSI right behind it changes neither selection. */
  lemma {:induction false} SwapKeeps(rs: seq<Record>, j: nat, imsi: bool)
    requires j + 1 < |rs| && Imsi(rs[j]) && !Imsi(rs[j + 1])
    ensures Those(rs[j := rs[j + 1]][j + 1 := rs[j]], imsi) == Those(rs, imsi)
  {
    var t := rs[j := rs[j + 1]][j + 1 := rs[j]];
    var a, x, y, b := rs[..j], rs[j], rs[j + 1], rs[j + 2..];
    assert rs == a + ([x, y] + b) && t == a + ([y, x] + b);
    PairSwap(x, y, b, imsi);
    ThoseAppend(a, [x, y] + b, imsi);
    ThoseAppend(a, [y, x] + b, imsi);
  }

  /** From index n on everything behind an IMSI is an IMSI. */
  predicate TailSorted(rs: seq<Record>, n: int) {
    forall i, j :: 0 <= i < j < |rs| && n <= j && Imsi(rs[i]) ==> Imsi(rs[j])
  }

  /** Bubble sort in its pass i, about to compare j with j + 1. */
  predicate Bubbling(rs: seq<Record>, orig: seq<Record>, i: int, j: nat) {
    && |rs| == |orig| && -1 <= i <= |rs| - 2 && j <= i + 1
    && Those(rs, false) == Those(orig, false) && Those(rs, true) == Those(orig, true)
    && TailSorted(rs, i + 2)
    && (forall k :: 0 <= k < j && Imsi(rs[k]) ==> Imsi(rs[j]))
  }

  function Compared(rs: seq<Record>, j: nat): (r: seq<Record>)
    requires j + 1 < |rs|
  {
    if Imsi(rs[j]) && !Imsi(rs[j + 1]) then rs[j := rs[j + 1]][j + 1 := rs[j]] else rs
  }

  lemma {:induction false} CompareStep(rs: seq<Record>, orig: seq<Record>, i: int, j: nat)
    requires Bubbling(rs, orig, i, j) && j <= i
    ensures Bubbling(Compared(rs, j), orig, i, j + 1)
  {
    if Imsi(rs[j]) && !Imsi(rs[j + 1]) {
      SwapKeeps(rs, j, false);
      SwapKeeps(rs, j, true);
    }
    hide Imsi, Those;
  }

  lemma {:induction false} NextPass(rs: seq<Record>, orig: seq<Record>, i: int)
    requires i >= 0 && Bubbling(rs, orig, i, i + 1)
    ensures Bubbling(rs, orig, i - 1, 0)
  {
    hide Imsi, Those;
  }

  /** Bubble sort, in place: TMSIs first, and otherwise the order is kept. */
  method SortTmsiImsi(pr: array<Record>, n: nat)
    requires n <= pr.Length
    modifies pr
    ensures pr[..n] == Sorted(old(pr[..n])) && pr[n..] == old(pr[n..])
  {
    hide Imsi, Those;
    if n < 2 {
      SortedShort(pr[..n]);
      return;
    }
    ghost var orig := pr[..n];
    var i := n - 2;
    while i >= 0
      invariant -1 <= i <= n - 2
      invariant pr[n..] == old(pr[n..])
      invariant Bubbling(pr[..n], orig, i, 0)
    {
      hide Bubbling;
      var j := 0;
      while j <= i
        invariant 0 <= j <= i + 1
        invariant pr[n..] == old(pr[n..])
        invariant Bubbling(pr[..n], orig, i, j)
      {
        CompareStep(pr[..n], orig, i, j);
        ghost var next := Compared(pr[..n], j);
        if Imsi(pr[j]) && !Imsi(pr[j + 1]) {
          pr[j], pr[j + 1] := pr[j + 1], pr[j];
        }
        assert pr[..n] == next;
        j := j + 1;
      }
      NextPass(pr[..n], orig, i);
      i := i - 1;
    }
    SortedWhenTailSorted(pr[..n]);
  }

  lemma {:induction false} SortedShort(rs: seq<Record>)
    requires |rs| < 2
    ensures Sorted(rs) == rs
  {
    if rs != [] { assert Those(rs[1..], false) == Those(rs[1..], true) == []; }
  }

  lemma {:induction false} SortedWhenTailSorted(rs: seq<Record>)
    requires TailSorted(rs, 1)
    ensures Sorted(rs) == rs
  {
    if rs != [] {
      if Imsi(rs[0]) {
        ThoseSame(rs, true);
      } else {
        assert TailSorted(rs[1..], 1) by {
          assert forall k :: 0 <= k < |rs| - 1 ==> rs[1..][k] == rs[k + 1];
        }
        SortedWhenTailSorted(rs[1..]);
        assert Those(rs, false) == [rs[0]] + Those(rs[1..], false);
      }
    }
  }

  // ----- What one block takes from a queue -------------------------------------------------

  /** Leading normal records a block looks at. */
  function Leading(q: seq<Record>, limit: nat): (n: nat)
    ensures n <= |q| && n <= limit
    ensures forall i :: 0 <= i < n ==> q[i].Normal?
    ensures n < limit && n < |q| ==> q[n].MacBlock?
  {
    if limit == 0 || q == [] || q[0].MacBlock? then 0 else 1 + Leading(q[1..], limit - 1)
  }

  /** A MAC block among the records looked at goes out instead of them. */
  predicate TakesMacBlock(q: seq<Record>) {
    var n := Leading(q, MAX_RECORDS);
    n < MAX_RECORDS && n < |q|
  }

  /** The records looked at, TMSIs first. */
  function Candidates(q: seq<Record>): (s: seq<Record>) {
    Sorted(q[..Leading(q, MAX_RECORDS)])
  }

  /** How many of n candidates a message can carry when imsis of them are IMSIs. */
  function Carried(n: nat, imsis: nat): (k: nat)
    ensures n > 0 ==> 0 < k
    ensures n <= 4 ==> k <= n
  {
    if n == 4 && imsis == 0 then 4 else if n >= 3 && imsis <= 1 then 3 else if n <= 1 then n else 2
  }

  function Imsis(s: seq<Record>): (n: nat) {
    |Those(s, true)|
  }

  /** The records a block without MAC block sends. */
  function Sent(q: seq<Record>): (s: seq<Record>) {
    var c := Candidates(q);
    c[..SentCount(c)]
  }

  function SentCount(c: seq<Record>): (k: nat)
    ensures k <= |c|
  {
    var k := Carried(|c|, Imsis(c));
    if k <= |c| then k else |c|
  }

  function Reversed(s: seq<Record>): (r: seq<Record>)
    ensures |r| == |s|
  {
    if s == [] then [] else Reversed(s[1..]) + [s[0]]
  }

  lemma {:induction false} ReversedSame(s: seq<Record>)
    ensures multiset(Reversed(s)) == multiset(s)
  {
    if s != [] {
      ReversedSame(s[1..]);
      assert s == [s[0]] + s[1..];
    }
  }

  /** The records that stay, or those that go, at time now. */
  function Expired(s: seq<Record>, now: int, gone: bool): (r: seq<Record>)
    requires forall i :: 0 <= i < |s| ==> s[i].Normal?
    ensures forall x :: x in r ==> x in s && x.Normal? && (x.expires <= now <==> gone)
  {
    if s == [] then []
    else if s[0].expires <= now <==> gone then [s[0]] + Expired(s[1..], now, gone)
    else Expired(s[1..], now, gone)
  }

  lemma {:induction false} CandidatesAreNormal(q: seq<Record>)
    ensures forall i :: 0 <= i < |Candidates(q)| ==> Candidates(q)[i].Normal? && Candidates(q)[i] in q
    ensures |Candidates(q)| == Leading(q, MAX_RECORDS)
  {
    var t := q[..Leading(q, MAX_RECORDS)];
    ThoseSizes(t);
    ThoseMembers(t, false);
    ThoseMembers(t, true);
    forall i | 0 <= i < |Candidates(q)|
      ensures Candidates(q)[i].Normal? && Candidates(q)[i] in q
    {
      assert Candidates(q)[i] in Those(t, false) || Candidates(q)[i] in Those(t, true);
      assert Candidates(q)[i] in t;
    }
  }

  /** The queue after a block was made from it at time now. */
  function After(q: seq<Record>, now: int): (r: seq<Record>) {
    var n := Leading(q, MAX_RECORDS);
    if TakesMacBlock(q) then Reversed(q[..n]) + q[n + 1..]
    else
      CandidatesAreNormal(q);
      var c := Candidates(q);
      Reversed(c[|Sent(q)|..]) + q[n..] + Expired(Sent(q), now, false)
  }

  /** The records that leave with it. */
  function Removed(q: seq<Record>, now: int): (r: seq<Record>) {
    var n := Leading(q, MAX_RECORDS);
    if TakesMacBlock(q) then [q[n]]
    else
      CandidatesAreNormal(q);
      Expired(Sent(q), now, true)
  }

  lemma {:induction false} ExpiredFront(s: seq<Record>, now: int, gone: bool)
    requires s != [] && forall i :: 0 <= i < |s| ==> s[i].Normal?
    ensures Expired(s, now, gone) ==
              (if s[0].expires <= now <==> gone then [s[0]] else []) + Expired(s[1..], now, gone)
  {
  }

  lemma OneMore(x: Record, a: seq<Record>, b: seq<Record>, s: seq<Record>)
    requires multiset(a) + multiset(b) == multiset(s)
    ensures multiset([x] + a) + multiset([] + b) == multiset([x] + s)
    ensures multiset([] + a) + multiset([x] + b) == multiset([x] + s)
  {
    assert [] + a == a && [] + b == b;
  }

  lemma {:induction false} ExpiredSplit(s: seq<Record>, now: int)
    requires forall i :: 0 <= i < |s| ==> s[i].Normal?
    ensures multiset(Expired(s, now, false)) + multiset(Expired(s, now, true)) == multiset(s)
  {
    hide *;
    if s == [] {
      ExpiredNone(now);
    } else {
      ExpiredSplit(s[1..], now);
      ExpiredFront(s, now, false);
      ExpiredFront(s, now, true);
      OneMore(s[0], Expired(s[1..], now, false), Expired(s[1..], now, true), s[1..]);
      assert s == [s[0]] + s[1..];
    }
  }

  lemma ExpiredNone(now: int)
    ensures Expired([], now, false) == Expired([], now, true) == []
  {
  }

  /** Conservation: every record of the queue is still there afterwards, or is the MAC
      block that was sent, or was sent and had expired. */
  lemma {:induction false} NothingIsLost(q: seq<Record>, now: int)
    ensures multiset(After(q, now)) + multiset(Removed(q, now)) == multiset(q)
  {
    if TakesMacBlock(q) {
      TakenOut(q, Leading(q, MAX_RECORDS));
      ReversedSame(q[..Leading(q, MAX_RECORDS)]);
      hide Leading, Reversed;
    } else {
      CandidatesAreNormal(q);
      ThoseSizes(q[..Leading(q, MAX_RECORDS)]);
      SplitParts(q, Leading(q, MAX_RECORDS));
      hide Leading, Those, TakesMacBlock;
      SentOrKept(Candidates(q), |Sent(q)|, now);
      hide Candidates, Sent, Expired, Reversed;
    }
  }

  lemma SentOrKept(c: seq<Record>, k: nat, now: int)
    requires k <= |c| && forall i :: 0 <= i < |c| ==> c[i].Normal?
    ensures multiset(Reversed(c[k..])) + multiset(Expired(c[..k], now, false)) + multiset(Expired(c[..k], now, true))
         == multiset(c)
  {
    ExpiredSplit(c[..k], now);
    SplitParts(c, k);
    ReversedSame(c[k..]);
    hide Expired, Reversed;
  }

  lemma TakenOut(s: seq<Record>, k: nat)
    requires k < |s|
    ensures s == s[..k] + ([s[k]] + s[k + 1..])
    ensures multiset(s) == multiset(s[..k] + s[k + 1..]) + multiset([s[k]])
  {
    assert s == s[..k] + ([s[k]] + s[k + 1..]);
  }

  lemma SplitParts(s: seq<Record>, k: nat)
    requires k <= |s|
    ensures multiset(s) == multiset(s[..k]) + multiset(s[k..])
  {
    assert s == s[..k] + s[k..];
  }

  // ----- Counting records ------------------------------------------------------------------

  /** A normal record, for the given identity if there is one. */
  predicate Pages(r: Record, id: Option<seq<Octet>>) {
    r.Normal? && (id.None? || r.identity == id.value)
  }

  function Count(q: seq<Record>, id: Option<seq<Octet>>): (n: nat) {
    if q == [] then 0 else (if Pages(q[0], id) then 1 else 0) + Count(q[1..], id)
  }

  /** No identity is queued twice. */
  ghost predicate NoTwins(q: seq<Record>) {
    forall id :: Count(q, Some(id)) <= 1
  }

  lemma {:induction false} CountAppend(a: seq<Record>, b: seq<Record>, id: Option<seq<Octet>>)
    ensures Count(a + b, id) == Count(a, id) + Count(b, id)
  {
    if a == [] {
      assert a + b == b;
    } else {
      assert (a + b)[1..] == a[1..] + b;
      CountAppend(a[1..], b, id);
    }
  }

  lemma RestSame(a: seq<Record>, b: seq<Record>, k: nat)
    requires multiset(a) == multiset(b) && a != [] && k < |b| && b[k] == a[0]
    ensures multiset(a[1..]) == multiset(b[..k] + b[k + 1..])
  {
    TakenOut(b, k);
    assert a == [a[0]] + a[1..];
    assert multiset(a[1..]) == multiset(a) - multiset([a[0]]);
  }

  lemma {:induction false} CountSame(a: seq<Record>, b: seq<Record>, id: Option<seq<Octet>>)
    requires multiset(a) == multiset(b)
    ensures Count(a, id) == Count(b, id)
  {
    hide Pages;
    if a == [] {
      assert |multiset(b)| == |b| == 0;
    } else {
      assert a[0] in multiset(b);
      var k :| 0 <= k < |b| && b[k] == a[0];
      RestSame(a, b, k);
      var c := b[..k] + b[k + 1..];
      CountSame(a[1..], c, id);
      CountWithout(b, k, id);
    }
  }

  lemma {:induction false} CountWithout(q: seq<Record>, k: nat, id: Option<seq<Octet>>)
    requires k < |q|
    ensures Count(q, id) == Count(q[..k] + q[k + 1..], id) + (if Pages(q[k], id) then 1 else 0)
  {
    hide Pages;
    TakenOut(q, k);
    assert ([q[k]] + q[k + 1..])[1..] == q[k + 1..];
    CountAppend(q[..k], [q[k]] + q[k + 1..], id);
    CountAppend(q[..k], q[k + 1..], id);
  }

  /** The normal records of a queue are those left after a block and those it removed. */
  lemma {:induction false} CountAfter(q: seq<Record>, now: int, id: Option<seq<Octet>>)
    ensures Count(After(q, now), id) + Count(Removed(q, now), id) == Count(q, id)
  {
    hide After, Removed, Count;
    NothingIsLost(q, now);
    CountAppend(After(q, now), Removed(q, now), id);
    CountSame(After(q, now) + Removed(q, now), q, id);
  }

  lemma {:induction false} AfterIsFromQueue(q: seq<Record>, now: int)
    ensures forall x :: x in After(q, now) || x in Removed(q, now) ==> x in q
  {
    hide After, Removed;
    NothingIsLost(q, now);
    forall x | x in After(q, now) || x in Removed(q, now)
      ensures x in q
    {
      assert x in multiset(After(q, now)) || x in multiset(Removed(q, now));
      assert x in multiset(q);
    }
  }

  /** A block leaves the queue well formed and without twins. */
  lemma {:induction false} AfterKeeps(q: seq<Record>, now: int)
    requires ProperQueue(q) && NoTwins(q)
    ensures ProperQueue(After(q, now)) && NoTwins(After(q, now))
  {
    hide After, Removed, Count, ProperRecord;
    AfterIsFromQueue(q, now);
    var r := After(q, now);
    assert ProperQueue(r) by {
      forall i | 0 <= i < |r|
        ensures ProperRecord(r[i])
      {
        assert r[i] in q;
      }
    }
    forall id: seq<Octet>
      ensures Count(After(q, now), Some(id)) <= 1
    {
      CountAfter(q, now, Some(id));
      assert Count(q, Some(id)) <= 1;
    }
  }

  /** The normal records of all queues. */
  function Total(qs: seq<seq<Record>>): (n: nat) {
    if qs == [] then 0 else Count(qs[0], None) + Total(qs[1..])
  }

  lemma {:induction false} TotalUpdate(qs: seq<seq<Record>>, g: nat, q: seq<Record>)
    requires g < |qs|
    ensures Total(qs[g := q]) + Count(qs[g], None) == Total(qs) + Count(q, None)
  {
    hide Count;
    if g == 0 {
      assert qs[g := q][1..] == qs[1..];
    } else {
      assert qs[g := q][1..] == qs[1..][g - 1 := q];
      TotalUpdate(qs[1..], g - 1, q);
    }
  }

  lemma {:induction false} TotalOfEmpty(qs: seq<seq<Record>>)
    requires forall i :: 0 <= i < |qs| ==> qs[i] == []
    ensures Total(qs) == 0
  {
    if qs != [] { TotalOfEmpty(qs[1..]); }
  }

  // ----- What a block pages ------------------------------------------------------------------

  lemma {:induction false} ImsisOfLeading(q: seq<Record>)
    ensures Imsis(Candidates(q)) == Imsis(q[..Leading(q, MAX_RECORDS)])
    ensures Those(Candidates(q), true) == Those(q[..Leading(q, MAX_RECORDS)], true)
  {
    var t := q[..Leading(q, MAX_RECORDS)];
    ThoseAppend(Those(t, false), Those(t, true), true);
    ThoseMembers(t, false);
    ThoseMembers(t, true);
    ThoseSame(Those(t, false), false);
    ThoseSame(Those(t, true), true);
    hide Imsi, Those, Leading;
  }

  /** The candidates are TMSIs followed by as many IMSIs as there are. */
  lemma {:induction false} CandidateKinds(q: seq<Record>, i: nat)
    requires i < |Candidates(q)|
    ensures Imsi(Candidates(q)[i]) <==> i >= |Candidates(q)| - Imsis(Candidates(q))
  {
    var t := q[..Leading(q, MAX_RECORDS)];
    var a, b := Those(t, false), Those(t, true);
    ImsisOfLeading(q);
    ThoseMembers(t, false);
    ThoseMembers(t, true);
    hide Imsi, Those, Leading;
    assert Candidates(q)[i] in if i < |a| then a else b;
  }

  /** The places of the IMSIs. */
  function ImsiPlaces(s: seq<Record>): (p: set<nat>) {
    set i: nat | i < |s| && Imsi(s[i])
  }

  lemma {:induction false} ImsisAreCounted(s: seq<Record>)
    ensures Imsis(s) == |ImsiPlaces(s)|
  {
    hide Imsi;
    if s != [] {
      var before, last := s[..|s| - 1], |s| - 1;
      ImsisAreCounted(before);
      assert s == before + [s[last]];
      ThoseAppend(before, [s[last]], true);
      ThoseFront([s[last]], true);
      ThoseFront([s[last]][1..], true);
      assert ImsiPlaces(s) == ImsiPlaces(before) + (if Imsi(s[last]) then {last} else {});
      assert last !in ImsiPlaces(before);
    } else {
      assert ImsiPlaces(s) == {};
    }
  }

  /** How many records one block sends: of the first four, all four if none is an IMSI, three of
      three or four if one at most is, and else two at most. */
  lemma {:induction false} SentIsSoMany(q: seq<Record>)
    requires !TakesMacBlock(q)
    ensures var n := if |q| < 4 then |q| else 4;
            var imsis := |ImsiPlaces(q[..n])|;
            && (forall i :: 0 <= i < n ==> q[i].Normal?)
            && |Sent(q)| == if n == 4 && imsis == 0 then 4 else if n >= 3 && imsis <= 1 then 3 else if n >= 2 then 2 else n
  {
    var n := Leading(q, MAX_RECORDS);
    ImsisOfLeading(q);
    ImsisAreCounted(q[..n]);
    CandidatesAreNormal(q);
    hide Candidates, Imsis, ImsiPlaces, Leading;
  }

  /** Identities that go into a slot with room for a TMSI only. */
  function TmsiSlots(sent: nat): (n: nat) {
    if sent == 4 then 4 else if sent == 3 then 2 else 0
  }

  /** The sort keeps IMSIs out of the TMSI slots of type 2 and type 3. */
  lemma {:induction false} NoImsiInTmsiSlot(q: seq<Record>, i: nat)
    requires i < TmsiSlots(|Sent(q)|) && i < |Sent(q)|
    ensures Sent(q)[i] == Candidates(q)[i] && !Imsi(Sent(q)[i])
  {
    CandidatesAreNormal(q);
    CandidateKinds(q, i);
    hide Imsi, Candidates;
  }

  /** The paging entry for a record. */
  function AsPaged(r: Record, tmsiSlot: bool): (p: Paged)
    requires r.Normal? && ProperRecord(r)
  {
    Paged(if tmsiSlot then Tmsi(TmsiOctets(r.identity)) else Mobile(Value(r.identity)), r.chan % 4)
  }

  /** What a block with these records has to page. */
  function PagedAs(s: seq<Record>): (p: seq<Paged>)
    requires forall i :: 0 <= i < |s| ==> s[i].Normal? && ProperRecord(s[i])
    ensures |p| == |s|
  {
    seq(|s|, i requires 0 <= i < |s| => AsPaged(s[i], i < TmsiSlots(|s|)))
  }

  // ----- Who answers -------------------------------------------------------------------------

  /** A mobile with this TMSI takes the entry for itself. */
  predicate CallsTmsi(p: Paged, tmsi: seq<Octet>) {
    match p.id
    case Tmsi(o) => o == tmsi
    case Mobile(o) => |o| >= 5 && o[0] % 8 == MI_TYPE_TMSI && o[1..5] == tmsi
  }

  /** The record was queued for that mobile. */
  predicate NamesTmsi(r: Record, tmsi: seq<Octet>)
    requires r.Normal? && ProperRecord(r)
  {
    IsTmsi(r.identity) && r.identity[2..6] == tmsi
  }

  const NO_TMSI: seq<Octet> := [0, 0, 0, 0]

  /** Whatever is no TMSI takes up a TMSI slot as zero. */
  predicate Blank(r: Record, tmsiSlot: bool)
    requires r.Normal? && ProperRecord(r)
  {
    tmsiSlot && !IsTmsi(r.identity)
  }

  lemma {:induction false} EntryCalls(r: Record, tmsiSlot: bool, tmsi: seq<Octet>)
    requires r.Normal? && ProperRecord(r) && |tmsi| == 4
    ensures CallsTmsi(AsPaged(r, tmsiSlot), tmsi) <==> NamesTmsi(r, tmsi) || (Blank(r, tmsiSlot) && tmsi == NO_TMSI)
  {
    var v := Value(r.identity);
    if !tmsiSlot && |v| >= 5 {
      assert v == r.identity[1..|v| + 1];
      assert v[0] == r.identity[1];
      assert forall k :: 0 <= k < 4 ==> v[1..5][k] == r.identity[2..6][k];
      assert v[1..5] == r.identity[2..6];
    }
  }

  predicate Sendable(s: seq<Record>) {
    forall i :: 0 <= i < |s| ==> s[i].Normal? && ProperRecord(s[i])
  }

  /** A mobile answers a block by its TMSI if and only if one of the records sent is for that
      TMSI, or its TMSI is zero and a record that is none was sent in a TMSI slot. */
  lemma {:induction false} TmsiAnswersExactlyWhen(s: seq<Record>, tmsi: seq<Octet>)
    requires Sendable(s) && |tmsi| == 4
    ensures (exists i :: 0 <= i < |s| && CallsTmsi(PagedAs(s)[i], tmsi)) <==>
            || (exists i :: 0 <= i < |s| && NamesTmsi(s[i], tmsi))
            || (tmsi == NO_TMSI && exists i :: 0 <= i < |s| && Blank(s[i], i < TmsiSlots(|s|)))
  {
    forall i | 0 <= i < |s|
      ensures CallsTmsi(PagedAs(s)[i], tmsi)
         <==> NamesTmsi(s[i], tmsi) || (Blank(s[i], i < TmsiSlots(|s|)) && tmsi == NO_TMSI)
    {
      EntryCalls(s[i], i < TmsiSlots(|s|), tmsi);
      assert PagedAs(s)[i] == AsPaged(s[i], i < TmsiSlots(|s|));
    }
    hide CallsTmsi, NamesTmsi, Blank, PagedAs;
  }

  /** A record for an identity of one octet. */
  function Short(octet: Octet): (r: Record)
    ensures r.Normal? && ProperRecord(r)
  {
    Normal(0, 0, [1, octet, 0, 0, 0, 0, 0, 0, 0])
  }

  lemma {:induction false} ThreeOthers(q: seq<Record>)
    requires |q| == 3 && ImsisFirst(q, 0)
    ensures Sent(q) == q
  {
    LookAtImsisFirst(q, 0);
    hide Candidates, Imsis, Leading, TakesMacBlock, ImsisFirst;
    assert q[0..3] + q[..0] == q && q[..3] == q;
  }

  /** Three identities that are neither IMSI nor TMSI make a type 2 message, and the first two
      of them are sent as TMSI zero. */
  lemma {:induction false} OtherIdentityIsBlank()
    ensures var q := [Short(3), Short(11), Short(19)];
            && ProperQueue(q) && Sent(q) == q && Blank(q[0], true) && Blank(q[1], true)
            && PagedAs(q)[0] == PagedAs(q)[1] == Paged(Tmsi(NO_TMSI), 0)
  {
    var q := [Short(3), Short(11), Short(19)];
    ThreeOthers(q);
    hide Sent;
  }

  /** A mobile with this IMSI takes the entry for itself. */
  predicate CallsImsi(p: Paged, imsi: seq<Octet>) {
    p.id == Mobile(imsi)
  }

  predicate NamesImsi(r: Record, imsi: seq<Octet>)
    requires r.Normal? && ProperRecord(r)
  {
    Value(r.identity) == imsi
  }

  /** A mobile answers the block of a queue by its IMSI if and only if one of the records
      sent is for that IMSI: the sort sees to it that none is lost in a TMSI slot. */
  lemma {:induction false} ImsiAnswersExactlyWhen(q: seq<Record>, imsi: seq<Octet>)
    requires Sendable(Sent(q)) && imsi != [] && imsi[0] % 8 == MI_TYPE_IMSI
    ensures var s := Sent(q);
            (exists i :: 0 <= i < |s| && CallsImsi(PagedAs(s)[i], imsi)) <==>
            (exists i :: 0 <= i < |s| && NamesImsi(s[i], imsi))
  {
    var s := Sent(q);
    forall i | 0 <= i < |s|
      ensures CallsImsi(PagedAs(s)[i], imsi) <==> NamesImsi(s[i], imsi)
    {
      assert PagedAs(s)[i] == AsPaged(s[i], i < TmsiSlots(|s|));
      if i < TmsiSlots(|s|) {
        NoImsiInTmsiSlot(q, i);
        assert Value(s[i].identity) != [] ==> Value(s[i].identity)[0] == s[i].identity[1];
      }
    }
    hide CallsImsi, NamesImsi, PagedAs, Sent;
  }

  /** A newly added record is at the head. The next block pages it, unless a MAC block is
      among the first four, or it is an IMSI and two or three of the four are not. */
  lemma {:induction false} HeadIsSentExactlyWhen(q: seq<Record>)
    requires q != [] && q[0].Normal?
    ensures (!TakesMacBlock(q) && q[0] in Sent(q))
       <==> !TakesMacBlock(q) && !(Imsi(q[0]) && Leading(q, MAX_RECORDS) == 4 && 1 <= Imsis(Candidates(q)) <= 2)
  {
    var n := Leading(q, MAX_RECORDS);
    var c := Candidates(q);
    var t := q[..n];
    assert n >= 1;
    CandidatesAreNormal(q);
    ImsisOfLeading(q);
    ThoseSizes(t);
    assert t[0] == q[0] && t != [];
    if Imsi(q[0]) {
      assert Those(t, true)[0] == q[0];
      assert c[|Those(t, false)|] == q[0];
      forall i | 0 <= i < |c| && i < |Those(t, false)|
        ensures c[i] != q[0]
      {
        CandidateKinds(q, i);
      }
    } else {
      assert Those(t, false)[0] == q[0];
      assert c[0] == q[0];
    }
    hide Imsi, Those, Leading, Candidates;
    assert Sent(q) == c[..SentCount(c)];
  }

  // ----- Draining --------------------------------------------------------------------------

  /** Blocks made from a queue at these times. */
  function AfterAll(q: seq<Record>, nows: seq<int>): (r: seq<Record>)
    decreases |nows|
  {
    if nows == [] then q else AfterAll(After(q, nows[0]), nows[1..])
  }

  function RemovedAll(q: seq<Record>, nows: seq<int>): (r: seq<Record>)
    decreases |nows|
  {
    if nows == [] then [] else Removed(q, nows[0]) + RemovedAll(After(q, nows[0]), nows[1..])
  }

  ghost predicate AllExpired(q: seq<Record>, nows: seq<int>) {
    forall x, i :: x in q && x.Normal? && 0 <= i < |nows| ==> x.expires <= nows[i]
  }

  /** Over any number of blocks no record is lost, and none is removed twice. */
  lemma {:induction false} RunLosesNothing(q: seq<Record>, nows: seq<int>)
    ensures multiset(AfterAll(q, nows)) + multiset(RemovedAll(q, nows)) == multiset(q)
    decreases |nows|
  {
    hide After, Removed;
    if nows != [] {
      NothingIsLost(q, nows[0]);
      RunLosesNothing(After(q, nows[0]), nows[1..]);
    }
  }

  lemma {:induction false} AllGone(s: seq<Record>, now: int)
    requires forall i :: 0 <= i < |s| ==> s[i].Normal? && s[i].expires <= now
    ensures Expired(s, now, true) == s && Expired(s, now, false) == []
  {
    if s != [] { AllGone(s[1..], now); }
  }

  lemma {:induction false} BlockShrinksQueue(q: seq<Record>, now: int)
    requires q != [] && AllExpired(q, [now])
    ensures |Removed(q, now)| > 0 && |After(q, now)| < |q|
  {
    if !TakesMacBlock(q) {
      CandidatesAreNormal(q);
      var s := Sent(q);
      forall i | 0 <= i < |s|
        ensures s[i].Normal? && s[i].expires <= now
      {
        assert s[i] == Candidates(q)[i] && s[i] in q && [now][0] == now;
      }
      AllGone(s, now);
      assert |s| > 0;
      assert Removed(q, now) == s;
    }
    NothingIsLost(q, now);
    hide After, Removed;
    assert |q| == |multiset(q)| == |multiset(After(q, now))| + |multiset(Removed(q, now))|;
  }

  /** When the normal records have expired, as they always have with lifetime zero, a queue
      without arrivals is empty after as many blocks as it has records, and each record has
      been in exactly one of them. */
  lemma {:induction false} QueueDrains(q: seq<Record>, nows: seq<int>)
    requires AllExpired(q, nows) && |nows| >= |q|
    ensures AfterAll(q, nows) == [] && multiset(RemovedAll(q, nows)) == multiset(q)
    decreases |nows|
  {
    hide After, Removed;
    RunLosesNothing(q, nows);
    if q == [] {
      assert |AfterAll(q, nows)| == |multiset(AfterAll(q, nows))| == 0;
    } else {
      assert AllExpired(q, [nows[0]]);
      BlockShrinksQueue(q, nows[0]);
      AfterIsFromQueue(q, nows[0]);
      QueueDrains(After(q, nows[0]), nows[1..]);
    }
  }

  // ----- Being overtaken -------------------------------------------------------------------

  /** A queue of m IMSIs, and behind them others that are not. */
  predicate ImsisFirst(q: seq<Record>, m: nat) {
    && m <= |q|
    && (forall i :: 0 <= i < m ==> Imsi(q[i]))
    && (forall i :: m <= i < |q| ==> q[i].Normal? && !Imsi(q[i]))
  }

  /** No block made at these times sends an IMSI. */
  predicate NoImsiSent(q: seq<Record>, nows: seq<int>)
    decreases |nows|
  {
    nows == [] || ((forall x :: x in Sent(q) ==> !Imsi(x)) && NoImsiSent(After(q, nows[0]), nows[1..]))
  }

  predicate NoneExpired(q: seq<Record>, nows: seq<int>) {
    forall x, i :: x in q && x.Normal? && 0 <= i < |nows| ==> nows[i] < x.expires
  }

  lemma {:induction false} LeadingNormals(q: seq<Record>, limit: nat)
    requires forall i :: 0 <= i < |q| ==> q[i].Normal?
    ensures Leading(q, limit) == if |q| <= limit then |q| else limit
  {
    if limit > 0 && q != [] { LeadingNormals(q[1..], limit - 1); }
  }

  lemma {:induction false} LeadingFour(q: seq<Record>)
    requires forall i :: 0 <= i < |q| ==> q[i].Normal?
    ensures var n := if |q| <= 4 then |q| else 4;
            Leading(q, MAX_RECORDS) == n && !TakesMacBlock(q) && Candidates(q) == Sorted(q[..n])
  {
    LeadingNormals(q, MAX_RECORDS);
    hide Leading, Sorted;
  }

  lemma ImsisFirstParts(q: seq<Record>, m: nat, n: nat, k: nat)
    requires ImsisFirst(q, m) && k <= n <= |q| && k == if m <= n then m else n
    ensures forall i :: 0 <= i < |q| ==> q[i].Normal?
    ensures forall i :: 0 <= i < k ==> Imsi(q[..n][i])
    ensures forall i :: k <= i < n ==> !Imsi(q[..n][i])
  {
  }

  /** What the block looks at: the TMSIs among the first four, then the IMSIs. */
  lemma {:induction false} LookAtImsisFirst(q: seq<Record>, m: nat)
    requires ImsisFirst(q, m)
    ensures var n := if |q| <= 4 then |q| else 4;
            var k := if m <= n then m else n;
            && Leading(q, MAX_RECORDS) == n && !TakesMacBlock(q)
            && Candidates(q) == q[k..n] + q[..k] && Imsis(Candidates(q)) == k
  {
    hide *;
    var n := if |q| <= 4 then |q| else 4;
    var k := if m <= n then m else n;
    var t := q[..n];
    ImsisFirstParts(q, m, n, k);
    LeadingFour(q);
    ImsisOfLeading(q);
    SortImsisFirst(t, k);
    assert t[k..] == q[k..n] && t[..k] == q[..k];
  }

  lemma {:induction false} SortImsisFirst(t: seq<Record>, k: nat)
    requires k <= |t| && (forall i :: 0 <= i < k ==> Imsi(t[i])) && forall i :: k <= i < |t| ==> !Imsi(t[i])
    ensures Sorted(t) == t[k..] + t[..k] && Imsis(t) == k
  {
    hide Those, Imsi;
    ThoseSame(t[..k], true);
    ThoseSame(t[k..], false);
    ThoseAppend(t[..k], t[k..], true);
    ThoseAppend(t[..k], t[k..], false);
    assert t == t[..k] + t[k..];
  }

  lemma {:induction false} NoneGone(s: seq<Record>, now: int)
    requires forall i :: 0 <= i < |s| ==> s[i].Normal? && now < s[i].expires
    ensures Expired(s, now, false) == s
  {
    if s != [] { NoneGone(s[1..], now); }
  }

  lemma {:induction false} ReversedMembers(s: seq<Record>)
    ensures forall x :: x in Reversed(s) <==> x in s
  {
    if s != [] { ReversedMembers(s[1..]); }
  }

  /** One or two IMSIs ahead of enough TMSIs: three or two of those are sent and queued
      again behind, and the IMSIs are back at the head. */
  lemma {:induction false} OvertakenOnce(q: seq<Record>, m: nat, now: int)
    requires ImsisFirst(q, m) && 1 <= m <= 2 && |q| >= 4 && NoneExpired(q, [now])
    ensures Sent(q) == q[m..4] && After(q, now) == Reversed(q[..m]) + q[4..] + q[m..4]
  {
    LookAtImsisFirst(q, m);
    var c := Candidates(q);
    assert c[..4 - m] == q[m..4] && c[4 - m..] == q[..m];
    forall i | 0 <= i < 4 - m
      ensures q[m..4][i].Normal? && now < q[m..4][i].expires
    {
      assert q[m..4][i] == q[m + i] && q[m + i] in q && [now][0] == now;
    }
    NoneGone(q[m..4], now);
    hide Imsi, Candidates, Expired, Reversed, Imsis, Leading, TakesMacBlock;
    CandidatesAreNormal(q);
  }

  lemma {:induction false} StillImsisFirst(q: seq<Record>, m: nat, now: int)
    requires ImsisFirst(q, m) && 1 <= m <= 2 && |q| >= 4 && NoneExpired(q, [now])
    ensures ImsisFirst(After(q, now), m) && |After(q, now)| == |q|
    ensures (forall x :: x in Sent(q) ==> !Imsi(x)) && forall x :: x in After(q, now) ==> x in q
  {
    hide Imsi, Reversed, After, Sent, Expired, Leading, Candidates;
    OvertakenOnce(q, m, now);
    ReversedMembers(q[..m]);
    var r := Reversed(q[..m]);
    var a := r + q[4..] + q[m..4];
    forall i | 0 <= i < m
      ensures Imsi(a[i])
    {
      assert a[i] == r[i] && r[i] in q[..m];
    }
    forall i | m <= i < |a|
      ensures a[i].Normal? && !Imsi(a[i])
    {
      assert a[i] == if i < |q| - 4 + m then q[4..][i - m] else q[m..4][i - (|q| - 4 + m)];
    }
  }

  lemma {:induction false} AlwaysOvertaken(q: seq<Record>, m: nat, nows: seq<int>)
    requires ImsisFirst(q, m) && 1 <= m <= 2 && |q| >= 4 && NoneExpired(q, nows)
    ensures NoImsiSent(q, nows)
    decreases |nows|
  {
    hide ImsisFirst, After, Sent, Imsi;
    if nows != [] {
      assert NoneExpired(q, [nows[0]]);
      StillImsisFirst(q, m, nows[0]);
      AlwaysOvertaken(After(q, nows[0]), m, nows[1..]);
    }
  }

  lemma {:induction false} FirstBlockSendsImsi(q: seq<Record>, m: nat)
    requires ImsisFirst(q, m) && m >= 1 && (m > 2 || |q| < 4)
    ensures exists x :: x in Sent(q) && Imsi(x)
  {
    LookAtImsisFirst(q, m);
    var c := Candidates(q);
    var t := |c| - Imsis(c);
    CandidateKinds(q, t);
    hide Candidates, Imsi, Imsis, Leading;
    assert Sent(q)[t] == c[t];
  }

  /** A time at which nothing has expired. */
  function Early(q: seq<Record>): (t: int)
    ensures forall x :: x in q && x.Normal? ==> t < x.expires
  {
    if q == [] then 0
    else
      var t := Early(q[1..]);
      if q[0].Normal? && q[0].expires <= t then q[0].expires - 1 else t
  }

  /** IMSIs ahead of TMSIs, none of them expired and nothing added: no block ever sends one
      of the IMSIs, if and only if there are no more than two of them and four records or
      more in all. */
  lemma {:induction false} OvertakenForeverExactlyWhen(q: seq<Record>, m: nat)
    requires ImsisFirst(q, m) && m >= 1
    ensures (forall nows: seq<int> :: NoneExpired(q, nows) ==> NoImsiSent(q, nows)) <==> m <= 2 && |q| >= 4
  {
    if m <= 2 && |q| >= 4 {
      forall nows: seq<int> | NoneExpired(q, nows)
        ensures NoImsiSent(q, nows)
      {
        AlwaysOvertaken(q, m, nows);
      }
    } else {
      FirstBlockSendsImsi(q, m);
      hide Sent, Imsi, ImsisFirst;
      assert NoneExpired(q, [Early(q)]) && !NoImsiSent(q, [Early(q)]);
    }
  }

  // ----- Congestion ------------------------------------------------------------------------

  const THRESHOLD_CONGESTED: nat := 66
  const THRESHOLD_CLEAR: nat := 50

  /** Priority of CS paging after a look at the fill level. */
  predicate CsPriority(was: bool, len: nat, max: nat) {
    if len > max * THRESHOLD_CONGESTED / 100 && !was then true
    else if len < max * THRESHOLD_CLEAR / 100 then false
    else was
  }

  function Upper(max: nat): nat {
    max * THRESHOLD_CONGESTED / 100
  }

  function Lower(max: nat): nat {
    max * THRESHOLD_CLEAR / 100
  }

  /** Priority after looks at these fill levels. */
  predicate PriorityAfter(was: bool, levels: seq<nat>, max: nat) {
    if levels == [] then was else CsPriority(PriorityAfter(was, levels[..|levels| - 1], max), levels[|levels| - 1], max)
  }

  /** The last look that found a fill level outside the band of the thresholds. */
  function LastOutside(levels: seq<nat>, max: nat): (i: int)
    ensures -1 <= i < |levels|
    ensures i >= 0 ==> levels[i] > Upper(max) || levels[i] < Lower(max)
    ensures forall k :: i < k < |levels| ==> Lower(max) <= levels[k] <= Upper(max)
  {
    if levels == [] then -1
    else if levels[|levels| - 1] > Upper(max) || levels[|levels| - 1] < Lower(max) then |levels| - 1
    else LastOutside(levels[..|levels| - 1], max)
  }

  /** Hysteresis: the priority is decided by the last fill level outside the band alone. */
  lemma {:induction false} PriorityFollowsLastOutside(was: bool, levels: seq<nat>, max: nat)
    ensures var i := LastOutside(levels, max);
            PriorityAfter(was, levels, max) == if i < 0 then was else levels[i] > Upper(max)
  {
    if levels != [] { PriorityFollowsLastOutside(was, levels[..|levels| - 1], max); }
  }

  /** Once on, the priority is still on at every later look. */
  predicate StaysOn(levels: seq<nat>, max: nat) {
    (levels == [] || StaysOn(levels[..|levels| - 1], max)) && PriorityAfter(true, levels, max)
  }

  /** It does exactly if no look finds less than the lower threshold. */
  lemma {:induction false} StaysOnExactlyWhen(levels: seq<nat>, max: nat)
    ensures StaysOn(levels, max) <==> forall i :: 0 <= i < |levels| ==> levels[i] >= Lower(max)
  {
    if levels != [] {
      var before := levels[..|levels| - 1];
      StaysOnExactlyWhen(before, max);
      assert forall i :: 0 <= i < |before| ==> before[i] == levels[i];
    }
  }

  /** There are fill levels that end the priority exactly if two records or more are
      allowed: with a limit of one it lasts for ever. */
  lemma {:induction false} LastsForeverExactlyWhen(max: nat)
    ensures (forall levels: seq<nat> :: StaysOn(levels, max)) <==> max <= 1
  {
    if max <= 1 {
      forall levels: seq<nat>
        ensures StaysOn(levels, max)
      {
        StaysOnExactlyWhen(levels, max);
      }
    } else {
      StaysOnExactlyWhen([0], max);
      assert [0][0] < Lower(max);
      assert !StaysOn([0], max);
    }
  }

  /** Fill levels as one operation after the other finds them: a page adds one record at
      most, and a block takes away four at most. */
  predicate Paced(levels: seq<nat>) {
    forall i :: 1 <= i < |levels| ==> levels[i - 1] - MAX_RECORDS <= levels[i] <= levels[i - 1] + 1
  }

  /** The look at index i turns the priority on, or off. */
  predicate Switches(was: bool, levels: seq<nat>, max: nat, i: nat, on: bool)
    requires i < |levels|
  {
    PriorityAfter(was, levels[..i], max) == !on && PriorityAfter(was, levels[..i + 1], max) == on
  }

  lemma {:induction false} Drift(levels: seq<nat>, i: nat, j: nat)
    requires Paced(levels) && i <= j < |levels|
    ensures levels[i] - MAX_RECORDS * (j - i) <= levels[j] <= levels[i] + (j - i)
  {
    if i < j { Drift(levels, i, j - 1); }
  }

  /** Two switches in opposite directions are as many operations apart as it takes to carry
      the fill level across the whole band. */
  lemma {:induction false} SwitchesAreApart(was: bool, levels: seq<nat>, max: nat, i: nat, j: nat, on: bool)
    requires Paced(levels) && i < j < |levels|
    requires Switches(was, levels, max, i, on) && Switches(was, levels, max, j, !on)
    ensures on ==> levels[i] > Upper(max) && levels[j] < Lower(max)
    ensures !on ==> levels[i] < Lower(max) && levels[j] > Upper(max)
    ensures (if on then MAX_RECORDS else 1) * (j - i) >= Upper(max) - Lower(max) + 2
  {
    assert levels[..i + 1][..i] == levels[..i] && levels[..j + 1][..j] == levels[..j];
    Drift(levels, i, j);
  }
}
