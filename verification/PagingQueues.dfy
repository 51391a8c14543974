/** The paging state: the queues of all paging groups and what is done to them. */
module PagingQueues {
  import opened Basics
  import opened Tdma
  import opened PagingGroup
  import opened PagingMessage
  import opened Paging
  import opened EtwsPages

  datatype AddResult = Added | NoSuchGroup | NoSpace | Exists | TooBig

  /** What a paging block of one frame carries. */
  datatype Output =
    | WrongTime
    | Request(block: Block, isEmpty: bool)
    | Ready(msg: seq<Octet>, confirmed: Option<nat>)

  const EMPTY_ID: seq<Octet> := [1, 0xF0]

  // ----- Identities --------------------------------------------------------------------------

  function Zeros(n: nat): (z: seq<Octet>)
    ensures |z| == n && forall i :: 0 <= i < n ==> z[i] == 0
  {
    if n == 0 then [] else [0] + Zeros(n - 1)
  }

  /** An LV in the nine octets of a record. */
  function Padded(lv: seq<Octet>): (p: seq<Octet>)
    requires IsLv(lv)
    ensures |p| == MAX_IDENTITY + 1
  {
    lv[..lv[0] + 1] + Zeros(MAX_IDENTITY - lv[0])
  }

  /** The comparison with a queued record: length first, then that many octets. */
  predicate SameIdentity(r: Record, lv: seq<Octet>)
    requires r.Normal? && ProperRecord(r) && |lv| > 0 && lv[0] < |lv|
  {
    lv[0] == r.identity[0] && lv[1..lv[0] + 1] == r.identity[1..r.identity[0] + 1]
  }

  lemma {:induction false} SameIsPadded(r: Record, lv: seq<Octet>)
    requires r.Normal? && ProperRecord(r) && |lv| > 0 && lv[0] < |lv|
    ensures SameIdentity(r, lv) <==> lv[0] <= MAX_IDENTITY && r.identity == Padded(lv)
  {
    if lv[0] <= MAX_IDENTITY {
      var p := Padded(lv);
      if SameIdentity(r, lv) {
        forall i | 0 <= i < |p|
          ensures p[i] == r.identity[i]
        {
          if 1 <= i <= lv[0] { assert lv[1..lv[0] + 1][i - 1] == r.identity[1..lv[0] + 1][i - 1]; }
        }
        assert r.identity == p;
      }
    }
  }

  /** The record queued for an identity, if there is one. */
  predicate Queued(q: seq<Record>, lv: seq<Octet>)
    requires ProperQueue(q) && |lv| > 0 && lv[0] < |lv|
  {
    exists i :: 0 <= i < |q| && q[i].Normal? && SameIdentity(q[i], lv)
  }

  /** The first record for an identity, or the length of the queue. */
  method Find(q: seq<Record>, lv: seq<Octet>) returns (i: nat)
    requires ProperQueue(q) && |lv| > 0 && lv[0] < |lv|
    ensures i <= |q| && (i < |q| <==> Queued(q, lv))
    ensures i < |q| ==> q[i].Normal? && SameIdentity(q[i], lv)
    ensures forall j :: 0 <= j < i && q[j].Normal? ==> !SameIdentity(q[j], lv)
  {
    hide SameIdentity;
    i := 0;
    while i < |q|
      invariant 0 <= i <= |q|
      invariant forall j :: 0 <= j < i && q[j].Normal? ==> !SameIdentity(q[j], lv)
    {
      if q[i].Normal? && SameIdentity(q[i], lv) { return; }
      i := i + 1;
    }
  }

  /** Only the expiry of the record of this identity has changed. */
  ghost predicate IsRefreshed(r: seq<Record>, q: seq<Record>, lv: seq<Octet>, expires: int)
    requires ProperQueue(q) && |lv| > 0 && lv[0] < |lv|
  {
    && |r| == |q|
    && forall i :: 0 <= i < |q| ==>
         r[i] == if q[i].Normal? && SameIdentity(q[i], lv) then q[i].(expires := expires) else q[i]
  }

  lemma {:induction false} CountAtLeast(q: seq<Record>, id: seq<Octet>, i: nat)
    requires i < |q| && Pages(q[i], Some(id))
    ensures Count(q, Some(id)) >= 1
  {
    if i > 0 { CountAtLeast(q[1..], id, i - 1); }
  }

  lemma {:induction false} CountZero(q: seq<Record>, id: seq<Octet>)
    requires forall i :: 0 <= i < |q| ==> !Pages(q[i], Some(id))
    ensures Count(q, Some(id)) == 0
  {
    if q != [] { CountZero(q[1..], id); }
  }

  /** Without twins the records of one identity are one record. */
  lemma {:induction false} TwinsAreOne(q: seq<Record>, id: seq<Octet>, i: nat, j: nat)
    requires NoTwins(q) && i <= j < |q| && Pages(q[i], Some(id)) && Pages(q[j], Some(id))
    ensures i == j
  {
    if i < j {
      assert Count(q, Some(id)) <= 1;
      assert q == q[..j] + q[j..];
      CountAtLeast(q[..j], id, i);
      CountAtLeast(q[j..], id, 0);
      CountAppend(q[..j], q[j..], Some(id));
    }
  }

  /** A different expiry changes no count. */
  lemma {:induction false} CountOfRefreshed(q: seq<Record>, i: nat, expires: int, id: Option<seq<Octet>>)
    requires i < |q| && q[i].Normal?
    ensures Count(q[i := q[i].(expires := expires)], id) == Count(q, id)
  {
    var r := q[i := q[i].(expires := expires)];
    if i == 0 {
      assert r[1..] == q[1..];
    } else {
      assert r[1..] == q[1..][i - 1 := q[1..][i - 1].(expires := expires)];
      CountOfRefreshed(q[1..], i - 1, expires, id);
    }
  }

  /** Refreshing the first match refreshes them all. */
  lemma {:induction false} RefreshOne(q: seq<Record>, lv: seq<Octet>, i: nat, expires: int)
    requires ProperQueue(q) && NoTwins(q) && |lv| > 0 && lv[0] < |lv|
    requires i < |q| && q[i].Normal? && SameIdentity(q[i], lv)
    ensures var r := q[i := q[i].(expires := expires)];
            IsRefreshed(r, q, lv, expires) && ProperQueue(r) && NoTwins(r) && Count(r, None) == Count(q, None)
  {
    var r := q[i := q[i].(expires := expires)];
    SameIsPadded(q[i], lv);
    var id := Padded(lv);
    forall j | 0 <= j < |q| && j != i && q[j].Normal?
      ensures !SameIdentity(q[j], lv)
    {
      if SameIdentity(q[j], lv) {
        SameIsPadded(q[j], lv);
        TwinsAreOne(q, id, if i < j then i else j, if i < j then j else i);
      }
    }
    hide SameIdentity, Padded, Count;
    CountOfRefreshed(q, i, expires, None);
    forall other: seq<Octet>
      ensures Count(r, Some(other)) <= 1
    {
      CountOfRefreshed(q, i, expires, Some(other));
      assert Count(q, Some(other)) <= 1;
    }
  }

  /** A new record at the head of a queue that does not have its identity. */
  lemma {:induction false} AddAtHead(q: seq<Record>, lv: seq<Octet>, chan: Octet, expires: int)
    requires ProperQueue(q) && NoTwins(q) && IsLv(lv) && !Queued(q, lv)
    ensures var r := [Normal(expires, chan, Padded(lv))] + q;
            ProperQueue(r) && NoTwins(r) && Count(r, None) == Count(q, None) + 1
  {
    var x := Normal(expires, chan, Padded(lv));
    var r := [x] + q;
    assert r[1..] == q;
    assert ProperRecord(x);
    forall i | 0 <= i < |q|
      ensures !Pages(q[i], Some(Padded(lv)))
    {
      if q[i].Normal? { SameIsPadded(q[i], lv); }
    }
    CountZero(q, Padded(lv));
    hide SameIdentity, Padded, ProperRecord;
    forall id: seq<Octet>
      ensures Count(r, Some(id)) <= 1
    {
      assert Count(q, Some(id)) <= 1;
    }
  }

  lemma {:induction false} MacAtHead(q: seq<Record>, m: Record)
    requires ProperQueue(q) && NoTwins(q) && m.MacBlock? && |m.msg| == MACBLOCK_LEN
    ensures ProperQueue([m] + q) && NoTwins([m] + q) && Count([m] + q, None) == Count(q, None)
  {
    assert ([m] + q)[1..] == q;
    hide ProperRecord;
    forall id: seq<Octet>
      ensures Count([m] + q, Some(id)) <= 1
    {
      assert Count(q, Some(id)) <= 1;
    }
  }

  // ----- Steps of the loops --------------------------------------------------------------------

  lemma {:induction false} LeadingSteps(q: seq<Record>, i: nat, limit: nat)
    requires i <= limit && i <= |q| && forall k :: 0 <= k < i ==> q[k].Normal?
    ensures Leading(q, limit) == i + Leading(q[i..], limit - i)
  {
    if i > 0 {
      assert q[1..][i - 1..] == q[i..];
      LeadingSteps(q[1..], i - 1, limit - 1);
    } else {
      assert q[0..] == q;
    }
  }

  lemma {:induction false} MacBlockAt(q: seq<Record>, n: nat)
    requires n < MAX_RECORDS && n < |q| && q[n].MacBlock? && forall k :: 0 <= k < n ==> q[k].Normal?
    ensures Leading(q, MAX_RECORDS) == n && TakesMacBlock(q)
  {
    LeadingSteps(q, n, MAX_RECORDS);
  }

  lemma {:induction false} NormalsUpTo(q: seq<Record>, n: nat)
    requires n <= MAX_RECORDS && n <= |q| && (n == MAX_RECORDS || n == |q|) && forall k :: 0 <= k < n ==> q[k].Normal?
    ensures Leading(q, MAX_RECORDS) == n && !TakesMacBlock(q)
  {
    LeadingSteps(q, n, MAX_RECORDS);
  }

  lemma {:induction false} ReversedSnoc(s: seq<Record>, x: Record)
    ensures Reversed(s + [x]) == [x] + Reversed(s)
  {
    if s == [] {
      assert s + [x] == [x] && [x][1..] == [];
    } else {
      assert (s + [x])[1..] == s[1..] + [x];
      ReversedSnoc(s[1..], x);
      assert Reversed(s + [x]) == Reversed(s[1..] + [x]) + [s[0]];
      assert Reversed(s) == Reversed(s[1..]) + [s[0]];
      hide Reversed;
    }
  }

  lemma {:induction false} PrependStep(s: seq<Record>, i: nat, q: seq<Record>)
    requires i < |s|
    ensures Reversed(s[..i + 1]) + q == [s[i]] + (Reversed(s[..i]) + q)
  {
    assert s[..i + 1] == s[..i] + [s[i]];
    ReversedSnoc(s[..i], s[i]);
  }

  lemma {:induction false} ExpiredSnoc(s: seq<Record>, x: Record, now: int, gone: bool)
    requires x.Normal? && forall i :: 0 <= i < |s| ==> s[i].Normal?
    ensures Expired(s + [x], now, gone) == Expired(s, now, gone) + (if x.expires <= now <==> gone then [x] else [])
  {
    if s == [] {
      assert s + [x] == [x] && [x][1..] == [];
    } else {
      assert (s + [x])[1..] == s[1..] + [x];
      ExpiredSnoc(s[1..], x, now, gone);
    }
  }

  lemma {:induction false} ExpiredStep(s: seq<Record>, i: nat, now: int, gone: bool)
    requires i < |s| && forall k :: 0 <= k < |s| ==> s[k].Normal?
    ensures Expired(s[..i + 1], now, gone)
         == Expired(s[..i], now, gone) + (if s[i].expires <= now <==> gone then [s[i]] else [])
  {
    assert s[..i + 1] == s[..i] + [s[i]];
    ExpiredSnoc(s[..i], s[i], now, gone);
  }

  // ----- The state -----------------------------------------------------------------------------

  ghost predicate ProperQueues(qs: seq<seq<Record>>) {
    |qs| == QUEUES && forall g :: 0 <= g < |qs| ==> ProperQueue(qs[g]) && NoTwins(qs[g])
  }

  /** The queue that a frame serves lies in the array, even at frames without CCCH block. */
  lemma {:induction false} ServedQueueExists(cd: ChanDesc, fn: Fn)
    requires Proper(cd)
    ensures -1 <= PagSubch(cd, fn) < QUEUES
  {
    var row := (fn / 51) % Cycle(cd);
    var idx := PagIdx(cd, fn);
    if idx >= 0 {
      if idx < PagBlocks(cd) {
        GroupInRange(cd, row, idx);
      } else {
        NineByNine(row, PagBlocks(cd));
        assert cd.combined && PagBlocks(cd) <= 3;
        assert row * PagBlocks(cd) <= 8 * 3;
      }
      assert row * PagBlocks(cd) >= 0;
    }
  }

  /** The MAC block goes out as it is, and is confirmed to the PCU exactly if that is asked for. */
  predicate IsReady(out: Output, m: Record) {
    && m.MacBlock? && out.Ready? && out.msg == m.msg && |out.msg| == MACBLOCK_LEN
    && (m.confirm ==> out.confirmed == Some(m.id)) && (!m.confirm ==> out.confirmed == None)
  }

  /** What the next block of a queue carries: the MAC block among its first records, or a
      request for exactly the records that are sent. */
  ghost predicate IsOutput(out: Output, q: seq<Record>) {
    if TakesMacBlock(q) then
      IsReady(out, q[Leading(q, MAX_RECORDS)])
    else
      && out.Request? && !out.isEmpty && FillsMacBlock(out.block)
      && (forall i :: 0 <= i < |Sent(q)| ==> Sent(q)[i].Normal? && ProperRecord(Sent(q)[i]))
      && Decode(out.block) == PagedAs(Sent(q))
  }

  // ----- Making a block --------------------------------------------------------------------------

  /** Takes up to four normal records off a queue; a MAC block ends the search. */
  method Collect(queue: seq<Record>) returns (rest: seq<Record>, pr: array<Record>, n: nat, mac: bool, imsis: nat)
    ensures fresh(pr) && pr.Length == MAX_RECORDS
    ensures n == Leading(queue, MAX_RECORDS) && pr[..n] == queue[..n]
    ensures mac == TakesMacBlock(queue)
    ensures mac ==> n < MAX_RECORDS && pr[n] == queue[n]
    ensures imsis == Imsis(queue[..n])
    ensures rest == queue[if mac then n + 1 else n..]
  {
    rest, pr, n, mac, imsis := queue, new Record[MAX_RECORDS], 0, false, 0;
    assert Imsis(queue[..0]) == 0;
    hide Those, Imsi, Imsis, Leading, TakesMacBlock;
    while n < MAX_RECORDS && rest != []
      invariant n <= MAX_RECORDS && n <= |queue| && !mac && rest == queue[n..]
      invariant pr[..n] == queue[..n] && forall k :: 0 <= k < n ==> queue[k].Normal?
      invariant imsis == Imsis(queue[..n])
      decreases MAX_RECORDS - n
    {
      pr[n] := rest[0];
      rest := rest[1..];
      if pr[n].MacBlock? {
        MacBlockAt(queue, n);
        mac := true;
        return;
      }
      CountImsi(queue, n);
      if Imsi(pr[n]) { imsis := imsis + 1; }
      n := n + 1;
    }
    NormalsUpTo(queue, n);
  }

  /** Chooses the type of the message and packs the first k of the sorted records. */
  method Pack(pr: seq<Record>, imsis: nat, nln: Option<Nln>) returns (b: Block, k: nat)
    requires 1 <= |pr| <= MAX_RECORDS && imsis == Imsis(pr)
    requires forall i :: 0 <= i < |pr| ==> pr[i].Normal? && ProperRecord(pr[i])
    ensures k == SentCount(pr) && FillsMacBlock(b)
    ensures Decode(b) == PagedAs(pr[..k])
  {
    hide IsRendered, Those, Decode, TmsiOctets, Value;
    if |pr| == 4 && imsis == 0 {
      b := FillType3(pr[0].identity, pr[0].chan, pr[1].identity, pr[1].chan, pr[2].identity, pr[3].identity,
                     P3(Some((pr[2].chan as nat, pr[3].chan as nat)), nln));
      Type3RoundTrip(pr[0].identity, pr[0].chan, pr[1].identity, pr[1].chan, pr[2].identity, pr[2].chan,
                     pr[3].identity, pr[3].chan, nln, b.rest);
      k := 4;
    } else if |pr| >= 3 && imsis <= 1 {
      b := FillType2(pr[0].identity, pr[0].chan, pr[1].identity, pr[1].chan, Some(pr[2].identity),
                     P2(Some(pr[2].chan), nln));
      Type2RoundTrip(pr[0].identity, pr[0].chan, pr[1].identity, pr[1].chan, pr[2].identity, pr[2].chan, nln, b.rest);
      k := 3;
    } else if |pr| == 1 {
      b := FillType1(pr[0].identity, pr[0].chan, None, 0, None);
      Type1RoundTrip(pr[0].identity, pr[0].chan, None, 0, b.rest);
      k := 1;
    } else {
      b := FillType1(pr[0].identity, pr[0].chan, Some(pr[1].identity), pr[1].chan, None);
      Type1RoundTrip(pr[0].identity, pr[0].chan, Some(pr[1].identity), pr[1].chan, b.rest);
      k := 2;
    }
  }

  /** Puts records back at the head, one after the other. */
  method PutBack(queue: seq<Record>, rs: seq<Record>) returns (q: seq<Record>)
    ensures q == Reversed(rs) + queue
  {
    q := queue;
    assert Reversed(rs[..0]) + queue == queue;
    hide Reversed;
    for i := 0 to |rs|
      invariant q == Reversed(rs[..i]) + queue
    {
      PrependStep(rs, i, queue);
      q := [rs[i]] + q;
    }
    assert rs[..|rs|] == rs;
  }

  /** Drops the expired ones of the records that were sent, the others go to the tail. */
  method Requeue(queue: seq<Record>, rs: seq<Record>, now: int) returns (q: seq<Record>, gone: nat)
    requires forall i :: 0 <= i < |rs| ==> rs[i].Normal?
    ensures q == queue + Expired(rs, now, false)
    ensures gone == |Expired(rs, now, true)|
  {
    q, gone := queue, 0;
    assert Expired(rs[..0], now, false) == Expired(rs[..0], now, true) == [];
    hide Expired;
    for i := 0 to |rs|
      invariant q == queue + Expired(rs[..i], now, false)
      invariant gone == |Expired(rs[..i], now, true)|
    {
      ExpiredStep(rs, i, now, false);
      ExpiredStep(rs, i, now, true);
      if rs[i].expires <= now {
        gone := gone + 1;
      } else {
        q := q + [rs[i]];
      }
    }
    assert rs[..|rs|] == rs;
  }

  /** Sends as many of the sorted records as one message carries; rest is the queue without
      the records looked at. */
  method Send(rest: seq<Record>, c: seq<Record>, imsis: nat, now: int, nln: Option<Nln>)
    returns (q: seq<Record>, gone: nat, b: Block)
    requires 1 <= |c| <= MAX_RECORDS && imsis == Imsis(c)
    requires forall i :: 0 <= i < |c| ==> c[i].Normal? && ProperRecord(c[i])
    ensures var k := SentCount(c);
            && q == Reversed(c[k..]) + rest + Expired(c[..k], now, false)
            && gone == |Expired(c[..k], now, true)|
            && FillsMacBlock(b) && Decode(b) == PagedAs(c[..k])
  {
    hide Reversed, Expired, ProperRecord, Imsis, FillsMacBlock, Decode, PagedAs, SentCount;
    var k;
    b, k := Pack(c, imsis, nln);
    q := PutBack(rest, c[k..]);
    q, gone := Requeue(q, c[..k], now);
  }

  /** The next block of a queue, and what the queue is afterwards. */
  method MakeBlock(queue: seq<Record>, now: int, nln: Option<Nln>)
    returns (q: seq<Record>, gone: nat, out: Output)
    requires queue != [] && ProperQueue(queue)
    ensures q == After(queue, now) && gone == Count(Removed(queue, now), None)
    ensures IsOutput(out, queue)
    ensures var n := Leading(queue, MAX_RECORDS);
            n < 4 && n < |queue| ==>
              var m := queue[n];
              && m.MacBlock? && out.Ready? && out.msg == m.msg && |out.msg| == MACBLOCK_LEN
              && (m.confirm ==> out.confirmed == Some(m.id)) && (!m.confirm ==> out.confirmed == None)
  {
    hide *;
    var pr, n, mac, imsis;
    q, pr, n, mac, imsis := Collect(queue);
    if mac {
      AroundMacBlock(queue, now);
      MacIsOutput(queue);
      q := PutBack(q, pr[..n]);
      gone, out := 0, Ready(pr[n].msg, if pr[n].confirm then Some(pr[n].id) else None);
    } else {
      LookedAt(queue, now);
      SortTmsiImsi(pr, n);
      assert pr[..n] == Candidates(queue);
      var b;
      q, gone, b := Send(q, pr[..n], imsis, now, nln);
      SentIsOutput(queue, b);
      out := Request(b, false);
    }
    MacGoesOut(out, queue);
  }

  /** Which mobiles a request makes answer: by TMSI those that a record sent is for, and
      those without one if a record that is no TMSI was sent in a TMSI slot; by IMSI exactly
      those that a record sent is for. */
  lemma {:induction false} AnsweredExactlyWhen(out: Output, q: seq<Record>, tmsi: seq<Octet>, imsi: seq<Octet>)
    requires IsOutput(out, q) && !TakesMacBlock(q)
    requires |tmsi| == 4 && imsi != [] && imsi[0] % 8 == MI_TYPE_IMSI
    ensures var s := Sent(q);
            var read := Decode(out.block);
            && ((exists i :: 0 <= i < |read| && CallsTmsi(read[i], tmsi)) <==>
                || (exists i :: 0 <= i < |s| && NamesTmsi(s[i], tmsi))
                || (tmsi == NO_TMSI && exists i :: 0 <= i < |s| && Blank(s[i], i < TmsiSlots(|s|))))
            && ((exists i :: 0 <= i < |read| && CallsImsi(read[i], imsi)) <==>
                (exists i :: 0 <= i < |s| && NamesImsi(s[i], imsi)))
  {
    TmsiAnswersExactlyWhen(Sent(q), tmsi);
    ImsiAnswersExactlyWhen(q, imsi);
    hide Sent, Decode, PagedAs, CallsTmsi, NamesTmsi, Blank, CallsImsi, NamesImsi, TakesMacBlock;
  }

  /** The queues that no frame of the CCCH leads to, and the others. */
  function Unserved(cd: ChanDesc, qs: seq<seq<Record>>): (u: seq<seq<Record>>)
    requires Proper(cd)
  {
    if Groups(cd) <= |qs| then qs[Groups(cd)..] else []
  }

  function Served(cd: ChanDesc, qs: seq<seq<Record>>): (v: seq<seq<Record>>)
    requires Proper(cd)
  {
    if Groups(cd) <= |qs| then qs[..Groups(cd)] else qs
  }

  lemma {:induction false} UnservedKept(cd: ChanDesc, qs: seq<seq<Record>>, g: nat, q: seq<Record>)
    requires Proper(cd) && g < |qs| == QUEUES && g < Groups(cd)
    ensures Unserved(cd, qs[g := q]) == Unserved(cd, qs)
  {
    GroupsFit(cd);
    hide Groups;
  }

  lemma {:induction false} TotalSplit(qs: seq<seq<Record>>, k: nat)
    requires k <= |qs|
    ensures Total(qs) == Total(qs[..k]) + Total(qs[k..])
  {
    hide Count;
    if k == 0 {
      assert qs[..0] == [] && qs[0..] == qs;
    } else {
      TotalSplit(qs[1..], k - 1);
      assert qs[..k][1..] == qs[1..][..k - 1] && qs[k..] == qs[1..][k - 1..];
    }
  }

  /** The records of all queues are those that frames lead to and those that are stuck. */
  lemma {:induction false} UnservedTakeSpace(cd: ChanDesc, qs: seq<seq<Record>>)
    requires Proper(cd) && |qs| == QUEUES
    ensures Total(qs) == Total(Served(cd, qs)) + Total(Unserved(cd, qs))
  {
    GroupsFit(cd);
    TotalSplit(qs, Groups(cd));
    hide Groups, Total;
  }

  /** An operation on the paging state, and what its callers see to: well-formed arguments,
      existing groups, and frames of the CCCH. */
  datatype Op =
    | Page(group: Octet, lv: seq<Octet>, chan: Octet, now: int)
    | FromPcu(imsiGroup: nat, msg: seq<Octet>, confirm: bool, id: nat)
    | Frame(fn: Fn, now: int, nln: Option<Nln>)

  predicate Possible(cd: ChanDesc, op: Op)
    requires Proper(cd)
  {
    match op
    case Page(_, lv, _, _) => |lv| > 0 && lv[0] < |lv|
    case FromPcu(group, msg, _, _) => group < Groups(cd) && |msg| == MACBLOCK_LEN
    case Frame(fn, _, _) => OnCcch(cd, fn)
  }

  class PagingState {
    var cd: ChanDesc
    var lifetime: nat
    var max: nat
    var num: int
    var csPriority: bool
    const queues: array<seq<Record>>
    const etws: EtwsState

    /** The counter is the number of normal records in all queues, each identity at most
        once in a queue. */
    ghost predicate Valid()
      reads this, queues
    {
      && Proper(cd)
      && ProperQueues(queues[..])
      && num == Total(queues[..])
    }

    ghost function QueueAt(g: int): (q: seq<Record>)
      reads queues
    {
      if 0 <= g < queues.Length then queues[g] else []
    }

    constructor (cd: ChanDesc, max: nat, lifetime: nat, etws: EtwsState)
      requires Proper(cd)
      ensures Valid() && fresh(queues) && num == 0 && this.cd == cd && this.etws == etws
      ensures this.max == max && this.lifetime == lifetime && !csPriority
      ensures forall g :: 0 <= g < QUEUES ==> queues[g] == []
    {
      this.cd, this.max, this.lifetime, this.etws := cd, max, lifetime, etws;
      num, csPriority := 0, false;
      queues := new seq<Record>[QUEUES](_ => []);
      new;
      TotalOfEmpty(queues[..]);
    }

    method CheckCongestion()
      requires Valid()
      modifies this`csPriority
      ensures csPriority == CsPriority(old(csPriority), num, max)
    {
      if num > max * THRESHOLD_CONGESTED / 100 && !csPriority {
        csPriority := true;
      } else if num < max * THRESHOLD_CLEAR / 100 {
        csPriority := false;
      }
    }

    /** Replaces one queue. */
    method Put(g: nat, q: seq<Record>)
      requires Proper(cd) && ProperQueues(queues[..]) && g < QUEUES
      requires ProperQueue(q) && NoTwins(q)
      requires num == Total(queues[..]) - Count(queues[g], None) + Count(q, None)
      modifies queues
      ensures Valid() && queues[..] == old(queues[..])[g := q]
    {
      hide ProperQueue, NoTwins, Total, Count;
      TotalUpdate(queues[..], g, q);
      queues[g] := q;
      assert queues[..] == old(queues[..])[g := q];
    }

    /** A page from the BSC. */
    method AddIdentity(group: Octet, lv: seq<Octet>, chan: Octet, now: int) returns (r: AddResult)
      requires Valid() && |lv| > 0 && lv[0] < |lv|
      modifies this`num, this`csPriority, queues
      ensures Valid() && csPriority == CsPriority(old(csPriority), old(num), max) && Groups(cd) <= QUEUES
      ensures r == if group >= Groups(cd) then NoSuchGroup else if old(num) >= max then NoSpace
                   else if Queued(old(queues[group]), lv) then Exists
                   else if lv[0] > MAX_IDENTITY then TooBig else Added
      ensures r.NoSpace? <==>
        group < Groups(cd) && old(Total(Served(cd, queues[..]))) >= max - old(Total(Unserved(cd, queues[..])))
      ensures num == old(num) + (if r.Added? then 1 else 0)
      ensures Unserved(cd, queues[..]) == old(Unserved(cd, queues[..]))
      ensures old(num) <= max ==> num <= max
      ensures r.Added? ==>
        queues[..] == old(queues[..])[group := [Normal(now + lifetime, chan, Padded(lv))] + old(queues[group])]
      ensures r.Exists? ==>
        && IsRefreshed(queues[group], old(queues[group]), lv, now + lifetime)
        && queues[..] == old(queues[..])[group := queues[group]]
      ensures !r.Added? && !r.Exists? ==> queues[..] == old(queues[..])
    {
      hide Unserved, SameIdentity, Padded, ProperRecord, Total, Count;
      CheckCongestion();
      GroupsFit(cd);
      UnservedTakeSpace(cd, queues[..]);
      if group >= Groups(cd) { return NoSuchGroup; }
      if num >= max { return NoSpace; }
      var q := queues[group];
      assert ProperQueue(q) && NoTwins(q);
      var i := Find(q, lv);
      if i < |q| {
        RefreshOne(q, lv, i, now + lifetime);
        UnservedKept(cd, queues[..], group, q[i := q[i].(expires := now + lifetime)]);
        hide SameIdentity, ProperRecord, ProperQueue, NoTwins, Total, Count;
        Put(group as int, q[i := q[i].(expires := now + lifetime)]);
        return Exists;
      }
      if lv[0] + 1 > MAX_IDENTITY + 1 { return TooBig; }
      AddAtHead(q, lv, chan, now + lifetime);
      UnservedKept(cd, queues[..], group, [Normal(now + lifetime, chan, Padded(lv))] + q);
      hide SameIdentity, Padded, ProperRecord, ProperQueue, NoTwins, Total, Count;
      num := num + 1;
      Put(group as int, [Normal(now + lifetime, chan, Padded(lv))] + q);
      return Added;
    }

    /** A ready block from the PCU for the group of an IMSI; none while CS paging has priority. */
    method AddMacblock(group: nat, msg: seq<Octet>, confirm: bool, id: nat) returns (ok: bool)
      requires Valid() && group < Groups(cd) && |msg| == MACBLOCK_LEN
      modifies this`csPriority, queues
      ensures Valid() && csPriority == CsPriority(old(csPriority), num, max) && ok == !csPriority
      ensures group < QUEUES && Unserved(cd, queues[..]) == old(Unserved(cd, queues[..]))
      ensures queues[..] == if ok then old(queues[..])[group := [MacBlock(msg, confirm, id)] + old(queues[group])]
                            else old(queues[..])
    {
      CheckCongestion();
      GroupsFit(cd);
      if csPriority { return false; }
      var q := queues[group];
      UnservedKept(cd, queues[..], group, [MacBlock(msg, confirm, id)] + q);
      MacAtHead(q, MacBlock(msg, confirm, id));
      hide ProperRecord, ProperQueue, NoTwins, Total, Count;
      Put(group, [MacBlock(msg, confirm, id)] + q);
      return true;
    }

    /** New channel parameters; what is queued stays in the queue it is in. */
    method SiUpdate(cd: ChanDesc)
      requires Valid() && Proper(cd)
      modifies this`cd
      ensures Valid() && this.cd == cd
    {
      this.cd := cd;
    }

    /** Drops everything. The counter goes down for MAC blocks as well, which it never
        counted, and wraps below zero; so it is set to zero in the end. */
    method Reset()
      requires Valid()
      modifies this`num, queues
      ensures Valid() && num == 0 && forall g :: 0 <= g < QUEUES ==> queues[g] == []
    {
      for g := 0 to QUEUES
        invariant forall h :: 0 <= h < g ==> queues[h] == []
      {
        while queues[g] != []
          invariant forall h :: 0 <= h < g ==> queues[h] == []
          decreases |queues[g]|
        {
          queues[g] := queues[g][1..];
          num := if num == 0 then 0xFFFF_FFFF else num - 1;
        }
      }
      num := 0;
      TotalOfEmpty(queues[..]);
    }

    /** The paging block of a frame, at time now. */
    method GenMsg(fn: Fn, now: int, nln: Option<Nln>) returns (out: Output)
      requires Valid() && etws.Valid() && (etws.notif != [] ==> etws.Ready())
      modifies this`num, this`csPriority, queues, etws`nextPage
      ensures Valid() && etws.Valid() && (etws.notif != [] ==> etws.Ready())
      ensures csPriority == CsPriority(old(csPriority), old(num), max) && old(num) - MAX_RECORDS <= num <= old(num)
      ensures OnCcch(cd, fn) ==> Unserved(cd, queues[..]) == old(Unserved(cd, queues[..]))
      ensures PagSubch(cd, fn) < QUEUES && (out.WrongTime? <==> PagSubch(cd, fn) < 0)
      ensures out.Request? ==> FillsMacBlock(out.block)
      ensures out.Request? && out.isEmpty <==>
        PagSubch(cd, fn) >= 0 && etws.notif == [] && old(QueueAt(PagSubch(cd, fn))) == []
      // Nothing of the queues changes when none is looked at.
      ensures PagSubch(cd, fn) < 0 || etws.notif != [] ==> queues[..] == old(queues[..]) && num == old(num)
      // An emergency warning goes out in an empty page, then its next page is due.
      ensures PagSubch(cd, fn) >= 0 && etws.notif != [] ==>
        && out.Request? && Decode(out.block) == [Paged(Mobile([0xF0]), 0)]
        && IsRendered(out.block.rest, P1Bits(PageRest(etws.notif, old(etws.nextPage))))
        && etws.nextPage == PageAfter(old(etws.nextPage), etws.numPages)
      ensures PagSubch(cd, fn) < 0 || etws.notif == [] ==> etws.nextPage == old(etws.nextPage)
      ensures out.Request? && out.isEmpty ==>
        && Decode(out.block) == [Paged(Mobile([0xF0]), 0)]
        && IsRendered(out.block.rest, P1Bits(P1(nln, false, false, None)))
      // Otherwise the block carries what the queue has to send, and the queue keeps the rest.
      ensures PagSubch(cd, fn) >= 0 && etws.notif == [] ==>
        var q := old(QueueAt(PagSubch(cd, fn)));
        && queues[..] == old(queues[..])[PagSubch(cd, fn) := After(q, now)]
        && num == old(num) - Count(Removed(q, now), None)
        && (q != [] ==> IsOutput(out, q))
      // A MAC block among the first four records goes out unaltered, confirmed if so wanted.
      ensures PagSubch(cd, fn) >= 0 && etws.notif == [] ==>
        var q := old(QueueAt(PagSubch(cd, fn)));
        var n := Leading(q, MAX_RECORDS);
        n < 4 && n < |q| ==>
          var m := q[n];
          && m.MacBlock? && out.Ready? && out.msg == m.msg && |out.msg| == MACBLOCK_LEN
          && (m.confirm ==> out.confirmed == Some(m.id)) && (!m.confirm ==> out.confirmed == None)
    {
      hide Unserved, PagSubch, OnCcch, Leading, IsOutput, After, Removed, Count, Total, ProperQueue, NoTwins, Decode;
      CheckCongestion();
      var g := PagSubch(cd, fn);
      ServedQueueExists(cd, fn);
      if g < 0 { return WrongTime; }
      ghost var q := queues[g];
      if OnCcch(cd, fn) {
        VisitedInRange(cd, fn);
        UnservedKept(cd, queues[..], g, After(q, now));
      }
      if etws.notif != [] {
        var p1 := etws.BuildP1();
        var b := FillEmpty(p1);
        return Request(b, false);
      }
      if queues[g] == [] {
        var b := FillEmpty(P1(nln, false, false, None));
        NothingToSend(now);
        assert queues[..] == queues[..][g := []];
        return Request(b, true);
      }
      out := GenFrom(g, now, nln);
      MacGoesOut(out, q);
      OutputShape(out, q);
    }

    /** Any run of pages, MAC blocks and frames of the CCCH without an update or a reset: what is
        stuck stays stuck, the other queues never hold more than what it leaves of the limit,
        and no page at all is accepted if it leaves nothing. */
    method RunStuck(ops: seq<Op>) returns (accepted: nat)
      requires Valid() && etws.Valid() && (etws.notif != [] ==> etws.Ready()) && num <= max
      requires forall i :: 0 <= i < |ops| ==> Possible(cd, ops[i])
      modifies this`num, this`csPriority, queues, etws`nextPage
      ensures Valid() && Unserved(cd, queues[..]) == old(Unserved(cd, queues[..]))
      ensures Total(Served(cd, queues[..])) <= max - old(Total(Unserved(cd, queues[..])))
      ensures old(Total(Unserved(cd, queues[..]))) >= max ==> accepted == 0
    {
      hide Unserved, Served, Total, ProperQueue, NoTwins, Queued, OnCcch, IsRefreshed, Padded, Groups;
      accepted := 0;
      ghost var stuck := Unserved(cd, queues[..]);
      for i := 0 to |ops|
        invariant Valid() && etws.Valid() && (etws.notif != [] ==> etws.Ready()) && num <= max
        invariant Unserved(cd, queues[..]) == stuck
        invariant Total(stuck) >= max ==> accepted == 0
      {
        match ops[i]
        case Page(group, lv, chan, now) =>
          var r := AddIdentity(group, lv, chan, now);
          if r.Added? || r.Exists? { accepted := accepted + 1; }
        case FromPcu(group, msg, confirm, id) =>
          var ok := AddMacblock(group, msg, confirm, id);
        case Frame(fn, now, nln) =>
          var out := GenMsg(fn, now, nln);
      }
      UnservedTakeSpace(cd, queues[..]);
    }

    /** The part of GenMsg for a queue with records. */
    method GenFrom(g: nat, now: int, nln: Option<Nln>) returns (out: Output)
      requires Valid() && g < QUEUES && queues[g] != []
      modifies this`num, queues
      ensures Valid() && IsOutput(out, old(queues[g]))
      ensures queues[..] == old(queues[..])[g := After(old(queues[g]), now)]
      ensures num == old(num) - Count(Removed(old(queues[g]), now), None) >= old(num) - MAX_RECORDS
    {
      ghost var queue := queues[g];
      RemovesAtMostFour(queue, now);
      AfterKeeps(queue, now);
      CountAfter(queue, now, None);
      hide After, Removed, Count, Total, ProperQueue, NoTwins, IsOutput;
      var q, gone;
      q, gone, out := MakeBlock(queues[g], now, nln);
      num := num - gone;
      Put(g, q);
    }
  }

  lemma {:induction false} AllNormal(s: seq<Record>)
    requires forall i :: 0 <= i < |s| ==> s[i].Normal?
    ensures Count(s, None) == |s|
  {
    if s != [] { AllNormal(s[1..]); }
  }

  /** The pieces that a MAC block takes a queue apart into. */
  lemma {:induction false} AroundMacBlock(q: seq<Record>, now: int)
    requires TakesMacBlock(q)
    ensures var n := Leading(q, MAX_RECORDS);
            After(q, now) == Reversed(q[..n]) + q[n + 1..] && Count(Removed(q, now), None) == 0
  {
  }

  /** The pieces that a request takes a queue apart into. */
  lemma {:induction false} LookedAt(q: seq<Record>, now: int)
    requires q != [] && ProperQueue(q) && !TakesMacBlock(q)
    ensures var n := Leading(q, MAX_RECORDS);
            var c := Candidates(q);
            var k := SentCount(c);
            && 1 <= n == |c| && Sorted(q[..n]) == c && Imsis(c) == Imsis(q[..n])
            && (forall i :: 0 <= i < n ==> c[i].Normal? && ProperRecord(c[i]))
            && Sent(q) == c[..k]
            && After(q, now) == Reversed(c[k..]) + q[n..] + Expired(c[..k], now, false)
            && Count(Removed(q, now), None) == |Expired(c[..k], now, true)|
  {
    hide Imsi, Those, Expired, Reversed, ProperRecord;
    CandidatesAreNormal(q);
    ImsisOfLeading(q);
    AllNormal(Removed(q, now));
  }

  lemma {:induction false} ExpiredSize(s: seq<Record>, now: int, gone: bool)
    requires forall i :: 0 <= i < |s| ==> s[i].Normal?
    ensures |Expired(s, now, gone)| <= |s|
  {
    if s != [] { ExpiredSize(s[1..], now, gone); }
  }

  lemma {:induction false} RemovesAtMostFour(q: seq<Record>, now: int)
    requires ProperQueue(q)
    ensures Count(Removed(q, now), None) <= MAX_RECORDS
  {
    if TakesMacBlock(q) {
      AroundMacBlock(q, now);
    } else if q == [] {
      CountAfter(q, now, None);
    } else {
      LookedAt(q, now);
      var c := Candidates(q);
      hide Candidates, Removed, Expired, Leading;
      ExpiredSize(c[..SentCount(c)], now, true);
    }
  }

  lemma {:induction false} MacIsOutput(q: seq<Record>)
    requires TakesMacBlock(q) && ProperQueue(q)
    ensures q[Leading(q, MAX_RECORDS)].MacBlock?
    ensures var m := q[Leading(q, MAX_RECORDS)];
            IsOutput(Ready(m.msg, if m.confirm then Some(m.id) else None), q)
  {
  }

  lemma OutputShape(out: Output, q: seq<Record>)
    requires IsOutput(out, q)
    ensures out.Ready? || (out.Request? && !out.isEmpty && FillsMacBlock(out.block))
  {
  }

  lemma NothingToSend(now: int)
    ensures After([], now) == [] && Count(Removed([], now), None) == 0
  {
  }

  lemma {:induction false} MacGoesOut(out: Output, q: seq<Record>)
    requires IsOutput(out, q)
    ensures var n := Leading(q, MAX_RECORDS);
            n < 4 && n < |q| ==>
              var m := q[n];
              && m.MacBlock? && out.Ready? && out.msg == m.msg && |out.msg| == MACBLOCK_LEN
              && (m.confirm ==> out.confirmed == Some(m.id)) && (!m.confirm ==> out.confirmed == None)
  {
    hide Sent, Leading;
  }

  lemma {:induction false} SentIsOutput(q: seq<Record>, b: Block)
    requires q != [] && !TakesMacBlock(q) && FillsMacBlock(b)
    requires forall i :: 0 <= i < |Sent(q)| ==> Sent(q)[i].Normal? && ProperRecord(Sent(q)[i])
    requires Decode(b) == PagedAs(Sent(q))
    ensures IsOutput(Request(b, false), q)
  {
    hide Sent, TakesMacBlock, Decode, PagedAs, ProperRecord, FillsMacBlock;
  }

  /** A type 1 message that pages nobody. */
  method FillEmpty(p1: P1) returns (b: Block)
    requires |P1Bits(p1)| <= 8 * 17
    ensures FillsMacBlock(b) && Decode(b) == [Paged(Mobile([0xF0]), 0)] && IsRendered(b.rest, P1Bits(p1))
  {
    hide IsRendered, P1Bits;
    assert Value(EMPTY_ID) == [0xF0];
    Type1RoundTrip(EMPTY_ID, 0, None, 0, []);
    b := FillType1(EMPTY_ID, 0, None, 0, Some(p1));
    Type1RoundTrip(EMPTY_ID, 0, None, 0, b.rest);
    hide Decode, Type1;
  }

  lemma {:induction false} CountImsi(q: seq<Record>, n: nat)
    requires n < |q|
    ensures Imsis(q[..n + 1]) == Imsis(q[..n]) + (if Imsi(q[n]) then 1 else 0)
  {
    assert q[..n + 1] == q[..n] + [q[n]];
    ThoseAppend(q[..n], [q[n]], true);
    assert [q[n]][1..] == [];
  }

  lemma {:induction false} GroupsFit(cd: ChanDesc)
    requires Proper(cd)
    ensures Groups(cd) <= QUEUES
  {
    NineByNine(PagBlocks(cd), Cycle(cd));
  }
}
