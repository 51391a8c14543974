/** What a mobile makes of an ETWS primary notification: reading a page from the rest octets
    of a type 1 message, and putting the pages together. */
module EtwsReading {
  import opened Basics
  import opened Tdma
  import opened PagingMessage
  import opened EtwsPages

  /** A page as read from the rest octets; nr counts all pages in the first one. */
  datatype Heard = Heard(isFirst: bool, nr: nat, pni: bool, page: seq<Octet>)

  function Pow2(n: nat): (p: nat)
    ensures p > 0
  {
    if n == 0 then 1 else 2 * Pow2(n - 1)
  }

  /** n bits from p on, most significant first. */
  function ReadNum(rest: seq<bool>, p: nat, n: nat): (v: nat)
    requires p + n <= |rest|
  {
    if n == 0 then 0 else 2 * ReadNum(rest, p, n - 1) + (if rest[p + n - 1] then 1 else 0)
  }

  function ReadOctets(rest: seq<bool>, p: nat, n: nat): (os: seq<nat>)
    requires p + 8 * n <= |rest|
  {
    if n == 0 then [] else ReadOctets(rest, p, n - 1) + [ReadNum(rest, p + 8 * (n - 1), 8)]
  }

  const NR_AT: nat := 12
  const PNI_AT: nat := 16
  const LEN_AT: nat := 17
  const PAGE_AT: nat := 24

  /** The ETWS page in the rest octets of a type 1 message, if they are long enough. */
  function ReadPage(rest: seq<bool>): (h: Heard) {
    if |rest| < PAGE_AT || |rest| < PAGE_AT + 8 * (ReadNum(rest, LEN_AT, 7) / 8) then Heard(false, 0, false, [])
    else
      var octets := ReadOctets(rest, PAGE_AT, ReadNum(rest, LEN_AT, 7) / 8);
      OctetsAreSmall(rest, PAGE_AT, ReadNum(rest, LEN_AT, 7) / 8);
      Heard(!rest[NR_AT - 1], ReadNum(rest, NR_AT, 4), rest[PNI_AT],
            seq(|octets|, i requires 0 <= i < |octets| => octets[i] as Octet))
  }

  lemma {:induction false} NumIsSmall(rest: seq<bool>, p: nat, n: nat)
    requires p + n <= |rest|
    ensures ReadNum(rest, p, n) < Pow2(n)
  {
    if n > 0 { NumIsSmall(rest, p, n - 1); }
  }

  lemma Powers()
    ensures Pow2(4) == 16 && Pow2(7) == 128 && Pow2(8) == 256
  {
    assert Pow2(1) == 2 && Pow2(2) == 4 && Pow2(3) == 8 && Pow2(4) == 16;
    assert Pow2(5) == 32 && Pow2(6) == 64 && Pow2(7) == 128;
  }

  lemma {:induction false} OctetsAreSmall(rest: seq<bool>, p: nat, n: nat)
    requires p + 8 * n <= |rest|
    ensures |ReadOctets(rest, p, n)| == n
    ensures forall i :: 0 <= i < n ==> ReadOctets(rest, p, n)[i] < 256
  {
    if n > 0 {
      OctetsAreSmall(rest, p, n - 1);
      NumIsSmall(rest, p + 8 * (n - 1), 8);
      Powers();
    }
  }

  lemma SubSlice(s: seq<Bit>, p: nat, n: nat, from: nat, to: nat)
    requires p + n <= |s| && from <= to <= n
    ensures s[p..p + n][from..to] == s[p + from..p + to]
  {
    var a, b := s[p..p + n][from..to], s[p + from..p + to];
    assert |a| == |b| && forall k :: 0 <= k < |a| ==> a[k] == s[p + from + k] == b[k];
  }

  /** Numbers written as bits read back, up to what fits the bits. */
  lemma {:induction false} NumReadsBack(rest: seq<bool>, syms: seq<Bit>, p: nat, v: nat, n: nat)
    requires IsRendered(rest, syms) && p + n <= |syms| && syms[p..p + n] == Uint(v, n)
    ensures ReadNum(rest, p, n) == v % Pow2(n)
  {
    if n > 0 {
      var b := if v % 2 == 1 then One else Zero;
      SubSlice(syms, p, n, 0, n - 1);
      assert (Uint(v / 2, n - 1) + [b])[..n - 1] == Uint(v / 2, n - 1);
      assert syms[p + n - 1] == syms[p..p + n][n - 1] == b;
      NumReadsBack(rest, syms, p, v / 2, n - 1);
      Halved(v, Pow2(n - 1));
    }
  }

  lemma Halved(v: nat, k: nat)
    requires k > 0
    ensures v % (2 * k) == 2 * (v / 2 % k) + v % 2
  {
    var q, r := v / 2 / k, v / 2 % k;
    assert v / 2 == q * k + r;
    assert v == q * (2 * k) + (2 * r + v % 2);
    DivModUnique(v, q, 2 * r + v % 2, 2 * k);
  }

  lemma {:induction false} OctetsReadBack(rest: seq<bool>, syms: seq<Bit>, p: nat, bs: seq<Octet>)
    requires IsRendered(rest, syms) && p + 8 * |bs| <= |syms| && syms[p..p + 8 * |bs|] == Bytes(bs)
    ensures ReadOctets(rest, p, |bs|) == seq(|bs|, i requires 0 <= i < |bs| => bs[i] as nat)
  {
    var n := |bs|;
    if n > 0 {
      var before := bs[..n - 1];
      SubSlice(syms, p, 8 * n, 0, 8 * (n - 1));
      SubSlice(syms, p, 8 * n, 8 * (n - 1), 8 * n);
      assert Bytes(bs)[..8 * (n - 1)] == Bytes(before) && Bytes(bs)[8 * (n - 1)..] == Uint(bs[n - 1], 8);
      OctetsReadBack(rest, syms, p, before);
      NumReadsBack(rest, syms, p + 8 * (n - 1), bs[n - 1], 8);
      Powers();
      DivModUnique(bs[n - 1], 0, bs[n - 1], 256);
      hide IsRendered, Uint, Bytes, ReadNum;
    }
  }

  /** What page k of a notification reads as: its number has four bits, and the bit of the
      notification identifier is never set. */
  function HeardOf(notif: seq<Octet>, k: nat): (h: Heard)
    requires k < PageCount(|notif|)
  {
    Heard(k == 0, (if k == 0 then PageCount(|notif|) else k + 1) % 16, false, PageAt(notif, k))
  }

  lemma {:induction false} PageLayout(notif: seq<Octet>, k: nat)
    requires k < PageCount(|notif|)
    ensures var page := PageAt(notif, k);
            var nr := if k == 0 then PageCount(|notif|) else k + 1;
            var syms := P1Bits(PageRest(notif, k));
            && |syms| == PAGE_AT + 8 * |page|
            // No notification number, priority, group call, packet paging nor older release; release 8 with
            // no prioritized access but a page.
            && syms[..11] == [L, L, L, L, L, L, L, L, H, Zero, One]
            && syms[NR_AT - 1] == (if k == 0 then Zero else One) && syms[PNI_AT] == Zero
            && syms[NR_AT..NR_AT + 4] == Uint(nr, 4) && syms[LEN_AT..LEN_AT + 7] == Uint(8 * |page|, 7)
            && syms[PAGE_AT..PAGE_AT + 8 * |page|] == Bytes(page)
  {
    var page := PageAt(notif, k);
    var nr := if k == 0 then PageCount(|notif|) else k + 1;
    hide PageAt, PageCount, Bytes, Uint;
    var e := Etws(k == 0, nr, page);
    var r := PageRest(notif, k).r8;
    assert EtwsBits(e)[..1] == [if k == 0 then Zero else One];
    var syms := P1Bits(PageRest(notif, k));
    assert Rel8Bits(r) == [H, Zero] + ([One] + EtwsBits(e));
    assert syms[11..] == EtwsBits(e);
    assert syms[NR_AT..NR_AT + 4] == EtwsBits(e)[1..5] == Uint(nr, 4);
    assert syms[LEN_AT..LEN_AT + 7] == EtwsBits(e)[6..13] == Uint(8 * |page|, 7);
    assert syms[PAGE_AT..PAGE_AT + 8 * |page|] == EtwsBits(e)[13..] == Bytes(page);
  }

  /** From any type 1 message with an ETWS page a mobile reads that page, and its number
      modulo 16; the notification identifier is zero whatever was toggled. */
  lemma {:induction false} PageReadsBack(notif: seq<Octet>, k: nat, rest: seq<bool>)
    requires k < PageCount(|notif|) && IsRendered(rest, P1Bits(PageRest(notif, k)))
    ensures ReadPage(rest) == HeardOf(notif, k)
  {
    var page := PageAt(notif, k);
    var nr := if k == 0 then PageCount(|notif|) else k + 1;
    assert HeardOf(notif, k) == Heard(k == 0, nr % 16, false, page);
    hide *;
    PageLayout(notif, k);
    FieldsReadBack(rest, P1Bits(PageRest(notif, k)), k == 0, nr, page);
  }

  lemma {:induction false} FieldsReadBack(rest: seq<bool>, syms: seq<Bit>, isFirst: bool, nr: nat, page: seq<Octet>)
    requires |page| <= PAGE_SIZE && IsRendered(rest, syms) && |syms| == PAGE_AT + 8 * |page|
    requires syms[NR_AT - 1] == (if isFirst then Zero else One) && syms[PNI_AT] == Zero
    requires syms[NR_AT..NR_AT + 4] == Uint(nr, 4) && syms[LEN_AT..LEN_AT + 7] == Uint(8 * |page|, 7)
    requires syms[PAGE_AT..PAGE_AT + 8 * |page|] == Bytes(page)
    ensures ReadPage(rest) == Heard(isFirst, nr % 16, false, page)
  {
    assert rest[NR_AT - 1] == !isFirst && !rest[PNI_AT] && |rest| >= |syms|;
    hide Uint, Bytes, ReadNum, IsRendered, ReadOctets;
    NumReadsBack(rest, syms, NR_AT, nr, 4);
    NumReadsBack(rest, syms, LEN_AT, 8 * |page|, 7);
    OctetsReadBack(rest, syms, PAGE_AT, page);
    Powers();
    DivModUnique(8 * |page|, 0, 8 * |page|, 128);
    assert ReadNum(rest, LEN_AT, 7) / 8 == |page|;
    OctetsAreSmall(rest, PAGE_AT, |page|);
    assert ReadPage(rest).page == page;
  }

  // ----- Putting the notification together ---------------------------------------------------

  /** The place a page belongs to, by its number. */
  function Place(h: Heard): int {
    if h.isFirst then 0 else h.nr - 1
  }

  /** The first page heard for a place; empty if there is none. */
  function PageFor(heard: seq<Heard>, place: nat): (p: seq<Octet>) {
    if heard == [] then []
    else if Place(heard[0]) == place then heard[0].page
    else PageFor(heard[1..], place)
  }

  /** How many pages there are, as the first page says. */
  function PagesAnnounced(heard: seq<Heard>): (n: nat) {
    if heard == [] then 0 else if heard[0].isFirst then heard[0].nr else PagesAnnounced(heard[1..])
  }

  function Assembled(heard: seq<Heard>, n: nat): (s: seq<Octet>) {
    if n == 0 then [] else Assembled(heard, n - 1) + PageFor(heard, n - 1)
  }

  /** What a mobile makes of the pages heard, in whatever order and however often. */
  function Notification(heard: seq<Heard>): (s: seq<Octet>) {
    Assembled(heard, PagesAnnounced(heard))
  }

  /** Pages of this notification, each of them heard at least once. */
  ghost predicate Complete(heard: seq<Heard>, notif: seq<Octet>) {
    && (forall i :: 0 <= i < |heard| ==> IsPageOf(heard[i], notif))
    && (forall k: nat :: k < PageCount(|notif|) ==> HeardOf(notif, k) in heard)
  }

  ghost predicate IsPageOf(h: Heard, notif: seq<Octet>) {
    exists k: nat :: k < PageCount(|notif|) && h == HeardOf(notif, k)
  }

  lemma {:induction false} AnnouncedPages(heard: seq<Heard>, notif: seq<Octet>)
    requires notif != [] && HeardOf(notif, 0) in heard
    requires forall i :: 0 <= i < |heard| ==> IsPageOf(heard[i], notif)
    ensures PagesAnnounced(heard) == PageCount(|notif|) % 16
  {
    assert IsPageOf(heard[0], notif);
    if !heard[0].isFirst {
      assert forall i :: 0 <= i < |heard| - 1 ==> heard[1..][i] == heard[i + 1];
      assert HeardOf(notif, 0) in heard[1..];
      AnnouncedPages(heard[1..], notif);
    }
  }

  lemma {:induction false} PageForIsPage(heard: seq<Heard>, notif: seq<Octet>, k: nat)
    requires k < PageCount(|notif|) <= 15 && HeardOf(notif, k) in heard
    requires forall i :: 0 <= i < |heard| ==> IsPageOf(heard[i], notif)
    ensures PageFor(heard, k) == PageAt(notif, k)
  {
    assert IsPageOf(heard[0], notif);
    if Place(heard[0]) != k {
      assert forall i :: 0 <= i < |heard| - 1 ==> heard[1..][i] == heard[i + 1];
      assert HeardOf(notif, k) in heard[1..];
      PageForIsPage(heard[1..], notif, k);
    }
  }

  lemma {:induction false} AssembledIsJoined(heard: seq<Heard>, notif: seq<Octet>, n: nat)
    requires n <= PageCount(|notif|) <= 15 && Complete(heard, notif)
    ensures Assembled(heard, n) == Joined(notif, n)
  {
    hide HeardOf, PageAt, PageCount, PageFor, IsPageOf;
    if n > 0 {
      AssembledIsJoined(heard, notif, n - 1);
      PageForIsPage(heard, notif, n - 1);
    }
  }

  lemma {:induction false} PageForSize(heard: seq<Heard>, notif: seq<Octet>, place: nat)
    requires forall i :: 0 <= i < |heard| ==> IsPageOf(heard[i], notif)
    ensures |PageFor(heard, place)| <= PAGE_SIZE
  {
    if heard != [] {
      assert IsPageOf(heard[0], notif);
      assert forall i :: 0 <= i < |heard| - 1 ==> heard[1..][i] == heard[i + 1];
      PageForSize(heard[1..], notif, place);
    }
  }

  lemma {:induction false} AssembledSize(heard: seq<Heard>, notif: seq<Octet>, n: nat)
    requires forall i :: 0 <= i < |heard| ==> IsPageOf(heard[i], notif)
    ensures |Assembled(heard, n)| <= PAGE_SIZE * n
  {
    if n > 0 {
      AssembledSize(heard, notif, n - 1);
      PageForSize(heard, notif, n - 1);
    }
  }

  /** Whoever has heard every page puts the notification together, in whatever order the
      pages came, if and only if there are no more than 15: their number has four bits. */
  lemma {:induction false} ReassemblesExactlyWhen(heard: seq<Heard>, notif: seq<Octet>)
    requires notif != [] && Complete(heard, notif)
    ensures Notification(heard) == notif <==> PageCount(|notif|) <= 15
  {
    hide HeardOf, PageAt, PageFor, IsPageOf, Assembled, Joined, PageCount;
    var n := PageCount(|notif|);
    AnnouncedPages(heard, notif);
    if n <= 15 {
      AssembledIsJoined(heard, notif, n);
      PagesReassemble(notif);
    } else {
      AssembledSize(heard, notif, n % 16);
    }
  }

  /** A cycle of calls is enough for that, wherever it starts. */
  function Cycle(notif: seq<Octet>, start: nat, calls: nat): (heard: seq<Heard>)
    requires start < PageCount(|notif|)
    decreases calls
  {
    if calls == 0 then []
    else [HeardOf(notif, start)] + Cycle(notif, PageAfter(start, PageCount(|notif|)), calls - 1)
  }

  lemma {:induction false} CycleIsPages(notif: seq<Octet>, start: nat, calls: nat)
    requires start < PageCount(|notif|)
    ensures |Cycle(notif, start, calls)| == calls
    ensures forall i :: 0 <= i < calls ==>
              && PagesFrom(start, PageCount(|notif|), calls)[i] < PageCount(|notif|)
              && Cycle(notif, start, calls)[i] == HeardOf(notif, PagesFrom(start, PageCount(|notif|), calls)[i])
    decreases calls
  {
    hide HeardOf, PageCount;
    if calls > 0 { CycleIsPages(notif, PageAfter(start, PageCount(|notif|)), calls - 1); }
  }

  lemma {:induction false} CycleIsComplete(notif: seq<Octet>, start: nat)
    requires start < PageCount(|notif|)
    ensures Complete(Cycle(notif, start, PageCount(|notif|)), notif)
  {
    var n := PageCount(|notif|);
    var heard := Cycle(notif, start, n);
    CycleIsPages(notif, start, n);
    hide HeardOf, PageCount, Cycle, PagesFrom;
    forall k: nat | k < n
      ensures HeardOf(notif, k) in heard
    {
      var i := if k >= start then k - start else k + n - start;
      EveryPageOncePerCycle(start, n, k, i);
      assert heard[i] == HeardOf(notif, k);
    }
  }
}
