/** AGCH queue: merging of IMMEDIATE ASSIGNMENT REJECT messages (section 9.1.20 of
    3GPP TS 44.018) and compaction of an overlong queue. */
module Agch {
  import opened Basics
  import opened Tdma

  /** A request reference, three octets taken as one number. */
  type Ref = x: int | 0 <= x < 0x100_0000

  /** One rejected request with its wait indication. */
  datatype Entry = Entry(ref: Ref, wait: Octet)

  /** A queued message: a reject with its four entries, or anything else. */
  datatype Msg = Reject(e1: Entry, e2: Entry, e3: Entry, e4: Entry) | Plain(body: nat)

  const PER_REJECT: nat := 4
  const HARD_LIMIT: nat := 100

  /** What storing a list leaves in a reject: its first four entries, the first one
      repeated where the list is shorter. */
  function Stored(es: seq<Entry>): (m: Msg)
    requires es != []
  {
    Reject(es[0], if |es| > 1 then es[1] else es[0], if |es| > 2 then es[2] else es[0], if |es| > 3 then es[3] else es[0])
  }

  /** The entries of a reject without repetitions of a reference. */
  function Extracted(m: Msg): (es: seq<Entry>)
    requires m.Reject?
  {
    [m.e1]
    + (if m.e1.ref != m.e2.ref then [m.e2] else [])
    + (if m.e1.ref != m.e3.ref && m.e2.ref != m.e3.ref then [m.e3] else [])
    + (if m.e1.ref != m.e4.ref && m.e2.ref != m.e4.ref && m.e3.ref != m.e4.ref then [m.e4] else [])
  }

  datatype Merged = Merged(first: Msg, second: Msg, full: bool)

  /** Merging the second message into the first; full if the second one is used up. */
  function Merge(o: Msg, n: Msg): (r: Merged) {
    if !n.Reject? || !o.Reject? then Merged(o, n, false)
    else
      var es := Extracted(o);
      if |es| == PER_REJECT then Merged(o, n, false)
      else
        var all := es + Extracted(n);
        if |all| <= PER_REJECT then Merged(Stored(all), n, true)
        else Merged(Stored(all), Stored(all[PER_REJECT..]), false)
  }

  // ----- The message, changed in place ---------------------------------------------------

  class ImmAss {
    const isReject: bool
    const body: nat
    var e1: Entry
    var e2: Entry
    var e3: Entry
    var e4: Entry

    function Value(): Msg
      reads this
    {
      if isReject then Reject(e1, e2, e3, e4) else Plain(body)
    }

    constructor (m: Msg)
      ensures Value() == m
    {
      isReject := m.Reject?;
      body := if m.Plain? then m.body else 0;
      if m.Reject? {
        e1, e2, e3, e4 := m.e1, m.e2, m.e3, m.e4;
      } else {
        e1, e2, e3, e4 := Entry(0, 0), Entry(0, 0), Entry(0, 0), Entry(0, 0);
      }
    }

    method Store(es: seq<Entry>) returns (stored: nat)
      requires isReject
      modifies this
      ensures stored == if |es| < PER_REJECT then |es| else PER_REJECT
      ensures Value() == if es == [] then old(Value()) else Stored(es)
    {
      if es == [] { return 0; }
      stored := if |es| < PER_REJECT then |es| else PER_REJECT;
      e1 := es[0];
      if stored >= 2 { e2 := es[1]; }
      if stored >= 3 { e3 := es[2]; }
      if stored >= 4 { e4 := es[3]; }
      if stored <= 1 { e2 := es[0]; }
      if stored <= 2 { e3 := es[0]; }
      if stored <= 3 { e4 := es[0]; }
    }

    method Extract() returns (es: seq<Entry>)
      requires isReject
      ensures es == Extracted(Value())
    {
      es := [e1];
      if e1.ref != e2.ref { es := es + [e2]; }
      if e1.ref != e3.ref && e2.ref != e3.ref { es := es + [e3]; }
      if e1.ref != e4.ref && e2.ref != e4.ref && e3.ref != e4.ref { es := es + [e4]; }
    }

    /** Merges a newer message into this one. */
    method TryMerge(newer: ImmAss) returns (full: bool)
      requires newer != this
      modifies this, newer
      ensures Merge(old(Value()), old(newer.Value())) == Merged(Value(), newer.Value(), full)
      ensures if isReject && newer.isReject then IsMerge(old(Value()), old(newer.Value()), Value(), newer.Value(), full)
              else !full && Value() == old(Value()) && newer.Value() == old(newer.Value())
    {
      if isReject && newer.isReject { MergeFillsUp(Value(), newer.Value()); }
      hide IsMerge;
      if !newer.isReject || !isReject { return false; }
      var es := Extract();
      if |es| == PER_REJECT { return false; }
      var more := newer.Extract();
      es := es + more;
      var stored := Store(es);
      if stored == |es| { return true; }
      stored := newer.Store(es[stored..]);
      return false;
    }
  }

  // ----- Losslessness of a merge ---------------------------------------------------------

  function RefsOf(m: Msg): (s: set<Ref>) {
    if m.Reject? then {m.e1.ref, m.e2.ref, m.e3.ref, m.e4.ref} else {}
  }

  function EntriesOf(m: Msg): (s: set<Entry>) {
    if m.Reject? then {m.e1, m.e2, m.e3, m.e4} else {}
  }

  function RefsIn(es: seq<Entry>): (s: set<Ref>) {
    set i | 0 <= i < |es| :: es[i].ref
  }

  function EntriesIn(es: seq<Entry>): (s: set<Entry>) {
    set i | 0 <= i < |es| :: es[i]
  }

  predicate Distinct(es: seq<Entry>) {
    forall i, j :: 0 <= i < j < |es| ==> es[i].ref != es[j].ref
  }

  /** Extraction keeps every reference once and invents no entry. */
  lemma ExtractedKeepsRefs(m: Msg)
    requires m.Reject?
    ensures RefsIn(Extracted(m)) == RefsOf(m) && Distinct(Extracted(m)) && 1 <= |Extracted(m)| <= PER_REJECT
    ensures EntriesIn(Extracted(m)) <= EntriesOf(m)
  {
    var es := Extracted(m);
    assert forall e :: e in es ==> e in EntriesOf(m);
    forall r | r in RefsOf(m)
      ensures r in RefsIn(es)
    {
      if r == m.e1.ref { assert es[0].ref == r; }
      else if r == m.e2.ref { assert es[1].ref == r; }
      else if r == m.e3.ref { assert m.e3 in es; }
      else { assert m.e4 in es; }
    }
  }

  /** A list of up to four requests survives being stored and extracted. */
  lemma {:induction false} ExtractInvertsStore(es: seq<Entry>)
    requires 1 <= |es| <= PER_REJECT && Distinct(es)
    ensures Extracted(Stored(es)) == es
  {
  }

  lemma StoredHoldsFirstFour(es: seq<Entry>)
    requires es != []
    ensures var kept := if |es| <= PER_REJECT then es else es[..PER_REJECT];
            RefsOf(Stored(es)) == RefsIn(kept) && EntriesOf(Stored(es)) == EntriesIn(kept)
  {
    var kept := if |es| <= PER_REJECT then es else es[..PER_REJECT];
    forall i | 0 <= i < |kept|
      ensures kept[i] in EntriesOf(Stored(es))
    {
    }
    assert kept[0] == es[0];
    if |es| > 1 { assert kept[1] == es[1]; }
    if |es| > 2 { assert kept[2] == es[2]; }
    if |es| > 3 { assert kept[3] == es[3]; }
  }

  lemma RefsOfSplit(a: seq<Entry>, b: seq<Entry>)
    ensures RefsIn(a + b) == RefsIn(a) + RefsIn(b) && EntriesIn(a + b) == EntriesIn(a) + EntriesIn(b)
  {
    var ab := a + b;
    assert forall i :: 0 <= i < |a| ==> ab[i] == a[i];
    assert forall i :: 0 <= i < |b| ==> ab[|a| + i] == b[i];
  }

  /** A merge loses no request and fabricates none, whether it uses the second message
      up or spills over into it; messages of other types are left alone. */
  lemma {:induction false} MergeIsLossless(o: Msg, n: Msg)
    ensures var r := Merge(o, n);
            && RefsOf(o) + RefsOf(n) == RefsOf(r.first) + (if r.full then {} else RefsOf(r.second))
            && EntriesOf(r.first) + EntriesOf(r.second) <= EntriesOf(o) + EntriesOf(n)
            && (r.full ==> o.Reject? && n.Reject?)
            && (o.Plain? || n.Plain? ==> r.first == o && r.second == n)
            && r.first.Reject? == o.Reject? && r.second.Reject? == n.Reject?
  {
    hide RefsOf, EntriesOf, RefsIn, EntriesIn, Extracted, Distinct;
    if o.Reject? && n.Reject? && |Extracted(o)| != PER_REJECT {
      var all := Extracted(o) + Extracted(n);
      ExtractedKeepsRefs(o);
      ExtractedKeepsRefs(n);
      RefsOfSplit(Extracted(o), Extracted(n));
      StoredHoldsFirstFour(all);
      if |all| > PER_REJECT {
        StoredHoldsFirstFour(all[PER_REJECT..]);
        RefsOfSplit(all[..PER_REJECT], all[PER_REJECT..]);
        assert all[..PER_REJECT] + all[PER_REJECT..] == all;
      }
    }
  }

  /** As many entries without repetitions as there are references. */
  lemma {:induction false} CountDistinct(es: seq<Entry>)
    requires Distinct(es)
    ensures |RefsIn(es)| == |es|
  {
    if es != [] {
      var before, last := es[..|es| - 1], es[|es| - 1];
      CountDistinct(before);
      RefsOfSplit(before, [last]);
      assert es == before + [last];
      assert RefsIn([last]) == {last.ref} && last.ref !in RefsIn(before);
    }
  }

  lemma {:induction false} CountRefs(m: Msg)
    requires m.Reject?
    ensures |Extracted(m)| == |RefsOf(m)| <= PER_REJECT
  {
    ExtractedKeepsRefs(m);
    CountDistinct(Extracted(m));
    hide Extracted, RefsOf, Distinct, RefsIn;
  }

  /** What a merge of two rejects comes to, o and n before it, f and s after it.  A full
      message takes nothing; otherwise all requests go into the first one if it has room for
      them, and else it is filled up and the other one keeps the rest. */
  ghost predicate IsMerge(o: Msg, n: Msg, f: Msg, s: Msg, full: bool) {
    && (full <==> |RefsOf(o)| < 4 && |RefsOf(o)| + |RefsOf(n)| <= 4)
    && (full ==> RefsOf(f) == RefsOf(o) + RefsOf(n) && s == n)
    && (|RefsOf(o)| == 4 ==> f == o && s == n)
    && (!full && |RefsOf(o)| < 4 ==> exists taken :: FillsUp(o, n, f, s, taken))
    && EntriesOf(f) + EntriesOf(s) <= EntriesOf(o) + EntriesOf(n)
  }

  ghost predicate FillsUp(o: Msg, n: Msg, f: Msg, s: Msg, taken: set<Ref>) {
    && taken <= RefsOf(n) && |RefsOf(o)| + |taken| == 4
    && RefsOf(f) == RefsOf(o) + taken && RefsOf(s) == RefsOf(n) - taken
  }

  lemma {:induction false} MergeFillsUp(o: Msg, n: Msg)
    requires o.Reject? && n.Reject?
    ensures var r := Merge(o, n);
            IsMerge(o, n, r.first, r.second, r.full)
  {
    hide RefsOf, EntriesOf, RefsIn, EntriesIn, Extracted, Distinct, Stored;
    CountRefs(o);
    CountRefs(n);
    ExtractedKeepsRefs(o);
    ExtractedKeepsRefs(n);
    MergeIsLossless(o, n);
    var es, more := Extracted(o), Extracted(n);
    var all := es + more;
    if |es| < PER_REJECT {
      StoredHoldsFirstFour(all);
      RefsOfSplit(es, more);
      if |all| > PER_REJECT { SplitFillsUp(o, n, es, more); }
    }
  }

  lemma {:induction false} SplitFillsUp(o: Msg, n: Msg, es: seq<Entry>, more: seq<Entry>)
    requires Distinct(more) && |more| <= 4 && 0 < |es| == |RefsOf(o)| < 4 < |es| + |more|
    requires RefsIn(es) == RefsOf(o) && RefsIn(more) == RefsOf(n)
    ensures var all := es + more;
            var taken := RefsIn(more[..4 - |es|]);
            FillsUp(o, n, Stored(all), Stored(all[4..]), taken)
  {
    hide RefsOf, EntriesOf, EntriesIn, RefsIn, Distinct, Stored;
    var all := es + more;
    var k := 4 - |es|;
    var a, b := more[..k], more[k..];
    assert all[..4] == es + a && all[4..] == b && more == a + b;
    StoredHoldsFirstFour(all);
    StoredHoldsFirstFour(b);
    RefsOfSplit(es, a);
    RefsOfSplit(a, b);
    DistinctSplit(more, k);
    CountDistinct(a);
  }

  lemma DistinctSplit(es: seq<Entry>, k: nat)
    requires Distinct(es) && k <= |es|
    ensures Distinct(es[..k]) && RefsIn(es[..k]) !! RefsIn(es[k..])
  {
  }

  // ----- Compaction -------------------------------------------------------------------------

  /** Queue management parameters, in percent of the maximum length. */
  datatype Levels = Levels(low: nat, high: nat, thresh: nat, maxLength: nat)

  function MaxLen(c: Levels): (n: nat)
    ensures n > 0
  {
    if c.maxLength == 0 then 1 else c.maxLength
  }

  function Offset(c: Levels): (n: nat) {
    MaxLen(c) * c.low / 100
  }

  function Slope(c: Levels): (n: nat) {
    if c.high > c.low then 0x10000 * 100 / (c.high - c.low) else 0x10000 * MaxLen(c)
  }

  /** Probability, scaled to 16 bits, of dropping a message from a queue that long. */
  function DropLevel(c: Levels, len: nat): (p: int) {
    CDiv((len - Offset(c)) * Slope(c), MaxLen(c))
  }

  predicate BelowThreshold(c: Levels, len: nat) {
    len < MaxLen(c) * c.thresh / 100
  }

  /** The levels in percent: the offset is rounded down, and a queue is below the threshold if
      one more message would not exceed it; a missing maximum counts as one. */
  lemma {:induction false} LevelsArePercent(c: Levels, len: nat)
    ensures MaxLen(c) == if c.maxLength > 0 then c.maxLength else 1
    ensures 100 * Offset(c) <= MaxLen(c) * c.low < 100 * Offset(c) + 100
    ensures BelowThreshold(c, len) <==> 100 * (len + 1) <= MaxLen(c) * c.thresh
  {
  }

  /** Between the low and the high level the probability rises in proportion, but for rounding
      down twice. */
  lemma {:induction false} DropLevelIsLinear(c: Levels, len: nat)
    requires c.high > c.low && len >= Offset(c)
    ensures var d, ramp, p := len - Offset(c), c.high - c.low, DropLevel(c, len);
            0 <= p && p * MaxLen(c) * ramp <= 100 * 0x10000 * d < (p + 1) * MaxLen(c) * ramp + d * ramp
  {
    var d, ramp, max := len - Offset(c), c.high - c.low, MaxLen(c);
    var slope := Slope(c);
    var p := DropLevel(c, len);
    Quotient(100 * 0x10000, ramp);
    Nonnegative(d, slope);
    Quotient(d * slope, max);
    hide Slope, DropLevel, Offset, MaxLen;
    Scaled(p * max, d * slope, ramp);
    Scaled(slope * ramp, 100 * 0x10000, d);
    Scaled(d * slope + 1, (p + 1) * max, ramp);
    Scaled(100 * 0x10000 + 1, (slope + 1) * ramp, d);
    Rearranged(d, slope, ramp);
  }

  lemma Quotient(a: nat, b: nat)
    requires b > 0
    ensures 0 <= a / b && (a / b) * b <= a < (a / b + 1) * b
  {
    DivNonNegative(a, b);
  }

  lemma Nonnegative(a: nat, b: nat)
    ensures 0 <= a * b
  {
  }

  lemma Scaled(x: int, y: int, k: nat)
    requires x <= y
    ensures x * k <= y * k
  {
    assert (y - x) * k >= 0;
  }

  lemma Rearranged(d: int, s: int, r: int)
    ensures (d * s) * r == (s * r) * d
    ensures (d * s + 1) * r == (d * s) * r + r
    ensures ((s + 1) * r) * d == (s * r) * d + d * r
  {
  }

  type Random = x: int | 0 <= x < 0x1_0000

  /** How many messages go when the draws are rnd. */
  function Drops(c: Levels, len: nat, rnd: seq<Random>): (k: nat)
    requires |rnd| >= len
    ensures k <= len
  {
    if len == 0 || rnd[0] >= DropLevel(c, len) then 0 else 1 + Drops(c, len - 1, rnd[1..])
  }

  /** Messages go as long as the draw is below the probability at the length then. */
  lemma {:induction false} DropsExactlyWhile(c: Levels, len: nat, rnd: seq<Random>)
    requires |rnd| >= len
    ensures var k := Drops(c, len, rnd);
            && (forall i :: 0 <= i < k ==> rnd[i] < DropLevel(c, len - i))
            && (k < len ==> rnd[k] >= DropLevel(c, len - k))
  {
    hide DropLevel;
    if len > 0 && rnd[0] < DropLevel(c, len) {
      DropsExactlyWhile(c, len - 1, rnd[1..]);
      forall i | 0 <= i < Drops(c, len, rnd)
        ensures rnd[i] < DropLevel(c, len - i)
      {
        assert i > 0 ==> rnd[i] == rnd[1..][i - 1];
      }
    }
  }

  lemma NextDrop(c: Levels, len: nat, rnd: seq<Random>)
    requires |rnd| >= len > 0
    ensures Drops(c, len, rnd) ==
              if rnd[0] >= CDiv((len - Offset(c)) * Slope(c), MaxLen(c)) then 0 else 1 + Drops(c, len - 1, rnd[1..])
  {
    hide CDiv, MaxLen, Offset, Slope;
  }

  lemma {:induction false} CDivSign(a: int, b: int)
    requires b > 0
    ensures a <= 0 ==> CDiv(a, b) <= 0
  {
    if a < 0 { DivNonNegative(-a, b); } else if a == 0 { DivModUnique(0, 0, 0, b); }
  }

  lemma {:induction false} DivNonNegative(a: nat, b: nat)
    requires b > 0
    ensures a / b >= 0
  {
    var q := a / b;
    assert a == q * b + a % b;
    MultipleOutside(q, b);
  }

  /** At or below the low-water offset nothing is ever dropped. */
  lemma {:induction false} NoDropBelowOffset(c: Levels, len: nat)
    requires len <= Offset(c)
    ensures DropLevel(c, len) <= 0
  {
    var d := len - Offset(c);
    assert d * Slope(c) <= 0;
    CDivSign(d * Slope(c), MaxLen(c));
  }

  /** Compaction stops at the low-water offset at the latest, and stops because the queue
      is empty or short enough that dropping is no longer certain. */
  lemma {:induction false} CompactionStops(c: Levels, len: nat, rnd: seq<Random>)
    requires |rnd| >= len
    ensures var rest := len - Drops(c, len, rnd);
            && (rest >= Offset(c) || rest == len)
            && (rest == 0 || DropLevel(c, rest) < 0x1_0000)
  {
    hide DropLevel, Offset;
    if len > 0 && rnd[0] < DropLevel(c, len) {
      if len <= Offset(c) { NoDropBelowOffset(c, len); }
      CompactionStops(c, len - 1, rnd[1..]);
    }
  }

  /** Without a ramp between the levels every message above the offset is certain to go. */
  lemma {:induction false} SteepDrop(c: Levels, len: nat)
    requires c.high <= c.low && len > Offset(c)
    ensures DropLevel(c, len) >= 0x1_0000
  {
    var d := len - Offset(c);
    var q := d * 0x10000;
    assert d * Slope(c) == q * MaxLen(c);
    DivModUnique(d * Slope(c), q, 0, MaxLen(c));
    assert d * Slope(c) >= 0;
  }

  lemma {:induction false} SteepCompactionEndsAtOffset(c: Levels, len: nat, rnd: seq<Random>)
    requires |rnd| >= len && c.high <= c.low && len >= Offset(c)
    ensures len - Drops(c, len, rnd) == Offset(c)
  {
    hide DropLevel, Offset;
    if len > Offset(c) {
      SteepDrop(c, len);
      SteepCompactionEndsAtOffset(c, len - 1, rnd[1..]);
    } else if len > 0 {
      NoDropBelowOffset(c, len);
    }
  }

  // ----- The queue ------------------------------------------------------------------------

  /** What a new message makes of the last queued one: itself, and the new one unless it
      was used up. */
  function Pair(last: Msg, m: Msg): (r: seq<Msg>) {
    var r := Merge(last, m);
    if r.full then [r.first] else [r.first, r.second]
  }

  /** Both are rejects, and the last queued one has room for all requests of the new one. */
  ghost predicate FitsInto(last: Msg, m: Msg) {
    last.Reject? && m.Reject? && |RefsOf(last)| < 4 && |RefsOf(last)| + |RefsOf(m)| <= 4
  }

  /** The queue grows by one exactly unless the message is refused or fits into the last one,
      which then holds the requests of both. */
  lemma {:induction false} EnqueueGrowsExactlyWhen(q: seq<Msg>, m: Msg)
    ensures var r := Enqueued(q, m);
            if |q| > 100 then r == q
            else if q != [] && FitsInto(q[|q| - 1], m) then
              && |r| == |q| && r[..|q| - 1] == q[..|q| - 1]
              && RefsOf(r[|q| - 1]) == RefsOf(q[|q| - 1]) + RefsOf(m)
            else |r| == |q| + 1 && (q != [] ==> r[..|q| - 1] == q[..|q| - 1])
  {
    hide Merge, RefsOf, EntriesOf, FillsUp;
    if q != [] {
      MergeIsLossless(q[|q| - 1], m);
      if q[|q| - 1].Reject? && m.Reject? { MergeFillsUp(q[|q| - 1], m); }
    }
  }

  function Enqueued(q: seq<Msg>, m: Msg): (r: seq<Msg>) {
    if |q| > HARD_LIMIT then q
    else if q == [] then [m]
    else q[..|q| - 1] + Pair(q[|q| - 1], m)
  }

  function Compacted(q: seq<Msg>, c: Levels, rnd: seq<Random>): (r: seq<Msg>)
    requires |rnd| >= |q|
  {
    if BelowThreshold(c, |q|) then q else q[Drops(c, |q|, rnd)..]
  }

  function ValuesOf(q: seq<ImmAss>): (s: seq<Msg>)
    reads q
    ensures |s| == |q|
  {
    if q == [] then [] else ValuesOf(q[..|q| - 1]) + [q[|q| - 1].Value()]
  }

  lemma {:induction false} ValuesOfTail(q: seq<ImmAss>, k: nat)
    requires k <= |q|
    ensures ValuesOf(q[k..]) == ValuesOf(q)[k..]
  {
    if k < |q| {
      assert q[k..][..|q| - k - 1] == q[..|q| - 1][k..];
      ValuesOfTail(q[..|q| - 1], k);
    }
  }

  lemma ValuesOfAppend(q: seq<ImmAss>, x: ImmAss)
    ensures ValuesOf(q + [x]) == ValuesOf(q) + [x.Value()]
  {
    assert (q + [x])[..|q|] == q;
  }

  lemma LastValue(q: seq<ImmAss>)
    ensures q != [] ==> ValuesOf(q)[|q| - 1] == q[|q| - 1].Value()
  {
  }

  class AgchQueue {
    var queue: seq<ImmAss>
    var length: nat
    var merged: nat
    var rejected: nat
    var dropped: nat

    predicate Valid()
      reads this
    {
      && length == |queue| <= HARD_LIMIT + 1
      && forall i, j :: 0 <= i < j < |queue| ==> queue[i] != queue[j]
    }

    constructor ()
      ensures Valid() && queue == []
    {
      queue, length, merged, rejected, dropped := [], 0, 0, 0, 0;
    }

    /** Offers a message to the last queued one. */
    method MergeIntoLast(msg: ImmAss) returns (full: bool)
      requires Valid() && queue != [] && msg !in queue
      modifies queue[|queue| - 1], msg
      ensures var q := old(ValuesOf(queue));
              var r := Merge(q[|q| - 1], old(msg.Value()));
              ValuesOf(queue) == q[..|q| - 1] + [r.first] && msg.Value() == r.second && full == r.full
    {
      var last := queue[|queue| - 1];
      ghost var before := queue[..|queue| - 1];
      assert last !in before && msg !in before;
      hide Merge;
      full := last.TryMerge(msg);
      assert ValuesOf(before) == old(ValuesOf(before));
    }

    method Enqueue(msg: ImmAss) returns (accepted: bool)
      requires Valid() && msg !in queue
      modifies this, queue, msg
      ensures Valid()
      ensures accepted <==> |old(queue)| <= HARD_LIMIT
      ensures ValuesOf(queue) == Enqueued(old(ValuesOf(queue)), old(msg.Value()))
      ensures |queue| == |old(queue)|
                + (if accepted && (old(queue) == [] || !FitsInto(old(queue[|queue| - 1].Value()), old(msg.Value()))) then 1 else 0)
      ensures forall x :: x in queue ==> x in old(queue) || x == msg
    {
      hide Merge, ValuesOf, FitsInto;
      LastValue(queue);
      EnqueueGrowsExactlyWhen(ValuesOf(queue), msg.Value());
      if length > HARD_LIMIT {
        rejected := rejected + 1;
        return false;
      }
      if length > 0 {
        var full := MergeIntoLast(msg);
        if full {
          merged := merged + 1;
          return true;
        }
      }
      ValuesOfAppend(queue, msg);
      queue := queue + [msg];
      length := length + 1;
      return true;
    }

    method Dequeue() returns (msg: ImmAss?)
      requires Valid()
      modifies this
      ensures Valid()
      ensures old(queue) == [] ==> msg == null && queue == []
      ensures old(queue) != [] ==> msg == old(queue)[0] && queue == old(queue)[1..]
      ensures old(queue) != [] ==> ValuesOf(queue) == old(ValuesOf(queue))[1..]
    {
      if queue == [] { return null; }
      ValuesOfTail(queue, 1);
      msg := queue[0];
      queue := queue[1..];
      length := length - 1;
    }

    /** Drops messages from the head; rnd are the random numbers it may draw. */
    method Compact(c: Levels, rnd: seq<Random>)
      requires Valid() && |rnd| >= |queue|
      modifies this
      ensures Valid()
      ensures queue == if BelowThreshold(c, |old(queue)|) then old(queue) else old(queue)[Drops(c, |old(queue)|, rnd)..]
      ensures ValuesOf(queue) == Compacted(old(ValuesOf(queue)), c, rnd)
      ensures dropped == old(dropped) + (|old(queue)| - |queue|)
      ensures 100 * (|old(queue)| + 1) <= MaxLen(c) * c.thresh ==> queue == old(queue)
      ensures 100 * (|old(queue)| + 1) > MaxLen(c) * c.thresh ==>
                var k := |old(queue)| - |queue|;
                && 0 <= k <= |old(queue)| && queue == old(queue)[k..]
                && (forall i :: 0 <= i < k ==> rnd[i] < DropLevel(c, |old(queue)| - i))
                && (queue != [] ==> rnd[k] >= DropLevel(c, |queue|))
    {
      hide ValuesOf, BelowThreshold, CDiv, MaxLen, Offset, Slope, Drops, DropLevel;
      LevelsArePercent(c, length);
      DropsExactlyWhile(c, length, rnd);
      if BelowThreshold(c, length) { return; }
      ValuesOfTail(queue, Drops(c, |queue|, rnd));
      var offs, slope := Offset(c), Slope(c);
      ghost var all := Drops(c, |queue|, rnd);
      var i := 0;
      while queue != []
        invariant i <= |old(queue)| && queue == old(queue)[i..] && length == |queue|
        invariant dropped == old(dropped) + i
        invariant i + Drops(c, |queue|, rnd[i..]) == all
        decreases |queue|
      {
        NextDrop(c, |queue|, rnd[i..]);
        var pDrop := CDiv((length - offs) * slope, MaxLen(c));
        if rnd[i] >= pDrop { return; }
        assert rnd[i..][1..] == rnd[i + 1..];
        queue := queue[1..];
        length := length - 1;
        dropped := dropped + 1;
        i := i + 1;
      }
      NoneLeft(c, rnd[i..]);
    }
  }

  lemma NoneLeft(c: Levels, rnd: seq<Random>)
    ensures Drops(c, 0, rnd) == 0
  {
  }

  // ----- Runs -------------------------------------------------------------------------------

  datatype Op = Put(m: Msg) | Get | Trim(c: Levels, rnd: seq<Random>)

  /** A queue with its history: references and other messages accepted, and those whose
      message has been dequeued or dropped. */
  datatype State = State(q: seq<Msg>, acceptedRefs: set<Ref>, goneRefs: set<Ref>,
                         acceptedPlain: seq<Msg>, gonePlain: seq<Msg>)

  const EMPTY: State := State([], {}, {}, [], [])

  function QueueRefs(q: seq<Msg>): (s: set<Ref>) {
    if q == [] then {} else RefsOf(q[0]) + QueueRefs(q[1..])
  }

  function PlainIn(q: seq<Msg>): (s: seq<Msg>) {
    if q == [] then [] else (if q[0].Plain? then [q[0]] else []) + PlainIn(q[1..])
  }

  /** The first k messages leave. */
  function Leave(s: State, k: nat): State
    requires k <= |s.q|
  {
    s.(q := s.q[k..], goneRefs := s.goneRefs + QueueRefs(s.q[..k]), gonePlain := s.gonePlain + PlainIn(s.q[..k]))
  }

  predicate Feasible(s: State, op: Op) {
    op.Trim? ==> |op.rnd| >= |s.q|
  }

  function Apply(s: State, op: Op): State
    requires Feasible(s, op)
  {
    match op
    case Put(m) =>
      if |s.q| > HARD_LIMIT then s
      else s.(q := Enqueued(s.q, m), acceptedRefs := s.acceptedRefs + RefsOf(m), acceptedPlain := s.acceptedPlain + PlainIn([m]))
    case Get => if s.q == [] then s else Leave(s, 1)
    case Trim(c, rnd) => if BelowThreshold(c, |s.q|) then s else Leave(s, Drops(c, |s.q|, rnd))
  }

  /** What the operations do to the queue, and which of them count as accepted or gone. */
  lemma {:induction false} ApplyIsOperation(s: State, op: Op)
    requires Feasible(s, op)
    ensures var r, n := Apply(s, op), |s.q|;
            && (op.Put? && n <= 100 ==> r.q == Enqueued(s.q, op.m) && r.goneRefs == s.goneRefs && r.gonePlain == s.gonePlain
                                        && r.acceptedRefs == s.acceptedRefs + RefsOf(op.m)
                                        && r.acceptedPlain == s.acceptedPlain + PlainIn([op.m]))
            && (op.Put? && n > 100 ==> r == s && Enqueued(s.q, op.m) == s.q)
            && (!op.Put? ==>
                  var k := if op.Get? then (if n > 0 then 1 else 0)
                           else if 100 * (n + 1) <= MaxLen(op.c) * op.c.thresh then 0 else Drops(op.c, n, op.rnd);
                  && k <= n && r.q == s.q[k..]
                  && r.goneRefs == s.goneRefs + QueueRefs(s.q[..k]) && r.gonePlain == s.gonePlain + PlainIn(s.q[..k])
                  && r.acceptedRefs == s.acceptedRefs && r.acceptedPlain == s.acceptedPlain
                  && (op.Trim? ==> r.q == Compacted(s.q, op.c, op.rnd)))
  {
    if op.Trim? { LevelsArePercent(op.c, |s.q|); }
    assert s.q[..0] == [] && s.q[0..] == s.q;
    hide BelowThreshold, MaxLen, Merge, Drops;
  }

  /** Nothing accepted is lost: every reference is still queued or left with a message,
      and the other messages pass unaltered and in order. */
  predicate Accounted(s: State) {
    && s.acceptedRefs == s.goneRefs + QueueRefs(s.q)
    && s.acceptedPlain == s.gonePlain + PlainIn(s.q)
    && |s.q| <= HARD_LIMIT + 1
  }

  lemma {:induction false} QueueJoin(a: seq<Msg>, b: seq<Msg>)
    ensures QueueRefs(a + b) == QueueRefs(a) + QueueRefs(b)
    ensures PlainIn(a + b) == PlainIn(a) + PlainIn(b)
  {
    hide RefsOf;
    if a == [] {
      assert a + b == b;
    } else {
      assert (a + b)[1..] == a[1..] + b;
      QueueJoin(a[1..], b);
    }
  }

  lemma Single(m: Msg)
    ensures QueueRefs([m]) == RefsOf(m) && PlainIn([m]) == if m.Plain? then [m] else []
  {
  }

  lemma {:induction false} PairAccounts(last: Msg, m: Msg)
    ensures QueueRefs(Pair(last, m)) == RefsOf(last) + RefsOf(m)
    ensures PlainIn(Pair(last, m)) == PlainIn([last]) + PlainIn([m])
  {
    var r := Merge(last, m);
    MergeIsLossless(last, m);
    Single(last);
    Single(m);
    Single(r.first);
    Single(r.second);
    QueueJoin([r.first], [r.second]);
    hide Merge, RefsOf, EntriesOf, QueueRefs, PlainIn;
    assert [r.first] + [r.second] == [r.first, r.second];
  }

  lemma {:induction false} EnqueueAccounts(q: seq<Msg>, m: Msg)
    requires |q| <= HARD_LIMIT
    ensures QueueRefs(Enqueued(q, m)) == QueueRefs(q) + RefsOf(m)
    ensures PlainIn(Enqueued(q, m)) == PlainIn(q) + PlainIn([m])
  {
    hide *;
    Single(m);
    EnqueuedParts(q, m);
    if q == [] {
      QueueJoin(q, [m]);
      assert q + [m] == [m];
    } else {
      var before, last := q[..|q| - 1], q[|q| - 1];
      PairAccounts(last, m);
      Single(last);
      QueueJoin(before, [last]);
      QueueJoin(before, Pair(last, m));
      assert q == before + [last];
    }
  }

  lemma EnqueuedParts(q: seq<Msg>, m: Msg)
    requires |q| <= HARD_LIMIT
    ensures Enqueued(q, m) == if q == [] then [m] else q[..|q| - 1] + Pair(q[|q| - 1], m)
  {
  }

  lemma {:induction false} LeaveAccounts(s: State, k: nat)
    requires Accounted(s) && k <= |s.q|
    ensures Accounted(Leave(s, k))
  {
    QueueJoin(s.q[..k], s.q[k..]);
    assert s.q[..k] + s.q[k..] == s.q;
  }

  /** Whatever the operations and the random numbers, everything accepted is accounted
      for, and the queue never exceeds its hard limit by more than one. */
  lemma {:induction false} NothingAcceptedIsLost(s: State, op: Op)
    requires Accounted(s) && Feasible(s, op)
    ensures Accounted(Apply(s, op))
  {
    match op
    case Put(m) =>
      if |s.q| <= HARD_LIMIT { EnqueueAccounts(s.q, m); }
    case Get =>
      if s.q != [] { LeaveAccounts(s, 1); }
    case Trim(c, rnd) =>
      LeaveAccounts(s, Drops(c, |s.q|, rnd));
  }

  predicate FeasibleRun(s: State, ops: seq<Op>)
    decreases ops
  {
    ops == [] || (Feasible(s, ops[0]) && FeasibleRun(Apply(s, ops[0]), ops[1..]))
  }

  function Run(s: State, ops: seq<Op>): State
    requires FeasibleRun(s, ops)
    decreases ops
  {
    if ops == [] then s else Run(Apply(s, ops[0]), ops[1..])
  }

  lemma {:induction false} RunsLoseNothing(s: State, ops: seq<Op>)
    requires Accounted(s) && FeasibleRun(s, ops)
    ensures Accounted(Run(s, ops))
    decreases ops
  {
    hide Accounted, Apply;
    if ops != [] {
      NothingAcceptedIsLost(s, ops[0]);
      RunsLoseNothing(Apply(s, ops[0]), ops[1..]);
    }
  }
}
