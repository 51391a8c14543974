/** Uplink measurements of a logical channel: collecting samples over a reporting period
    and computing the averaged results, with the widths C computes them in. */
module Measurement {
  import opened Basics
  import opened Tdma

  type Int16 = x: int | -0x8000 <= x < 0x8000
  type Int32 = x: int | -0x8000_0000 <= x < 0x8000_0000
  type Uint16 = x: int | 0 <= x < 0x1_0000
  type Uint32 = x: int | 0 <= x < 0x1_0000_0000
  type Uint64 = x: int | 0 <= x < 0x1_0000_0000_0000_0000

  const MAX_SAMPLES: nat := 104
  const DUMMY_BER: nat := 10000
  const DUMMY_IRSSI: nat := 109

  datatype Sample = Sample(ber10k: Uint16, toa256: Int16, ciCb: Int16, isSub: bool, invRssi: Octet)

  datatype PhysChan = TchF | TchH | Sdcch8 | Sdcch4 | OtherChan

  // ----- When a reporting period ends ---------------------------------------------------

  const TCHF_END: seq<Octet> := [90, 103, 12, 25, 38, 51, 64, 77]
  const TCHH0_END: seq<Octet> := [90, 90, 12, 12, 38, 38, 64, 64]
  const TCHH1_END: seq<Octet> := [103, 103, 25, 25, 51, 51, 77, 77]
  const SDCCH8_END: seq<Octet> := [66, 70, 74, 78, 98, 0, 4, 8]
  const SDCCH4_END: seq<Octet> := [88, 92, 6, 10]

  /** The SACCH block that ends at fn reports on the period that ended one block before. */
  function TranslateTch(fnMod: nat): Octet {
    match fnMod
    case 25 => 103
    case 38 => 12
    case 51 => 25
    case 64 => 38
    case 77 => 51
    case 90 => 64
    case 103 => 77
    case 12 => 90
    case _ => 0
  }

  /** A timeslot and subslot the physical channel has. */
  predicate HasSubslot(pchan: PhysChan, ts: nat, nr: nat) {
    match pchan
    case TchF => ts < 8
    case TchH => ts < 8 && nr < 2
    case Sdcch8 => nr < 8
    case Sdcch4 => nr < 4
    case OtherChan => true
  }

  predicate IsComplete(pchan: PhysChan, ts: nat, nr: nat, fn: Fn)
    requires HasSubslot(pchan, ts, nr)
  {
    match pchan
    case TchF => TCHF_END[ts] == TranslateTch(fn % 104)
    case TchH => (if nr == 0 then TCHH0_END[ts] else TCHH1_END[ts]) == TranslateTch(fn % 104)
    case Sdcch8 => SDCCH8_END[nr] == fn % 102
    case Sdcch4 => SDCCH4_END[nr] == fn % 102
    case OtherChan => false
  }

  function Modulus(pchan: PhysChan): nat {
    match pchan
    case TchF => 104
    case TchH => 104
    case Sdcch8 => 102
    case Sdcch4 => 102
    case OtherChan => 1
  }

  /** The frame offset at which the period of a channel completes. */
  function EndOffset(pchan: PhysChan, ts: nat, nr: nat): (m: nat)
    requires HasSubslot(pchan, ts, nr) && !pchan.OtherChan?
    ensures m < Modulus(pchan)
  {
    match pchan
    case TchF => Untranslate(TCHF_END[ts])
    case TchH => Untranslate(if nr == 0 then TCHH0_END[ts] else TCHH1_END[ts])
    case Sdcch8 => SDCCH8_END[nr]
    case Sdcch4 => SDCCH4_END[nr]
  }

  /** Every reporting period has exactly one frame at which it completes. */
  lemma {:induction false} CompletesOncePerPeriod(pchan: PhysChan, ts: nat, nr: nat, fn: Fn)
    requires HasSubslot(pchan, ts, nr) && !pchan.OtherChan?
    ensures IsComplete(pchan, ts, nr, fn) <==> fn % Modulus(pchan) == EndOffset(pchan, ts, nr)
  {
    if pchan.TchF? {
      UntranslateInverts(TCHF_END[ts], fn % 104);
    } else if pchan.TchH? {
      UntranslateInverts(if nr == 0 then TCHH0_END[ts] else TCHH1_END[ts], fn % 104);
    }
  }

  /** The only frame offset that TranslateTch takes to end. */
  function Untranslate(end: Octet): (m: nat)
    requires end in TCHF_END
    ensures m < 104
  {
    match end
    case 90 => 12
    case 103 => 25
    case 12 => 38
    case 25 => 51
    case 38 => 64
    case 51 => 77
    case 64 => 90
    case _ => 103
  }

  lemma UntranslateInverts(end: Octet, offset: nat)
    requires end in TCHF_END
    ensures TranslateTch(offset) == end <==> offset == Untranslate(end)
  {
  }

  // ----- What a period amounts to -------------------------------------------------------

  datatype Mode = Signalling | Speech | Amr | Csd

  function NumExpected(pchan: PhysChan, mode: Mode, num: nat): (n: nat) {
    match pchan
    case TchF => 25
    case TchH => if mode.Signalling? then 13 else 25
    case Sdcch8 => 3
    case Sdcch4 => 3
    case OtherChan => num
  }

  /** Negative: at least that many SUB frames, the exact number being unknown. */
  function SubExpected(pchan: PhysChan, mode: Mode): (n: int) {
    match pchan
    case TchF => if mode.Amr? then -1 else 2
    case TchH => (match mode case Csd => 3 case Signalling => 13 case Speech => 3 case Amr => -1)
    case Sdcch8 => 3
    case Sdcch4 => 3
    case OtherChan => 0
  }

  /** A period has as many blocks as fit its frames: 104 on full rate, without the four idle
      ones; the 52 of a half rate subslot, in blocks of four, or of two for speech and four for
      the SACCH; and two SDCCH blocks with the SACCH. */
  lemma BlocksFillPeriod(mode: Mode, num: nat)
    ensures 4 * NumExpected(TchF, mode, num) == 104 - 4
    ensures mode.Signalling? ==> 4 * NumExpected(TchH, mode, num) == 52
    ensures !mode.Signalling? ==> 2 * (NumExpected(TchH, mode, num) - 1) + 4 == 52
    ensures NumExpected(Sdcch8, mode, num) == NumExpected(Sdcch4, mode, num) == 2 + 1
    ensures NumExpected(OtherChan, mode, num) == num
  {
  }

  /** Of them those of the SUB set: without AMR the SACCH and one SID on full rate, two on half
      rate, and every block where all is signalling. */
  lemma SubSetOfPeriod(pchan: PhysChan, mode: Mode, num: nat)
    ensures pchan.TchF? ==> SubExpected(pchan, mode) == if mode.Amr? then -1 else 1 + 1
    ensures pchan.TchH? && (mode.Speech? || mode.Csd?) ==> SubExpected(pchan, mode) == 1 + 2
    ensures pchan.TchH? && mode.Amr? ==> SubExpected(pchan, mode) == -1
    ensures (pchan.TchH? && mode.Signalling?) || pchan.Sdcch8? || pchan.Sdcch4? ==>
              SubExpected(pchan, mode) == NumExpected(pchan, mode, num)
    ensures pchan.OtherChan? ==> SubExpected(pchan, mode) == 0
  {
  }

  /** The newest samples, as many as the period has blocks. */
  function Newest(all: seq<Sample>, blocks: nat): (w: seq<Sample>)
    ensures |w| == if |all| > blocks then blocks else |all|
  {
    if |all| > blocks then all[|all| - blocks..] else all
  }

  datatype Totals = Totals(ber: nat, irssi: nat, ci: int, toa: int, subs: nat, berSub: nat, irssiSub: nat, ciSub: int)

  const NOTHING: Totals := Totals(0, 0, 0, 0, 0, 0, 0, 0)

  function Add(t: Totals, m: Sample): Totals {
    var full := t.(ber := t.ber + m.ber10k, irssi := t.irssi + m.invRssi, ci := t.ci + m.ciCb, toa := t.toa + m.toa256);
    if m.isSub then full.(subs := t.subs + 1, berSub := t.berSub + m.ber10k,
                          irssiSub := t.irssiSub + m.invRssi, ciSub := t.ciSub + m.ciCb)
    else full
  }

  function Sum(w: seq<Sample>): (t: Totals) {
    if w == [] then NOTHING else Add(Sum(w[..|w| - 1]), w[|w| - 1])
  }

  /** Every sample goes into the FULL sums, and one of the SUB set into the SUB sums as well. */
  lemma SumOfOne(m: Sample)
    ensures Sum([m]) == if m.isSub then Totals(m.ber10k, m.invRssi, m.ciCb, m.toa256, 1, m.ber10k, m.invRssi, m.ciCb)
                        else Totals(m.ber10k, m.invRssi, m.ciCb, m.toa256, 0, 0, 0, 0)
  {
    assert Sum([m]) == Add(Sum([]), m);
  }

  /** The sums of two stretches of samples add up, in every field. */
  lemma {:induction false} SumsAddUp(a: seq<Sample>, b: seq<Sample>)
    ensures var s, t, u := Sum(a), Sum(b), Sum(a + b);
            u == Totals(s.ber + t.ber, s.irssi + t.irssi, s.ci + t.ci, s.toa + t.toa,
                        s.subs + t.subs, s.berSub + t.berSub, s.irssiSub + t.irssiSub, s.ciSub + t.ciSub)
  {
    if b == [] {
      assert a + b == a;
    } else {
      assert (a + b)[..|a + b| - 1] == a + b[..|b| - 1];
      SumsAddUp(a, b[..|b| - 1]);
    }
  }

  /** The samples of the SUB set, in order. */
  function SubSet(w: seq<Sample>): (s: seq<Sample>) {
    if w == [] then [] else SubSet(w[..|w| - 1]) + (if w[|w| - 1].isSub then [w[|w| - 1]] else [])
  }

  /** So the SUB sums are the FULL sums of that set. */
  lemma {:induction false} SubSumsAreOfSubSet(w: seq<Sample>)
    ensures var t, s := Sum(w), Sum(SubSet(w));
            t.subs == |SubSet(w)| && t.berSub == s.ber && t.irssiSub == s.irssi && t.ciSub == s.ci
  {
    hide Sum, Add;
    if w == [] {
      NothingSummed();
      assert SubSet(w) == [] == w;
    } else {
      var before, m := w[..|w| - 1], w[|w| - 1];
      SubSumsAreOfSubSet(before);
      SumOfOne(m);
      SumsAddUp(before, [m]);
      SumsAddUp(SubSet(before), [m]);
      assert w == before + [m] && SubSet(before) + [] == SubSet(before);
    }
  }

  lemma NothingSummed()
    ensures Sum([]) == NOTHING
  {
  }

  function MinToa(w: seq<Sample>): (m: Int16)
    requires w != []
    ensures forall i :: 0 <= i < |w| ==> m <= w[i].toa256
  {
    if |w| == 1 then w[0].toa256
    else
      var m := MinToa(w[..|w| - 1]);
      if w[|w| - 1].toa256 < m then w[|w| - 1].toa256 else m
  }

  function MaxToa(w: seq<Sample>): (m: Int16)
    requires w != []
    ensures forall i :: 0 <= i < |w| ==> w[i].toa256 <= m
  {
    if |w| == 1 then w[0].toa256
    else
      var m := MaxToa(w[..|w| - 1]);
      if w[|w| - 1].toa256 > m then w[|w| - 1].toa256 else m
  }

  /** Truncated mean of the timing offsets. */
  function MeanToa(w: seq<Sample>): (m: int)
    requires w != []
  {
    CDiv(Sum(w).toa, |w|)
  }

  function Squared(d: nat): (s: nat) {
    d * d
  }

  function SumSquares(w: seq<Sample>, mean: int): (s: nat) {
    if w == [] then 0 else SumSquares(w[..|w| - 1], mean) + Squared(Abs(w[|w| - 1].toa256 - mean))
  }

  /** Integer square root, computed upwards. */
  function ISqrt(n: nat): (r: nat) {
    if n == 0 then 0
    else
      var r := ISqrt(n - 1);
      if Squared(r + 1) <= n then r + 1 else r
  }

  lemma {:induction false} ISqrtIsRoot(n: nat)
    ensures Squared(ISqrt(n)) <= n < Squared(ISqrt(n) + 1)
  {
    if n > 0 {
      ISqrtIsRoot(n - 1);
      SquareMonotone(ISqrt(n), ISqrt(n) + 1);
      SquareMonotone(ISqrt(n) + 1, ISqrt(n) + 2);
    }
  }

  // ----- Bounds ---------------------------------------------------------------------------

  lemma {:induction false} QuotientBounds(s: int, n: nat, lo: int, hi: int)
    requires n > 0 && lo * n <= s <= hi * n
    ensures lo <= CDiv(s, n) <= hi
  {
    if s >= 0 {
      FloorBounds(s, n, hi);
      if lo > 0 { FloorAtLeast(s, n, lo); }
    } else {
      FloorBounds(-s, n, -lo);
      if hi < 0 { FloorAtLeast(-s, n, -hi); }
    }
  }

  lemma {:induction false} FloorBounds(s: nat, n: nat, hi: int)
    requires n > 0 && s <= hi * n
    ensures 0 <= s / n <= hi
  {
    var q := s / n;
    assert s == q * n + s % n;
    if q > hi {
      assert (q - hi) * n == q * n - hi * n;
      MultipleOutside(q - hi, n);
      assert false;
    }
    FloorAtLeast(s, n, 0);
  }

  lemma {:induction false} FloorAtLeast(s: nat, n: nat, lo: nat)
    requires n > 0 && lo * n <= s
    ensures lo <= s / n
  {
    var q := s / n;
    assert s == q * n + s % n;
    if q < lo {
      assert (lo - q) * n == lo * n - q * n;
      MultipleOutside(lo - q, n);
      assert false;
    }
  }

  lemma {:induction false} SumToaBounds(w: seq<Sample>, lo: int, hi: int)
    requires forall i :: 0 <= i < |w| ==> lo <= w[i].toa256 <= hi
    ensures lo * |w| <= Sum(w).toa <= hi * |w|
  {
    if w != [] {
      SumToaBounds(w[..|w| - 1], lo, hi);
      assert lo * |w| == lo * (|w| - 1) + lo && hi * |w| == hi * (|w| - 1) + hi;
    }
  }

  /** The truncated mean lies between the smallest and the largest sample. */
  lemma {:induction false} MeanIsBetween(w: seq<Sample>)
    requires w != []
    ensures MinToa(w) <= MeanToa(w) <= MaxToa(w)
  {
    SumToaBounds(w, MinToa(w), MaxToa(w));
    QuotientBounds(Sum(w).toa, |w|, MinToa(w), MaxToa(w));
  }

  lemma {:induction false} SquareMonotone(a: nat, b: nat)
    requires a <= b
    ensures Squared(a) <= Squared(b) && (a < b ==> Squared(a) < Squared(b))
  {
    var d: nat := b - a;
    assert b * b == (a + d) * (a + d) == a * a + 2 * (a * d) + d * d;
    assert a * d >= 0;
    if d > 0 { assert d * d >= d; }
  }

  /** The squared distance of two 16-bit values fits in 32 bits. */
  lemma {:induction false} SquareFits(d: nat)
    requires d <= 0xffff
    ensures Squared(d) <= 0xfffe_0001
  {
    SquareMonotone(d, 0xffff);
  }

  lemma {:induction false} SumSquaresBound(w: seq<Sample>, mean: int, spread: nat)
    requires forall i :: 0 <= i < |w| ==> Abs(w[i].toa256 - mean) <= spread
    ensures SumSquares(w, mean) <= Squared(spread) * |w|
  {
    if w != [] {
      SumSquaresBound(w[..|w| - 1], mean, spread);
      SquareMonotone(Abs(w[|w| - 1].toa256 - mean), spread);
      hide Squared;
      assert Squared(spread) * |w| == Squared(spread) * (|w| - 1) + Squared(spread);
    }
  }

  function Variance(w: seq<Sample>): (v: nat)
    requires w != []
  {
    SumSquares(w, MeanToa(w)) / |w|
  }

  function StdDev(w: seq<Sample>): (d: nat)
    requires w != []
  {
    ISqrt(Variance(w))
  }

  /** The variance fits in 32 bits and the deviation never exceeds the spread. */
  lemma {:induction false} DeviationWithinSpread(w: seq<Sample>)
    requires w != []
    ensures Variance(w) < 0x1_0000_0000
    ensures StdDev(w) <= MaxToa(w) - MinToa(w)
  {
    var spread: nat := MaxToa(w) - MinToa(w);
    MeanIsBetween(w);
    SumSquaresBound(w, MeanToa(w), spread);
    FloorBounds(SumSquares(w, MeanToa(w)), |w|, Squared(spread));
    SquareMonotone(spread, 0xffff);
    assert Squared(0xffff) < 0x1_0000_0000;
    ISqrtIsRoot(Variance(w));
    SquareOrder(spread, StdDev(w));
  }

  lemma {:induction false} SquareOrder(spread: nat, r: nat)
    ensures Squared(r) <= Squared(spread) ==> r <= spread
  {
    if r > spread { SquareMonotone(spread, r); }
  }

  // ----- The channel ------------------------------------------------------------------------

  /** SUB samples after substitution: missing blocks count as SUB until the expected
      number is reached, if that number is known. */
  function Substituted(subs: nat, subExpect: int, missing: nat): (n: nat)
    ensures n <= missing
  {
    if subExpect <= subs then 0
    else if subExpect - subs < missing then subExpect - subs
    else missing
  }

  /** As many missing blocks count as SUB as it takes to reach the expected number, or all. */
  lemma SubstitutedFillsUp(subs: nat, subExpect: int, missing: nat)
    ensures var n := Substituted(subs, subExpect, missing);
            && (n > 0 ==> subs + n <= subExpect)
            && (n < missing ==> subs + n >= subExpect)
  {
  }

  /** The results of a reporting period. */
  datatype Results = Results(toa: Int16, ciFull: Int16, ciSub: Int16, berFull: Uint32, berSub: Uint32,
                             irssiFull: Uint32, irssiSub: Uint32, numSub: nat)

  /** Averages over num samples out of so many blocks; what has no sample to go by keeps
      its previous value. */
  predicate Averages(r: Results, prev: Results, t: Totals, num: nat, blocks: nat, subst: nat)
    requires num <= blocks && blocks > 0
    requires num == 0 ==> t.irssi == 0
  {
    && r.numSub == t.subs + subst
    && r.berFull == (t.ber + (blocks - num) * DUMMY_BER) / blocks
    && r.berSub == (if r.numSub == 0 then DUMMY_BER else (t.berSub + subst * DUMMY_BER) / r.numSub)
    && r.irssiFull == (if t.irssi == 0 then DUMMY_IRSSI else t.irssi / num)
    && r.irssiSub == (if t.subs == 0 then DUMMY_IRSSI else t.irssiSub / t.subs)
    && r.ciFull == (if num == 0 then prev.ciFull else CDiv(t.ci, num))
    && r.ciSub == (if t.subs == 0 then prev.ciSub else CDiv(t.ciSub, t.subs))
    && r.toa == (if num == 0 then prev.toa else CDiv(t.toa, num))
  }

  /** The results of window w on a channel that has that many blocks in a period. */
  predicate Reports(r: Results, prev: Results, w: seq<Sample>, blocks: nat, subExpected: int)
    requires |w| <= blocks && blocks > 0
  {
    var t := Sum(w);
    Averages(r, prev, t, |w|, blocks, Substituted(t.subs, subExpected, blocks - |w|))
  }

  lemma {:induction false} SumOfEqual(m: Sample, w: seq<Sample>)
    requires forall i :: 0 <= i < |w| ==> w[i] == m
    ensures var n, t, one := |w|, Sum(w), Sum([m]);
            && t.ber == n * m.ber10k && t.irssi == n * m.invRssi && t.ci == n * m.ciCb && t.toa == n * m.toa256
            && t.subs == (if m.isSub then n else 0) && t.berSub == t.subs * m.ber10k
            && t.irssiSub == t.subs * m.invRssi && t.ciSub == t.subs * m.ciCb
  {
    if w != [] {
      var before := w[..|w| - 1];
      SumOfEqual(m, before);
      SumOfOne(m);
      SumsAddUp(before, [m]);
      assert w == before + [m];
      hide Sum, Add;
      Times(|before|, m.ber10k);
      Times(|before|, m.invRssi);
      Times(|before|, m.ciCb);
      Times(|before|, m.toa256);
    }
  }

  lemma Times(n: nat, x: int)
    ensures (n + 1) * x == n * x + x
  {
  }

  lemma Signs(n: nat, x: int)
    ensures n * x == x * n && n * (0 - x) == 0 - n * x
    ensures x >= 0 ==> n * x >= 0
    ensures n > 0 && x > 0 ==> n * x > 0
  {
    if x > 0 && n > 0 { assert (n - 1) * x >= 0; }
  }

  lemma {:induction false} MeanOfEqual(n: nat, x: int)
    requires n > 0
    ensures CDiv(n * x, n) == x && (x >= 0 ==> n * x >= 0 && (n * x) / n == x) && (n * x == 0 <==> x == 0)
  {
    Signs(n, x);
    Signs(n, 0 - x);
    if x >= 0 {
      DivModUnique(n * x, x, 0, n);
    } else {
      DivModUnique(n * (0 - x), 0 - x, 0, n);
    }
  }

  /** Equal samples average to themselves in every result, and missing ones to the dummies;
      with some missing the bit error rate lies between. */
  lemma {:induction false} ReportOfEqual(r: Results, prev: Results, m: Sample, w: seq<Sample>, blocks: nat, subExpected: int)
    requires |w| <= blocks && blocks > 0 && Reports(r, prev, w, blocks, subExpected)
    requires forall i :: 0 <= i < |w| ==> w[i] == m
    ensures w != [] ==> r.toa == m.toa256 && r.ciFull == m.ciCb
                        && r.irssiFull == (if m.invRssi == 0 then 109 else m.invRssi as int)
    ensures |w| == blocks ==> r.berFull == m.ber10k
    ensures Between(m.ber10k, r.berFull, 10000)
    ensures w == [] ==> r.toa == prev.toa && r.ciFull == prev.ciFull && r.irssiFull == 109 && r.berFull == 10000
    ensures w != [] && m.isSub ==> r.ciSub == m.ciCb && r.irssiSub == m.invRssi && Between(m.ber10k, r.berSub, 10000)
    ensures |w| == blocks && m.isSub ==> r.berSub == m.ber10k && r.numSub == blocks
    ensures w == [] || !m.isSub ==> r.ciSub == prev.ciSub && r.irssiSub == 109 && r.berSub == 10000
  {
    hide Sum, Add, Substituted, CDiv;
    var t, n := Sum(w), |w|;
    var subst := Substituted(t.subs, subExpected, blocks - n);
    SumOfEqual(m, w);
    if n > 0 {
      MeanOfEqual(n, m.ber10k);
      MeanOfEqual(n, m.invRssi);
      MeanOfEqual(n, m.ciCb);
      MeanOfEqual(n, m.toa256);
    }
    MixedMean(n, m.ber10k, blocks - n);
    if t.subs + subst > 0 { MixedMean(t.subs, m.ber10k, subst); }
  }

  lemma Ordered(n: nat, x: int, y: int)
    requires x <= y
    ensures n * x <= n * y
  {
    assert n * (y - x) >= 0;
  }

  lemma Distributes(n: nat, k: nat, x: int)
    ensures (n + k) * x == n * x + k * x == x * (n + k)
  {
  }

  /** The mean of some equal values and some dummies. */
  lemma {:induction false} MixedMean(n: nat, x: nat, k: nat)
    requires n + k > 0
    ensures Between(x, (n * x + k * DUMMY_BER) / (n + k), DUMMY_BER)
    ensures k == 0 ==> (n * x + k * DUMMY_BER) / (n + k) == x
    ensures n == 0 ==> (n * x + k * DUMMY_BER) / (n + k) == DUMMY_BER
  {
    var s := n * x + k * DUMMY_BER;
    var lo, hi := if x < DUMMY_BER then x else DUMMY_BER, if x < DUMMY_BER then DUMMY_BER else x;
    Signs(n, x);
    Ordered(n, lo, x);
    Ordered(n, x, hi);
    Ordered(k, lo, DUMMY_BER);
    Ordered(k, DUMMY_BER, hi);
    Distributes(n, k, lo);
    Distributes(n, k, hi);
    FloorBounds(s, n + k, hi);
    FloorAtLeast(s, n + k, lo);
    if k == 0 { DivModUnique(s, x, 0, n); }
    if n == 0 { DivModUnique(s, DUMMY_BER, 0, k); }
  }

  lemma NoSquares(w: seq<Sample>, mean: int)
    ensures SumSquares(w[..0], mean) == 0
  {
  }

  /** One more sample in the pass over a window. */
  lemma {:induction false} PassStep(w: seq<Sample>, i: nat, mean: int)
    requires i < |w|
    ensures SumSquares(w[..i + 1], mean) == SumSquares(w[..i], mean) + Squared(Abs(w[i].toa256 - mean))
    ensures i == 0 ==> MinToa(w[..1]) == w[0].toa256 == MaxToa(w[..1])
    ensures i > 0 ==> MinToa(w[..i + 1]) == (if w[i].toa256 < MinToa(w[..i]) then w[i].toa256 else MinToa(w[..i]))
    ensures i > 0 ==> MaxToa(w[..i + 1]) == (if w[i].toa256 > MaxToa(w[..i]) then w[i].toa256 else MaxToa(w[..i]))
    ensures MinToa(w) <= w[i].toa256 <= MaxToa(w)
  {
    assert w[..i + 1][..i] == w[..i];
  }

  class Lchan {
    const pchan: PhysChan
    const ts: nat
    const nr: nat
    const mode: Mode
    const uplink: array<Sample>
    var numUlMeas: nat
    // results of the last complete period
    var msToa256: Int16
    var ciFull: Int16
    var ciSub: Int16
    var berFull: Uint32
    var berSub: Uint32
    var irssiFull: Uint32
    var irssiSub: Uint32
    var numSub: nat
    var toaMin: Int16
    var toaMax: Int16
    var toaStdDev: Uint16
    var resValid: bool
    var extValid: bool

    function Stored(): Results
      reads this
    {
      Results(msToa256, ciFull, ciSub, berFull, berSub, irssiFull, irssiSub, numSub)
    }

    predicate Valid()
      reads this`numUlMeas
    {
      uplink.Length == MAX_SAMPLES && numUlMeas <= MAX_SAMPLES && HasSubslot(pchan, ts, nr)
    }

    function Samples(): (s: seq<Sample>)
      requires Valid()
      reads this`numUlMeas, uplink
    {
      uplink[..numUlMeas]
    }

    /** Stores one measurement; subFrame tells whether its frame belongs to the SUB set. */
    method NewUlMeas(m: Sample, subFrame: bool) returns (ok: bool)
      requires Valid()
      modifies this`numUlMeas, uplink
      ensures Valid()
      ensures ok <==> old(numUlMeas) < MAX_SAMPLES
      ensures Samples() == if ok then old(Samples()) + [m.(isSub := m.isSub || subFrame)] else old(Samples())
    {
      if numUlMeas >= uplink.Length { return false; }
      uplink[numUlMeas] := m;
      numUlMeas := numUlMeas + 1;
      if !m.isSub {
        uplink[numUlMeas - 1] := m.(isSub := subFrame);
      }
      return true;
    }

    /** Index of the oldest sample that counts. */
    function Excess(blocks: nat): nat
      reads this`numUlMeas
    {
      if numUlMeas > blocks then numUlMeas - blocks else 0
    }

    lemma WindowSize(blocks: nat)
      requires Valid()
      ensures |Newest(Samples(), blocks)| == numUlMeas - Excess(blocks) <= MAX_SAMPLES
      ensures numUlMeas > 0 && blocks > 0 ==> Excess(blocks) < numUlMeas
    {
    }

    lemma SomeExpected(fn: Fn)
      requires Valid() && IsComplete(pchan, ts, nr, fn)
      ensures 0 < NumExpected(pchan, mode, numUlMeas) <= MAX_SAMPLES
    {
    }

    /** The i-th sample that counts. */
    method Counted(blocks: nat, i: nat) returns (m: Sample)
      requires Valid() && i < |Newest(Samples(), blocks)|
      ensures m == Newest(Samples(), blocks)[i]
    {
      m := uplink[i + Excess(blocks)];
    }

    /** Sum of squared distances from the mean, and the extremes, in one pass. */
    method Spread(blocks: nat) returns (num: nat, sqDiffSum: Uint64, lo: Int16, hi: Int16)
      requires Valid() && blocks > 0 && numUlMeas > 0
      requires msToa256 == MeanToa(Newest(Samples(), blocks))
      ensures var w := Newest(Samples(), blocks);
              num == |w| && sqDiffSum == SumSquares(w, msToa256) && lo == MinToa(w) && hi == MaxToa(w)
    {
      hide MeanToa, Newest, Samples, MinToa, MaxToa, SumSquares, Squared, Excess;
      ghost var w := Newest(Samples(), blocks);
      WindowSize(blocks);
      num := numUlMeas - Excess(blocks);
      MeanIsBetween(w);
      NoSquares(w, msToa256);
      lo, hi := 0x7fff, -0x8000;
      sqDiffSum := 0;
      var i := 0;
      while i < num
        invariant i <= num
        invariant sqDiffSum == SumSquares(w[..i], msToa256) <= i * 0xfffe_0001
        invariant if i == 0 then lo == 0x7fff && hi == -0x8000 else lo == MinToa(w[..i]) && hi == MaxToa(w[..i])
      {
        var m := Counted(blocks, i);
        PassStep(w, i, msToa256);
        var diffAbs: Uint32 := Abs(m.toa256 - msToa256);
        SquareFits(diffAbs);
        var diffSquared: Uint32 := Squared(diffAbs);
        sqDiffSum := sqDiffSum + diffSquared;
        if m.toa256 > hi { hi := m.toa256; }
        if m.toa256 < lo { lo := m.toa256; }
        i := i + 1;
      }
      assert w[..num] == w;
    }

    /** Extended results: extremes and standard deviation of the timing offset. */
    method ComputeExtended(blocks: nat)
      requires Valid() && blocks > 0
      requires numUlMeas > 0 ==> msToa256 == MeanToa(Newest(Samples(), blocks))
      modifies this`toaMin, this`toaMax, this`toaStdDev, this`extValid
      ensures numUlMeas > 0 ==>
                var w := Newest(Samples(), blocks);
                toaMin == MinToa(w) && toaMax == MaxToa(w) && toaStdDev == StdDev(w) && extValid
    {
      if numUlMeas == 0 { return; }
      var num, sqDiffSum, lo, hi := Spread(blocks);
      DeviationWithinSpread(Newest(Samples(), blocks));
      hide MeanToa, MinToa, MaxToa, SumSquares, ISqrt;
      toaMin, toaMax := lo, hi;
      var variance: Uint32 := sqDiffSum / num;
      toaStdDev := ISqrt(variance);
      extValid := true;
    }

    /** Adds up the samples that count and replaces the missing blocks by dummy
        measurements, the first of them as SUB ones. */
    method AddUp(blocks: nat) returns (t: Totals, subst: nat)
      requires Valid()
      ensures t == Sum(Newest(Samples(), blocks))
      ensures subst == Substituted(t.subs, SubExpected(pchan, mode), blocks - |Newest(Samples(), blocks)|)
    {
      ghost var w := Newest(Samples(), blocks);
      var subExpected := SubExpected(pchan, mode);
      t, subst := NOTHING, 0;
      var i := 0;
      while i < blocks
        invariant i <= blocks
        invariant t == Sum(if i <= |w| then w[..i] else w)
        invariant subst == Substituted(t.subs, subExpected, if i <= |w| then 0 else i - |w|)
      {
        hide Add;
        if i < numUlMeas {
          var m := Counted(blocks, i);
          assert w[..i + 1][..i] == w[..i];
          t := Add(t, m);
        } else {
          assert w[..|w|] == w;
          if subExpected >= 0 && t.subs + subst < subExpected {
            subst := subst + 1;
          }
        }
        i := i + 1;
      }
      assert w[..|w|] == w;
    }

    /** At the end of a reporting period: averages over the newest samples, with dummy
        values for the blocks that are missing. */
    method CheckCompute(fn: Fn) returns (done: bool)
      requires Valid()
      modifies this
      ensures Valid()
      ensures done <==> IsComplete(pchan, ts, nr, fn)
      ensures !done ==> unchanged(this)
      ensures done ==> numUlMeas == 0 && resValid
      ensures done ==>
                var blocks := NumExpected(pchan, mode, old(numUlMeas));
                var w := Newest(old(Samples()), blocks);
                && Reports(Stored(), old(Stored()), w, blocks, SubExpected(pchan, mode))
                && (w != [] ==> extValid && toaMin == MinToa(w) && toaMax == MaxToa(w) && toaStdDev == StdDev(w))
    {
      hide Fit, NumExpected, Substituted, HasSubslot, SubExpected, Sum, IsComplete, Newest, Samples, StdDev, MinToa, MaxToa, CDiv,
           Excess;
      if !IsComplete(pchan, ts, nr, fn) { return false; }
      SomeExpected(fn);
      var blocks := NumExpected(pchan, mode, numUlMeas);
      WindowSize(blocks);
      var num := numUlMeas - Excess(blocks);
      ghost var w := Newest(Samples(), blocks);
      var t, subst := AddUp(blocks);
      SumsFit(w, blocks, subst);
      Divide(t, num, blocks, subst);
      assert num > 0 ==> msToa256 == MeanToa(w);
      ComputeExtended(blocks);
      numUlMeas := 0;
      return true;
    }

    /** Stores the averages; results without any sample keep their value. */
    method Divide(t: Totals, num: nat, blocks: nat, subst: nat)
      requires blocks > 0 && num <= blocks && subst <= blocks - num
      requires Fit(t, num)
      modifies this`numSub, this`berFull, this`berSub, this`irssiFull, this`irssiSub,
               this`msToa256, this`ciFull, this`ciSub, this`resValid
      ensures Averages(Stored(), old(Stored()), t, num, blocks, subst) && resValid
    {
      numSub := t.subs + subst;
      FloorBounds(t.ber + (blocks - num) * DUMMY_BER, blocks, 0xffff);
      berFull := (t.ber + (blocks - num) * DUMMY_BER) / blocks;
      if t.irssi == 0 {
        irssiFull := DUMMY_IRSSI;
      } else {
        FloorBounds(t.irssi, num, 0xff);
        irssiFull := t.irssi / num;
      }
      if num > 0 {
        QuotientBounds(t.toa, num, -0x8000, 0x7fff);
        QuotientBounds(t.ci, num, -0x8000, 0x7fff);
        msToa256 := CDiv(t.toa, num);
        ciFull := CDiv(t.ci, num);
      }
      if numSub == 0 {
        berSub := DUMMY_BER;
      } else {
        FloorBounds(t.berSub + subst * DUMMY_BER, numSub, 0xffff);
        berSub := (t.berSub + subst * DUMMY_BER) / numSub;
      }
      if t.subs == 0 {
        irssiSub := DUMMY_IRSSI;
      } else {
        FloorBounds(t.irssiSub, t.subs, 0xff);
        QuotientBounds(t.ciSub, t.subs, -0x8000, 0x7fff);
        irssiSub := t.irssiSub / t.subs;
        ciSub := CDiv(t.ciSub, t.subs);
      }
      resValid := true;
    }

  }

  /** Sums over num samples that stay within the widths of their averages. */
  predicate Fit(t: Totals, num: nat) {
    && t.ber <= num * 0xffff && t.irssi <= num * 0xff && t.subs <= num
    && t.berSub <= t.subs * 0xffff && t.irssiSub <= t.subs * 0xff
    && -0x8000 * num <= t.ci <= 0x7fff * num && -0x8000 * num <= t.toa <= 0x7fff * num
    && -0x8000 * t.subs <= t.ciSub <= 0x7fff * t.subs
  }

  lemma {:induction false} SumFits(w: seq<Sample>)
    ensures Fit(Sum(w), |w|)
  {
    if w != [] { SumFits(w[..|w| - 1]); }
  }

  /** No accumulator of the averaging loop overflows its 32 bits. */
  lemma {:induction false} SumsFit(w: seq<Sample>, blocks: nat, subst: nat)
    requires |w| <= blocks <= MAX_SAMPLES && subst <= blocks - |w|
    ensures Fit(Sum(w), |w|)
    ensures var t := Sum(w);
            && t.ber + (blocks - |w|) * DUMMY_BER < 0x1_0000_0000 && t.berSub + subst * DUMMY_BER < 0x1_0000_0000
            && t.irssi < 0x1_0000_0000 && t.irssiSub < 0x1_0000_0000
            && Abs(t.ci) < 0x8000_0000 && Abs(t.ciSub) < 0x8000_0000 && Abs(t.toa) < 0x8000_0000
  {
    SumFits(w);
  }
}
