/** Mobile Allocation bit map for the PCU (section 10.5.2.21 of 3GPP TS 44.018).

    The map has one bit for every frequency of the Cell Allocation, ranked by ascending
    ARFCN with ARFCN 0 last; the bit of rank k is counted from the end of the map. */
module MobileAllocation {

  type Arfcn = x: int | 0 <= x < 0x1_0000

  /** Bits of the scratch maps, and of the map in the message. */
  const ARFCNS: nat := 1024
  const MA_BITS: nat := 64
  const UINT32_MAX: int := 0xffff_ffff

  datatype Trx = Trx(arfcn: Arfcn, provisioned: bool)

  /** ARFCNs of the provisioned transceivers that fit the map. */
  function TrxSet(trxs: seq<Trx>): (s: set<int>) {
    if trxs == [] then {}
    else
      var t := trxs[|trxs| - 1];
      TrxSet(trxs[..|trxs| - 1]) + (if t.provisioned && t.arfcn < ARFCNS then {t.arfcn} else {})
  }

  /** ARFCNs of the hopping list that fit the map: the Slot Allocation. */
  function HopSet(hops: seq<Arfcn>): (s: set<int>) {
    if hops == [] then {}
    else HopSet(hops[..|hops| - 1]) + (if hops[|hops| - 1] < ARFCNS then {hops[|hops| - 1]} else {})
  }

  /** The Cell Allocation. */
  function Cell(trxs: seq<Trx>, hops: seq<Arfcn>): (s: set<int>) {
    TrxSet(trxs) + HopSet(hops)
  }

  /** Provisioned transceivers. */
  function TrxCount(trxs: seq<Trx>): (n: nat) {
    if trxs == [] then 0 else TrxCount(trxs[..|trxs| - 1]) + (if trxs[|trxs| - 1].provisioned then 1 else 0)
  }

  /** Entries of the hopping list that are not in the map yet when they are looked at. */
  function HopCount(trxs: seq<Trx>, hops: seq<Arfcn>): (n: nat) {
    if hops == [] then 0
    else HopCount(trxs, hops[..|hops| - 1]) + (if hops[|hops| - 1] in Cell(trxs, hops[..|hops| - 1]) then 0 else 1)
  }

  /** Frequencies of ca from 1 up to but not including n. */
  function Rank(ca: set<int>, n: nat): (r: nat) {
    if n <= 1 then 0 else Rank(ca, n - 1) + (if n - 1 in ca then 1 else 0)
  }

  /** Rank of a frequency in the Cell Allocation: ascending, ARFCN 0 last. */
  function Place(ca: set<int>, f: nat): (r: nat) {
    if f == 0 then Rank(ca, ARFCNS) else Rank(ca, f)
  }

  lemma {:induction false} RankGrows(ca: set<int>, m: nat, n: nat)
    requires m <= n
    ensures Rank(ca, m) <= Rank(ca, n)
    ensures m in ca && 1 <= m < n ==> Rank(ca, m) < Rank(ca, n)
  {
    if m < n { RankGrows(ca, m, n - 1); }
  }

  /** Map position a cursor moved rank times down from the last bit stands at. */
  function Cursor(rank: nat): (c: int) {
    if rank < MA_BITS then MA_BITS - 1 - rank else UINT32_MAX - (rank - MA_BITS)
  }

  lemma {:induction false} OneHopMore(trxs: seq<Trx>, hops: seq<Arfcn>, i: nat)
    requires i < |hops|
    ensures var f := if hops[i] < ARFCNS then {hops[i] as int} else {};
            && HopSet(hops[..i + 1]) == HopSet(hops[..i]) + f
            && Cell(trxs, hops[..i + 1]) == Cell(trxs, hops[..i]) + f
    ensures HopCount(trxs, hops[..i + 1]) ==
              HopCount(trxs, hops[..i]) + (if hops[i] in Cell(trxs, hops[..i]) then 0 else 1)
  {
    assert hops[..i + 1][..i] == hops[..i];
    hide TrxSet;
  }

  lemma OneMoreOctet(n: int)
    ensures (n + 1) % 256 == (n % 256 + 1) % 256
  {
  }

  class Filler {
    var maBitLen: nat                // uint8_t
    const ma: array<bool>            // 8 octets, most significant bit first

    constructor ()
      ensures maBitLen == 0 && fresh(ma) && ma.Length == MA_BITS && forall p :: 0 <= p < MA_BITS ==> !ma[p]
    {
      maBitLen := 0;
      ma := new bool[MA_BITS](_ => false);
    }

    method CountOne()
      requires maBitLen < 256
      modifies this`maBitLen
      ensures maBitLen == (old(maBitLen) + 1) % 256
    {
      maBitLen := if maBitLen == 255 then 0 else maBitLen + 1;
    }

    method CellAllocation(trxs: seq<Trx>, ca: array<bool>)
      requires ca.Length == ARFCNS && ca != ma && maBitLen == 0
      requires forall f :: 0 <= f < ARFCNS ==> !ca[f]
      modifies this`maBitLen, ca
      ensures forall f :: 0 <= f < ARFCNS ==> (ca[f] <==> f in TrxSet(trxs))
      ensures maBitLen == TrxCount(trxs) % 256
    {
      for i := 0 to |trxs|
        invariant forall f :: 0 <= f < ARFCNS ==> (ca[f] <==> f in TrxSet(trxs[..i]))
        invariant maBitLen == TrxCount(trxs[..i]) % 256
      {
        assert trxs[..i + 1][..i] == trxs[..i];
        if !trxs[i].provisioned { continue; }
        if trxs[i].arfcn < ca.Length { ca[trxs[i].arfcn] := true; }
        CountOne();
      }
      assert trxs[..|trxs|] == trxs;
    }

    method SlotAllocation(trxs: seq<Trx>, hops: seq<Arfcn>, ca: array<bool>, sa: array<bool>)
      requires ca.Length == sa.Length == ARFCNS && ca != sa && ca != ma && sa != ma && maBitLen < 256
      requires forall f :: 0 <= f < ARFCNS ==> (ca[f] <==> f in TrxSet(trxs)) && !sa[f]
      modifies this`maBitLen, ca, sa
      ensures forall f :: 0 <= f < ARFCNS ==> (ca[f] <==> f in Cell(trxs, hops)) && (sa[f] <==> f in HopSet(hops))
      ensures maBitLen == (old(maBitLen) + HopCount(trxs, hops)) % 256
    {
      assert Cell(trxs, hops[..0]) == TrxSet(trxs) && HopSet(hops[..0]) == {} && HopCount(trxs, hops[..0]) == 0;
      hide TrxSet, Cell, HopSet, HopCount;
      ghost var before := maBitLen;
      for i := 0 to |hops|
        invariant forall f :: 0 <= f < ARFCNS ==> (ca[f] <==> f in Cell(trxs, hops[..i]))
        invariant forall f :: 0 <= f < ARFCNS ==> (sa[f] <==> f in HopSet(hops[..i]))
        invariant maBitLen == (before + HopCount(trxs, hops[..i])) % 256
      {
        OneHopMore(trxs, hops, i);
        OneMoreOctet(before + HopCount(trxs, hops[..i]));
        CellInRange(trxs, hops[..i]);
        var f := hops[i];
        if f < sa.Length { sa[f] := true; }
        if !(f < ca.Length && ca[f]) {
          if f < ca.Length { ca[f] := true; }
          CountOne();
        }
      }
      assert hops[..|hops|] == hops;
    }

    /** Walks the Cell Allocation upwards and the map downwards. */
    method RankBits(ca: array<bool>, sa: array<bool>, ghost cell: set<int>, ghost hop: set<int>)
      requires ca.Length == sa.Length == ARFCNS && ca != ma && sa != ma && ma.Length == MA_BITS
      requires forall f :: 0 <= f < ARFCNS ==> (ca[f] <==> f in cell) && (sa[f] <==> f in hop)
      requires forall p :: 0 <= p < MA_BITS ==> !ma[p]
      requires hop <= cell && forall f :: f in cell ==> 0 <= f < ARFCNS
      modifies ma
      ensures Encodes(ma[..], cell, hop)
    {
      hide Reached, Encodes;
      var curBit := MA_BITS - 1;
      NothingReached(ma[..], cell, hop);
      for i := 1 to ARFCNS
        invariant curBit == Cursor(Rank(cell, i)) && Rank(cell, i) < i
        invariant Reached(ma[..], cell, hop, i)
      {
        RankBelow(cell, i + 1);
        ReachOne(ma[..], cell, hop, i);
        if !ca[i] { continue; }
        ghost var before := ma[..];
        if sa[i] && curBit < MA_BITS {
          ma[curBit] := true;
          assert ma[..] == before[curBit := true];
        }
        curBit := if curBit == 0 then UINT32_MAX else curBit - 1;
      }
      ReachZero(ma[..], cell, hop);
      ghost var before := ma[..];
      if sa[0] && curBit < MA_BITS {
        ma[curBit] := true;
        assert ma[..] == before[curBit := true];
      }
    }

    /** Fills the Mobile Allocation of one hopping timeslot. */
    method FillFhp(trxs: seq<Trx>, hops: seq<Arfcn>)
      requires maBitLen == 0 && ma.Length == MA_BITS && forall p :: 0 <= p < MA_BITS ==> !ma[p]
      modifies this`maBitLen, ma
      ensures maBitLen == (TrxCount(trxs) + HopCount(trxs, hops)) % 256
      ensures Encodes(ma[..], Cell(trxs, hops), HopSet(hops))
    {
      hide TrxSet, HopSet, Encodes, HopCount, TrxCount;
      var ca := new bool[ARFCNS](_ => false);
      var sa := new bool[ARFCNS](_ => false);
      CellAllocation(trxs, ca);
      SlotAllocation(trxs, hops, ca, sa);
      CellInRange(trxs, hops);
      OctetSum(TrxCount(trxs), HopCount(trxs, hops));
      assert HopSet(hops) <= Cell(trxs, hops);
      hide Cell;
      RankBits(ca, sa, Cell(trxs, hops), HopSet(hops));
    }
  }

  lemma OctetSum(a: nat, b: nat)
    ensures (a % 256 + b) % 256 == (a + b) % 256
  {
  }

  /** The map after the frequencies from 1 up to but not including n. */
  predicate Reached(ma: seq<bool>, ca: set<int>, hop: set<int>, n: nat) {
    && |ma| == MA_BITS
    && (forall f :: 1 <= f < n && f in ca && Rank(ca, f) < MA_BITS ==> (ma[MA_BITS - 1 - Rank(ca, f)] <==> f in hop))
    && (forall p :: 0 <= p < MA_BITS - Rank(ca, n) ==> !ma[p])
  }

  lemma {:induction false} RanksBefore(ca: set<int>, n: nat)
    ensures forall f :: 1 <= f < n && f in ca ==> Rank(ca, f) < Rank(ca, n)
  {
    forall f | 1 <= f < n && f in ca
      ensures Rank(ca, f) < Rank(ca, n)
    {
      RankGrows(ca, f, n);
    }
  }

  lemma NothingReached(ma: seq<bool>, ca: set<int>, hop: set<int>)
    requires |ma| == MA_BITS && forall p :: 0 <= p < MA_BITS ==> !ma[p]
    ensures Reached(ma, ca, hop, 1)
  {
  }

  /** The map with the bit of rank r set if that rank has one and the frequency hops. */
  function Marked(ma: seq<bool>, r: nat, hops: bool): (m: seq<bool>)
    requires |ma| == MA_BITS
  {
    if hops && r < MA_BITS then ma[MA_BITS - 1 - r := true] else ma
  }

  lemma {:induction false} ReachOne(ma: seq<bool>, ca: set<int>, hop: set<int>, i: nat)
    requires i >= 1 && Reached(ma, ca, hop, i)
    ensures Reached(if i in ca then Marked(ma, Rank(ca, i), i in hop) else ma, ca, hop, i + 1)
  {
    RanksBefore(ca, i);
  }

  lemma {:induction false} ReachZero(ma: seq<bool>, ca: set<int>, hop: set<int>)
    requires Reached(ma, ca, hop, ARFCNS) && hop <= ca && forall f :: f in ca ==> 0 <= f < ARFCNS
    ensures Encodes(Marked(ma, Rank(ca, ARFCNS), 0 in hop), ca, hop)
  {
    RanksBefore(ca, ARFCNS);
  }

  lemma {:induction false} RankBelow(ca: set<int>, n: nat)
    requires n > 0
    ensures Rank(ca, n) < n
  {
    if n > 1 { RankBelow(ca, n - 1); }
  }

  lemma CellInRange(trxs: seq<Trx>, hops: seq<Arfcn>)
    ensures forall f :: f in Cell(trxs, hops) ==> 0 <= f < ARFCNS
  {
    TrxInRange(trxs);
    HopInRange(hops);
  }

  lemma {:induction false} TrxInRange(trxs: seq<Trx>)
    ensures forall f :: f in TrxSet(trxs) ==> 0 <= f < ARFCNS
  {
    if trxs != [] { TrxInRange(trxs[..|trxs| - 1]); }
  }

  lemma {:induction false} HopInRange(hops: seq<Arfcn>)
    ensures forall f :: f in HopSet(hops) ==> 0 <= f < ARFCNS
  {
    if hops != [] { HopInRange(hops[..|hops| - 1]); }
  }

  /** The map holds, at each rank it reaches, whether that frequency is hopped on, and
      nothing beyond the ranks of the Cell Allocation. */
  predicate Encodes(ma: seq<bool>, ca: set<int>, hop: set<int>) {
    && |ma| == MA_BITS
    && (forall f :: f in ca && 0 <= f && Place(ca, f) < MA_BITS ==> (ma[MA_BITS - 1 - Place(ca, f)] <==> f in hop))
    && (forall p :: 0 <= p < MA_BITS - (Rank(ca, ARFCNS) + (if 0 in ca then 1 else 0)) ==> !ma[p])
  }

  /** What a receiver that knows the Cell Allocation reads from the map. */
  function Decode(ma: seq<bool>, ca: set<int>): (s: set<int>)
    requires |ma| == MA_BITS
  {
    set f | f in ca && 0 <= f && Place(ca, f) < MA_BITS && ma[MA_BITS - 1 - Place(ca, f)]
  }

  /** Places are distinct and leave no gap: a Cell Allocation of n frequencies uses the
      places below n. */
  lemma {:induction false} PlacesAreARanking(ca: set<int>, f: nat, g: nat)
    requires forall x :: x in ca ==> 0 <= x < ARFCNS
    requires f in ca && g in ca && f != g
    ensures Place(ca, f) != Place(ca, g) && Place(ca, f) < |ca|
  {
    if f > 0 { RankGrows(ca, f, ARFCNS); }
    if g > 0 { RankGrows(ca, g, ARFCNS); }
    if f > 0 && g > 0 {
      if f < g { RankGrows(ca, f, g); } else { RankGrows(ca, g, f); }
    }
    CellSize(ca);
  }

  lemma {:induction false} RankIsSize(ca: set<int>, n: nat)
    requires n >= 1
    ensures Rank(ca, n) == |set x | x in ca && 1 <= x < n|
  {
    if n == 1 {
      assert (set x | x in ca && 1 <= x < 1) == {};
    } else {
      RankIsSize(ca, n - 1);
      var smaller := set x | x in ca && 1 <= x < n - 1;
      assert (set x | x in ca && 1 <= x < n) == smaller + (if n - 1 in ca then {n - 1} else {});
    }
  }

  lemma {:induction false} CellSize(ca: set<int>)
    requires forall x :: x in ca ==> 0 <= x < ARFCNS
    ensures |ca| == Rank(ca, ARFCNS) + (if 0 in ca then 1 else 0)
  {
    RankIsSize(ca, ARFCNS);
    var positive := set x | x in ca && 1 <= x < ARFCNS;
    assert ca == positive + (if 0 in ca then {0} else {});
  }

  /** The map decodes back to the hopping set exactly if no hopping frequency ranks
      beyond its last bit. */
  lemma {:induction false} DecodesExactlyWhen(ma: seq<bool>, ca: set<int>, hop: set<int>)
    requires Encodes(ma, ca, hop) && hop <= ca && forall x :: x in ca ==> 0 <= x < ARFCNS
    ensures Decode(ma, ca) == hop <==> forall f: nat :: f in hop ==> Place(ca, f) < MA_BITS
  {
    hide Place, Rank;
    if forall f: nat :: f in hop ==> Place(ca, f) < MA_BITS {
      assert Decode(ma, ca) == hop;
    }
    if Decode(ma, ca) == hop {
      forall f: nat | f in hop
        ensures Place(ca, f) < MA_BITS
      {
        assert f in Decode(ma, ca);
      }
    }
  }

  /** In particular for every cell of up to 64 frequencies. */
  lemma {:induction false} SmallCellsDecode(ma: seq<bool>, trxs: seq<Trx>, hops: seq<Arfcn>)
    requires Encodes(ma, Cell(trxs, hops), HopSet(hops)) && |Cell(trxs, hops)| <= MA_BITS
    ensures Decode(ma, Cell(trxs, hops)) == HopSet(hops)
  {
    var ca := Cell(trxs, hops);
    CellInRange(trxs, hops);
    CellSize(ca);
    forall f: nat | f in HopSet(hops)
      ensures Place(ca, f) < MA_BITS
    {
      if f > 0 { RankGrows(ca, f, ARFCNS); }
    }
    DecodesExactlyWhen(ma, ca, HopSet(hops));
  }

  // ----- The length of the map ---------------------------------------------------------

  predicate InRange(fs: seq<Arfcn>) {
    forall i :: 0 <= i < |fs| ==> fs[i] < ARFCNS
  }

  function Provisioned(trxs: seq<Trx>): (fs: seq<Arfcn>) {
    if trxs == [] then []
    else Provisioned(trxs[..|trxs| - 1]) + (if trxs[|trxs| - 1].provisioned then [trxs[|trxs| - 1].arfcn] else [])
  }

  predicate Distinct(fs: seq<Arfcn>) {
    forall i, j :: 0 <= i < j < |fs| ==> fs[i] != fs[j]
  }

  lemma {:induction false} Grow(s: set<int>, f: int)
    ensures |s + {f}| == |s| + (if f in s then 0 else 1)
  {
    if f in s { assert s + {f} == s; }
  }

  lemma {:induction false} Append(fs: seq<Arfcn>, f: Arfcn)
    ensures Distinct(fs + [f]) <==> Distinct(fs) && f !in fs
    ensures InRange(fs + [f]) <==> InRange(fs) && f < ARFCNS
  {
    var gs := fs + [f];
    assert forall i :: 0 <= i < |fs| ==> gs[i] == fs[i];
    assert gs[|fs|] == f;
  }

  lemma {:induction false} TrxCountExceeds(trxs: seq<Trx>)
    ensures TrxCount(trxs) == |Provisioned(trxs)| >= |TrxSet(trxs)|
    ensures TrxCount(trxs) == |TrxSet(trxs)| <==> InRange(Provisioned(trxs)) && Distinct(Provisioned(trxs))
    ensures forall f :: f in TrxSet(trxs) <==> f in Provisioned(trxs) && f < ARFCNS
  {
    if trxs != [] {
      var before := trxs[..|trxs| - 1];
      var t := trxs[|trxs| - 1];
      TrxCountExceeds(before);
      var ps, s := Provisioned(before), TrxSet(before);
      assert s + {} == s;
      if t.provisioned {
        Append(ps, t.arfcn);
        Grow(s, t.arfcn);
        assert Provisioned(trxs) == ps + [t.arfcn];
        assert TrxSet(trxs) == if t.arfcn < ARFCNS then s + {t.arfcn} else s;
        assert t.arfcn < ARFCNS ==> (t.arfcn in s <==> t.arfcn in ps);
      } else {
        assert Provisioned(trxs) == ps + [] == ps;
        assert TrxSet(trxs) == s;
      }
    }
  }

  lemma {:induction false} HopCountExceeds(trxs: seq<Trx>, hops: seq<Arfcn>)
    ensures HopCount(trxs, hops) + |TrxSet(trxs)| >= |Cell(trxs, hops)|
    ensures HopCount(trxs, hops) + |TrxSet(trxs)| == |Cell(trxs, hops)| <==> InRange(hops)
  {
    if hops == [] {
      assert Cell(trxs, hops) == TrxSet(trxs);
    } else {
      var before := hops[..|hops| - 1];
      var f := hops[|hops| - 1];
      HopCountExceeds(trxs, before);
      HopStep(trxs, before, f);
      assert hops == before + [f];
      Append(before, f);
      hide InRange, TrxSet, Cell, HopCount;
    }
  }

  lemma {:induction false} HopStep(trxs: seq<Trx>, hops: seq<Arfcn>, f: Arfcn)
    ensures var grown := f < ARFCNS && f !in Cell(trxs, hops);
            && |Cell(trxs, hops + [f])| == |Cell(trxs, hops)| + (if grown then 1 else 0)
            && HopCount(trxs, hops + [f]) == HopCount(trxs, hops) + (if grown || f >= ARFCNS then 1 else 0)
  {
    var c := Cell(trxs, hops);
    assert (hops + [f])[..|hops|] == hops;
    CellInRange(trxs, hops);
    Grow(c, f);
    assert Cell(trxs, hops + [f]) == if f < ARFCNS then c + {f} else c;
  }

  /** The length counted by the code is the size of the Cell Allocation exactly if the
      provisioned transceivers have distinct ARFCNs and every ARFCN is below 1024; it is
      too large otherwise. */
  lemma {:induction false} LengthIsCellSizeExactlyWhen(trxs: seq<Trx>, hops: seq<Arfcn>)
    ensures TrxCount(trxs) + HopCount(trxs, hops) >= |Cell(trxs, hops)|
    ensures TrxCount(trxs) + HopCount(trxs, hops) == |Cell(trxs, hops)| <==>
            Distinct(Provisioned(trxs)) && InRange(Provisioned(trxs)) && InRange(hops)
  {
    TrxCountExceeds(trxs);
    HopCountExceeds(trxs, hops);
  }

  /** Provisioned transceivers whose ARFCN does not fit the map or was there before. */
  function Repeated(trxs: seq<Trx>): (n: nat) {
    if trxs == [] then 0
    else
      var t := trxs[|trxs| - 1];
      Repeated(trxs[..|trxs| - 1])
      + (if t.provisioned && (t.arfcn >= ARFCNS || t.arfcn in Provisioned(trxs[..|trxs| - 1])) then 1 else 0)
  }

  /** Entries of the hopping list that do not fit the map. */
  function Unfit(hops: seq<Arfcn>): (n: nat) {
    if hops == [] then 0 else Unfit(hops[..|hops| - 1]) + (if hops[|hops| - 1] >= ARFCNS then 1 else 0)
  }

  lemma {:induction false} TrxSurplus(trxs: seq<Trx>)
    ensures TrxCount(trxs) == |TrxSet(trxs)| + Repeated(trxs)
  {
    if trxs != [] {
      var before, t := trxs[..|trxs| - 1], trxs[|trxs| - 1];
      TrxSurplus(before);
      TrxCountExceeds(before);
      Grow(TrxSet(before), t.arfcn);
      assert TrxSet(before) + {} == TrxSet(before);
    }
  }

  lemma {:induction false} HopSurplus(trxs: seq<Trx>, hops: seq<Arfcn>)
    ensures HopCount(trxs, hops) + |TrxSet(trxs)| == |Cell(trxs, hops)| + Unfit(hops)
  {
    if hops == [] {
      assert Cell(trxs, hops) == TrxSet(trxs);
    } else {
      HopSurplus(trxs, hops[..|hops| - 1]);
      HopStep(trxs, hops[..|hops| - 1], hops[|hops| - 1]);
      assert hops == hops[..|hops| - 1] + [hops[|hops| - 1]];
      hide TrxSet, Cell, HopCount;
    }
  }

  /** The length sent, an octet, is the size of the Cell Allocation if and only if that has
      fewer than 256 frequencies and the entries counted in excess are a multiple of 256. */
  lemma {:induction false} OctetLengthExactlyWhen(trxs: seq<Trx>, hops: seq<Arfcn>)
    ensures (TrxCount(trxs) + HopCount(trxs, hops)) % 256 == |Cell(trxs, hops)| <==>
            |Cell(trxs, hops)| < 256 && (Repeated(trxs) + Unfit(hops)) % 256 == 0
  {
    TrxSurplus(trxs);
    HopSurplus(trxs, hops);
    hide *;
    Congruent(|Cell(trxs, hops)|, Repeated(trxs) + Unfit(hops));
    assert TrxCount(trxs) + HopCount(trxs, hops) == |Cell(trxs, hops)| + (Repeated(trxs) + Unfit(hops));
  }

  lemma Congruent(size: nat, surplus: nat)
    ensures (size + surplus) % 256 == size <==> size < 256 && surplus % 256 == 0
  {
  }
}
