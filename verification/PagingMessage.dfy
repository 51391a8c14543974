/** PAGING REQUEST messages of types 1, 2 and 3 (sections 9.1.22 to 9.1.24 of 3GPP TS
    44.018): packing identities into one MAC block, and reading them back. */
module PagingMessage {

  import opened Basics

  const MACBLOCK_LEN: nat := 23
  const MAX_IDENTITY: nat := 8
  const PDISC_RR: Octet := 0x06
  const PAG_REQ_1: Octet := 0x21
  const PAG_REQ_2: Octet := 0x22
  const PAG_REQ_3: Octet := 0x24
  const IE_MOBILE_ID: Octet := 0x17
  const MI_TYPE_IMSI: nat := 1
  const MI_TYPE_TMSI: nat := 4

  // ----- Rest octets ---------------------------------------------------------------------

  /** A bit by value, or relative to the padding pattern: L is the padding bit, H its inverse. */
  datatype Bit = Zero | One | L | H

  /** The padding pattern 00101011. */
  predicate Pad(p: nat) {
    p % 8 == 2 || p % 8 == 4 || p % 8 == 6 || p % 8 == 7
  }

  predicate Render(b: Bit, p: nat) {
    match b
    case Zero => false
    case One => true
    case L => Pad(p)
    case H => !Pad(p)
  }

  /** Padding, overwritten from the front by these bits. */
  predicate IsRendered(bits: seq<bool>, syms: seq<Bit>) {
    && |syms| <= |bits|
    && (forall i :: 0 <= i < |syms| ==> bits[i] == Render(syms[i], i))
    && (forall i :: |syms| <= i < |bits| ==> bits[i] == Pad(i))
  }

  /** The low n bits of v, most significant first. */
  function Uint(v: nat, n: nat): (r: seq<Bit>)
    ensures |r| == n
  {
    if n == 0 then [] else Uint(v / 2, n - 1) + [if v % 2 == 1 then One else Zero]
  }

  function Bytes(bs: seq<Octet>): (r: seq<Bit>)
    ensures |r| == 8 * |bs|
  {
    if bs == [] then [] else Bytes(bs[..|bs| - 1]) + Uint(bs[|bs| - 1], 8)
  }

  datatype Nln = Nln(nln: nat, status: nat)
  datatype Etws = Etws(isFirst: bool, pageNr: nat, page: seq<Octet>)
  datatype Rel8 = Rel8(prioUlAccess: bool, etws: Option<Etws>)
  datatype P1 = P1(nln: Option<Nln>, ppi1: bool, ppi2: bool, r8: Option<Rel8>)
  datatype P2 = P2(cn3: Option<nat>, nln: Option<Nln>)
  datatype P3 = P3(cn34: Option<(nat, nat)>, nln: Option<Nln>)

  function NlnBits(n: Option<Nln>): (r: seq<Bit>)
    ensures |r| <= 4
  {
    if n.Some? then [H] + Uint(n.value.nln, 2) + Uint(n.value.status, 1) else [L]
  }

  function EtwsBits(e: Etws): (r: seq<Bit>)
    ensures |r| == 13 + 8 * |e.page|
  {
    [if e.isFirst then Zero else One] + Uint(e.pageNr, 4) + [Zero] + Uint(8 * |e.page|, 7) + Bytes(e.page)
  }

  function Rel8Bits(r: Option<Rel8>): (b: seq<Bit>) {
    if r.None? then []
    else [H, if r.value.prioUlAccess then One else Zero]
         + (if r.value.etws.None? then [Zero] else [One] + EtwsBits(r.value.etws.value))
  }

  function P1Bits(p: P1): (r: seq<Bit>)
    ensures |r| <= 14 + (if p.r8.Some? && p.r8.value.etws.Some? then 13 + 8 * |p.r8.value.etws.value.page| else 0)
    ensures p.nln.None? && p.r8.Some? && p.r8.value.etws.Some? ==> |r| == 24 + 8 * |p.r8.value.etws.value.page|
  {
    NlnBits(p.nln) + [L, L, L, if p.ppi1 then H else L, if p.ppi2 then H else L, L, L] + Rel8Bits(p.r8)
  }

  function P2Bits(p: P2): (r: seq<Bit>)
    ensures |r| <= 7
  {
    (if p.cn3.Some? then [H] + Uint(p.cn3.value, 2) else [L]) + NlnBits(p.nln)
  }

  function P3Bits(p: P3): (r: seq<Bit>)
    ensures |r| <= 9
  {
    (if p.cn34.Some? then [H] + Uint(p.cn34.value.0, 2) + Uint(p.cn34.value.1, 2) else [L]) + NlnBits(p.nln)
  }

  lemma OneMoreByte(bs: seq<Octet>, i: nat)
    requires i < |bs|
    ensures Bytes(bs[..i + 1]) == Bytes(bs[..i]) + Uint(bs[i], 8)
  {
    assert bs[..i + 1][..i] == bs[..i];
  }

  lemma Regroup(a: seq<Bit>, b: seq<Bit>, c: seq<Bit>, d: seq<Bit>)
    ensures a + b + c + d == a + (b + (c + d))
  {
  }

  /** The bit vector that rest octets are written with. */
  class BitVec {
    const bits: array<bool>
    var cur: nat
    ghost var syms: seq<Bit>      // everything written

    ghost predicate Valid()
      reads this, bits
    {
      cur == |syms| && IsRendered(bits[..], syms)
    }

    ghost function Room(): int
      reads this
    {
      bits.Length - cur
    }

    constructor (n: nat)
      ensures Valid() && fresh(bits) && bits.Length == 8 * n && syms == []
    {
      bits := new bool[8 * n](i requires 0 <= i => Pad(i));
      cur, syms := 0, [];
    }

    method SetBit(b: Bit)
      requires Valid() && Room() >= 1
      modifies this, bits
      ensures Valid() && syms == old(syms) + [b]
    {
      bits[cur] := Render(b, cur);
      cur := cur + 1;
      syms := syms + [b];
    }

    method SetUint(v: nat, n: nat)
      requires Valid() && Room() >= n
      modifies this, bits
      ensures Valid() && syms == old(syms) + Uint(v, n)
      decreases n
    {
      if n > 0 {
        SetUint(v / 2, n - 1);
        SetBit(if v % 2 == 1 then One else Zero);
      }
    }

    method SetBytes(bs: seq<Octet>)
      requires Valid() && Room() >= 8 * |bs|
      modifies this, bits
      ensures Valid() && syms == old(syms) + Bytes(bs)
    {
      ghost var before := syms;
      assert Bytes(bs[..0]) == [];
      hide IsRendered, Bytes, Uint;
      for i := 0 to |bs|
        invariant Valid() && syms == before + Bytes(bs[..i])
      {
        OneMoreByte(bs, i);
        SetUint(bs[i], 8);
      }
      assert bs[..|bs|] == bs;
    }

    method AppendNln(n: Option<Nln>)
      requires Valid() && Room() >= |NlnBits(n)|
      modifies this, bits
      ensures Valid() && syms == old(syms) + NlnBits(n)
    {
      hide IsRendered;
      if n.Some? {
        SetBit(H);
        SetUint(n.value.nln, 2);
        SetUint(n.value.status, 1);
      } else {
        SetBit(L);
      }
    }

    method AppendEtws(e: Etws)
      requires Valid() && Room() >= |EtwsBits(e)|
      modifies this, bits
      ensures Valid() && syms == old(syms) + EtwsBits(e)
    {
      hide IsRendered, Uint, Bytes;
      SetBit(if e.isFirst then Zero else One);
      SetUint(e.pageNr, 4);
      SetBit(Zero);
      SetUint(8 * |e.page|, 7);
      SetBytes(e.page);
    }

    method AppendRel8(r: Option<Rel8>)
      requires Valid() && Room() >= |Rel8Bits(r)|
      modifies this, bits
      ensures Valid() && syms == old(syms) + Rel8Bits(r)
    {
      hide IsRendered, EtwsBits;
      ghost var before := syms;
      if r.Some? {
        SetBit(H);
        SetBit(if r.value.prioUlAccess then One else Zero);
        ghost var head := [H, if r.value.prioUlAccess then One else Zero];
        assert syms == before + head;
        if r.value.etws.Some? {
          SetBit(One);
          AppendEtws(r.value.etws.value);
          Regroup(before, head, [One], EtwsBits(r.value.etws.value));
        } else {
          SetBit(Zero);
        }
      }
    }

    method AppendP1(p: P1)
      requires Valid() && Room() >= |P1Bits(p)|
      modifies this, bits
      ensures Valid() && syms == old(syms) + P1Bits(p)
    {
      hide IsRendered, NlnBits, Rel8Bits;
      AppendNln(p.nln);
      SetBit(L);
      SetBit(L);
      SetBit(L);
      SetBit(if p.ppi1 then H else L);
      SetBit(if p.ppi2 then H else L);
      SetBit(L);
      SetBit(L);
      AppendRel8(p.r8);
    }

    method AppendP2(p: P2)
      requires Valid() && Room() >= |P2Bits(p)|
      modifies this, bits
      ensures Valid() && syms == old(syms) + P2Bits(p)
    {
      hide IsRendered, NlnBits;
      if p.cn3.Some? {
        SetBit(H);
        SetUint(p.cn3.value, 2);
      } else {
        SetBit(L);
      }
      AppendNln(p.nln);
    }

    method AppendP3(p: P3)
      requires Valid() && Room() >= |P3Bits(p)|
      modifies this, bits
      ensures Valid() && syms == old(syms) + P3Bits(p)
    {
      hide IsRendered, NlnBits;
      if p.cn34.Some? {
        SetBit(H);
        SetUint(p.cn34.value.0, 2);
        SetUint(p.cn34.value.1, 2);
      } else {
        SetBit(L);
      }
      AppendNln(p.nln);
    }
  }

  // ----- The block -----------------------------------------------------------------------

  /** A MAC block: octets up to the end of the message, and the bits behind it. */
  datatype Block = Block(octets: seq<Octet>, rest: seq<bool>)

  predicate FillsMacBlock(b: Block) {
    8 * |b.octets| + |b.rest| == 8 * MACBLOCK_LEN
  }

  /** A length octet and at least that many octets behind it. */
  predicate IsLv(lv: seq<Octet>) {
    1 <= |lv| && lv[0] <= MAX_IDENTITY && lv[0] + 1 <= |lv|
  }

  /** The identity an LV holds. */
  function Value(lv: seq<Octet>): (v: seq<Octet>)
    requires IsLv(lv)
    ensures |v| == lv[0]
  {
    lv[1..lv[0] + 1]
  }

  predicate IsImsi(lv: seq<Octet>)
    requires |lv| >= 2
  {
    lv[1] % 8 == MI_TYPE_IMSI
  }

  predicate IsTmsi(lv: seq<Octet>)
    requires |lv| >= 2
  {
    lv[0] >= 5 && lv[1] % 8 == MI_TYPE_TMSI
  }

  /** The four octets that go into a TMSI slot; anything that is not a TMSI leaves it zero. */
  function TmsiOctets(lv: seq<Octet>): (t: seq<Octet>)
    requires |lv| >= 6
    ensures |t| == 4
  {
    if IsTmsi(lv) then lv[2..6] else [0, 0, 0, 0]
  }

  function Header(len: nat, msgType: Octet, chan1: Octet, chan2: Octet): (h: seq<Octet>)
    requires 1 <= len <= MACBLOCK_LEN
    ensures |h| == 4
  {
    [(len - 1) * 4 + 1, PDISC_RR, msgType, chan1 % 4 * 16 + chan2 % 4 * 64]
  }

  /** The pseudo length counts the octets behind it; page mode is normal, and the channel needs
      of the first two identities are in the upper half of the last octet. */
  lemma HeaderFields(len: nat, msgType: Octet, chan1: Octet, chan2: Octet)
    requires 1 <= len <= MACBLOCK_LEN
    ensures var h := Header(len, msgType, chan1, chan2);
            && h[0] / 4 == len - 1 && h[0] % 4 == 1 && h[1] == 6 && h[2] == msgType
            && h[3] % 16 == 0 && h[3] / 16 % 4 == chan1 % 4 && h[3] / 64 == chan2 % 4
  {
  }

  function OptionalId(lv: Option<seq<Octet>>): (r: seq<Octet>)
    requires lv.Some? ==> IsLv(lv.value)
  {
    if lv.Some? then [IE_MOBILE_ID, lv.value[0]] + Value(lv.value) else []
  }

  function Type1(id1: seq<Octet>, chan1: Octet, id2: Option<seq<Octet>>, chan2: Octet): (o: seq<Octet>)
    requires IsLv(id1) && (id2.Some? ==> IsLv(id2.value))
    ensures |o| == 5 + id1[0] + (if id2.Some? then 2 + id2.value[0] else 0) <= MACBLOCK_LEN
  {
    var ids := [id1[0]] + Value(id1) + OptionalId(id2);
    Header(4 + |ids|, PAG_REQ_1, chan1, chan2) + ids
  }

  function Type2(id1: seq<Octet>, chan1: Octet, id2: seq<Octet>, chan2: Octet, id3: Option<seq<Octet>>): (o: seq<Octet>)
    requires |id1| >= 6 && |id2| >= 6 && (id3.Some? ==> IsLv(id3.value))
    ensures |o| == 12 + (if id3.Some? then 2 + id3.value[0] else 0) <= MACBLOCK_LEN - 1
  {
    var ids := TmsiOctets(id1) + TmsiOctets(id2) + OptionalId(id3);
    Header(4 + |ids|, PAG_REQ_2, chan1, chan2) + ids
  }

  function Type3(id1: seq<Octet>, chan1: Octet, id2: seq<Octet>, chan2: Octet,
                 id3: seq<Octet>, id4: seq<Octet>): (o: seq<Octet>)
    requires |id1| >= 6 && |id2| >= 6 && |id3| >= 6 && |id4| >= 6
    ensures |o| == 20
  {
    Header(20, PAG_REQ_3, chan1, chan2) + TmsiOctets(id1) + TmsiOctets(id2) + TmsiOctets(id3) + TmsiOctets(id4)
  }

  /** Type 1: one or two identities of any kind. */
  method FillType1(id1: seq<Octet>, chan1: Octet, id2: Option<seq<Octet>>, chan2: Octet, p1: Option<P1>)
    returns (b: Block)
    requires IsLv(id1) && (id2.Some? ==> IsLv(id2.value))
    requires p1.Some? ==> |P1Bits(p1.value)| <= 8 * (MACBLOCK_LEN - |Type1(id1, chan1, id2, chan2)|)
    ensures b.octets == Type1(id1, chan1, id2, chan2) && FillsMacBlock(b)
    ensures IsRendered(b.rest, if p1.Some? then P1Bits(p1.value) else [])
  {
    var octets := Type1(id1, chan1, id2, chan2);
    var bv := new BitVec(MACBLOCK_LEN - |octets|);
    if p1.Some? {
      hide IsRendered, P1Bits;
      bv.AppendP1(p1.value);
      assert [] + P1Bits(p1.value) == P1Bits(p1.value);
    }
    b := Block(octets, bv.bits[..]);
  }

  /** Type 2: two TMSIs and an identity of any kind. */
  method FillType2(id1: seq<Octet>, chan1: Octet, id2: seq<Octet>, chan2: Octet, id3: Option<seq<Octet>>, p2: P2)
    returns (b: Block)
    requires |id1| >= 6 && |id2| >= 6 && (id3.Some? ==> IsLv(id3.value))
    ensures b.octets == Type2(id1, chan1, id2, chan2, id3) && FillsMacBlock(b)
    ensures IsRendered(b.rest, P2Bits(p2))
  {
    hide IsRendered, P2Bits;
    var octets := Type2(id1, chan1, id2, chan2, id3);
    var bv := new BitVec(MACBLOCK_LEN - |octets|);
    bv.AppendP2(p2);
    assert [] + P2Bits(p2) == P2Bits(p2);
    b := Block(octets, bv.bits[..]);
  }

  /** Type 3: four TMSIs. */
  method FillType3(id1: seq<Octet>, chan1: Octet, id2: seq<Octet>, chan2: Octet,
                   id3: seq<Octet>, id4: seq<Octet>, p3: P3)
    returns (b: Block)
    requires |id1| >= 6 && |id2| >= 6 && |id3| >= 6 && |id4| >= 6
    ensures b.octets == Type3(id1, chan1, id2, chan2, id3, id4) && FillsMacBlock(b)
    ensures IsRendered(b.rest, P3Bits(p3))
  {
    hide IsRendered, P3Bits;
    var octets := Type3(id1, chan1, id2, chan2, id3, id4);
    var bv := new BitVec(MACBLOCK_LEN - |octets|);
    bv.AppendP3(p3);
    assert [] + P3Bits(p3) == P3Bits(p3);
    b := Block(octets, bv.bits[..]);
  }

  // ----- Reading a block -------------------------------------------------------------------

  datatype Ident = Mobile(octets: seq<Octet>) | Tmsi(octets: seq<Octet>)

  /** One paged identity and the channel it is to ask for. */
  datatype Paged = Paged(id: Ident, chan: nat)

  function ReadTwo(rest: seq<bool>, p: nat): (n: nat)
    requires p + 1 < |rest|
  {
    (if rest[p] then 2 else 0) + (if rest[p + 1] then 1 else 0)
  }

  /** An optional channel-needed field of two bits behind an H. */
  function ReadChan(rest: seq<bool>, p: nat): (n: nat) {
    if p + 1 < |rest| && rest[0] != Pad(0) then ReadTwo(rest, p) else 0
  }

  /** Identities of a block as a mobile reads them; none if it makes no sense. */
  function Decode(b: Block): (r: seq<Paged>) {
    var o := b.octets;
    if |o| < 5 || o[0] != (|o| - 1) * 4 + 1 || o[1] != PDISC_RR then []
    else
      var chan1, chan2 := o[3] / 16 % 4, o[3] / 64;
      if o[2] == PAG_REQ_1 then
        var end: nat := 5 + o[4] as int;
        if end > |o| then [] else [Paged(Mobile(o[5..end]), chan1)] + DecodeMore(o[end..], chan2)
      else if o[2] == PAG_REQ_2 && |o| >= 12 then
        [Paged(Tmsi(o[4..8]), chan1), Paged(Tmsi(o[8..12]), chan2)] + DecodeMore(o[12..], ReadChan(b.rest, 1))
      else if o[2] == PAG_REQ_3 && |o| >= 20 then
        [Paged(Tmsi(o[4..8]), chan1), Paged(Tmsi(o[8..12]), chan2),
         Paged(Tmsi(o[12..16]), ReadChan(b.rest, 1)), Paged(Tmsi(o[16..20]), ReadChan(b.rest, 3))]
      else []
  }

  function DecodeMore(o: seq<Octet>, chan: nat): (r: seq<Paged>) {
    if |o| < 2 || o[0] != IE_MOBILE_ID || o[1] != |o| - 2 then [] else [Paged(Mobile(o[2..]), chan)]
  }

  lemma DecodeMoreInverts(id: Option<seq<Octet>>, chan: nat)
    requires id.Some? ==> IsLv(id.value)
    ensures DecodeMore(OptionalId(id), chan) == if id.Some? then [Paged(Mobile(Value(id.value)), chan)] else []
  {
  }

  lemma Type1Parts(id1: seq<Octet>, chan1: Octet, id2: Option<seq<Octet>>, chan2: Octet)
    requires IsLv(id1) && (id2.Some? ==> IsLv(id2.value))
    ensures var o := Type1(id1, chan1, id2, chan2);
            var end := 5 + id1[0];
            && o[..4] == Header(|o|, PAG_REQ_1, chan1, chan2) && o[4] == id1[0]
            && o[5..end] == Value(id1) && o[end..] == OptionalId(id2)
  {
    hide Header, OptionalId;
  }

  /** A type 1 block pages exactly the identities it was packed from. */
  lemma {:induction false} Type1RoundTrip(id1: seq<Octet>, chan1: Octet, id2: Option<seq<Octet>>, chan2: Octet, rest: seq<bool>)
    requires IsLv(id1) && (id2.Some? ==> IsLv(id2.value))
    ensures Decode(Block(Type1(id1, chan1, id2, chan2), rest))
         == [Paged(Mobile(Value(id1)), chan1 % 4)] + (if id2.Some? then [Paged(Mobile(Value(id2.value)), chan2 % 4)] else [])
  {
    hide Decode, DecodeMore, OptionalId, Type1, Value, Header;
    Type1Parts(id1, chan1, id2, chan2);
    DecodeType1(Type1(id1, chan1, id2, chan2), chan1, chan2, 5 + id1[0], rest);
    DecodeMoreInverts(id2, chan2 % 4);
  }

  lemma DecodeType1(o: seq<Octet>, chan1: Octet, chan2: Octet, end: nat, rest: seq<bool>)
    requires 5 <= end <= |o| <= MACBLOCK_LEN && o[..4] == Header(|o|, PAG_REQ_1, chan1, chan2) && end == 5 + o[4] as int
    ensures Decode(Block(o, rest)) == [Paged(Mobile(o[5..end]), chan1 % 4)] + DecodeMore(o[end..], chan2 % 4)
  {
    hide DecodeMore;
    var header := o[..4];
    assert o[0] == header[0] && o[1] == header[1] && o[2] == header[2] && o[3] == header[3];
  }

  lemma {:induction false} ReadBack(rest: seq<bool>, syms: seq<Bit>, p: nat, v: nat)
    requires IsRendered(rest, syms) && syms != [] && syms[0] == H
    requires p + 2 <= |syms| && syms[p..p + 2] == Uint(v, 2)
    ensures ReadChan(rest, p) == v % 4
  {
    assert Uint(v, 2) == Uint(v / 2, 1) + [if v % 2 == 1 then One else Zero];
    assert Uint(v / 2, 1) == [] + [if v / 2 % 2 == 1 then One else Zero];
    assert syms[p] == syms[p..p + 2][0] && syms[p + 1] == syms[p..p + 2][1];
    assert v % 4 == (if v / 2 % 2 == 1 then 2 else 0) + (if v % 2 == 1 then 1 else 0);
  }

  /** A type 2 block pages its two TMSI slots and its third identity. */
  lemma {:induction false} Type2RoundTrip(id1: seq<Octet>, chan1: Octet, id2: seq<Octet>, chan2: Octet,
                                          id3: seq<Octet>, chan3: Octet, nln: Option<Nln>, rest: seq<bool>)
    requires |id1| >= 6 && |id2| >= 6 && IsLv(id3) && IsRendered(rest, P2Bits(P2(Some(chan3), nln)))
    ensures Decode(Block(Type2(id1, chan1, id2, chan2, Some(id3)), rest))
         == [Paged(Tmsi(TmsiOctets(id1)), chan1 % 4), Paged(Tmsi(TmsiOctets(id2)), chan2 % 4),
             Paged(Mobile(Value(id3)), chan3 % 4)]
  {
    var syms := P2Bits(P2(Some(chan3), nln));
    assert syms[1..3] == Uint(chan3, 2);
    ReadBack(rest, syms, 1, chan3);
    Type2Layout(id1, chan1, id2, chan2, id3);
    DecodeMoreInverts(Some(id3), chan3 % 4);
    hide Type2, DecodeMore, OptionalId, TmsiOctets, IsRendered, P2Bits, ReadChan, Value;
  }

  /** A type 3 block pages its four TMSI slots. */
  lemma {:induction false} Type3RoundTrip(id1: seq<Octet>, chan1: Octet, id2: seq<Octet>, chan2: Octet,
                                          id3: seq<Octet>, chan3: Octet, id4: seq<Octet>, chan4: Octet,
                                          nln: Option<Nln>, rest: seq<bool>)
    requires |id1| >= 6 && |id2| >= 6 && |id3| >= 6 && |id4| >= 6
    requires IsRendered(rest, P3Bits(P3(Some((chan3 as nat, chan4 as nat)), nln)))
    ensures Decode(Block(Type3(id1, chan1, id2, chan2, id3, id4), rest))
         == [Paged(Tmsi(TmsiOctets(id1)), chan1 % 4), Paged(Tmsi(TmsiOctets(id2)), chan2 % 4),
             Paged(Tmsi(TmsiOctets(id3)), chan3 % 4), Paged(Tmsi(TmsiOctets(id4)), chan4 % 4)]
  {
    var syms := P3Bits(P3(Some((chan3 as nat, chan4 as nat)), nln));
    assert syms[1..3] == Uint(chan3, 2) && syms[3..5] == Uint(chan4, 2);
    ReadBack(rest, syms, 1, chan3);
    ReadBack(rest, syms, 3, chan4);
    Type3Layout(id1, chan1, id2, chan2, id3, id4);
    hide Type3, TmsiOctets, IsRendered, P3Bits, ReadChan;
  }

  lemma {:induction false} Type2Layout(id1: seq<Octet>, chan1: Octet, id2: seq<Octet>, chan2: Octet, id3: seq<Octet>)
    requires |id1| >= 6 && |id2| >= 6 && IsLv(id3)
    ensures var o := Type2(id1, chan1, id2, chan2, Some(id3));
            && o[0] == (|o| - 1) * 4 + 1 && o[1] == PDISC_RR && o[2] == PAG_REQ_2
            && o[3] / 16 % 4 == chan1 % 4 && o[3] / 64 == chan2 % 4
            && o[4..8] == TmsiOctets(id1) && o[8..12] == TmsiOctets(id2) && o[12..] == OptionalId(Some(id3))
  {
    hide TmsiOctets, OptionalId;
  }

  lemma {:induction false} Type3Layout(id1: seq<Octet>, chan1: Octet, id2: seq<Octet>, chan2: Octet,
                                       id3: seq<Octet>, id4: seq<Octet>)
    requires |id1| >= 6 && |id2| >= 6 && |id3| >= 6 && |id4| >= 6
    ensures var o := Type3(id1, chan1, id2, chan2, id3, id4);
            && o[0] == 77 && o[1] == PDISC_RR && o[2] == PAG_REQ_3
            && o[3] / 16 % 4 == chan1 % 4 && o[3] / 64 == chan2 % 4
            && o[4..8] == TmsiOctets(id1) && o[8..12] == TmsiOctets(id2)
            && o[12..16] == TmsiOctets(id3) && o[16..20] == TmsiOctets(id4)
  {
    hide TmsiOctets;
  }

  // ----- The rest octets as a mobile reads them ------------------------------------------------

  /** The padding octet is 0x2b. */
  lemma PadIs2b(k: nat)
    ensures (if Pad(8 * k) then 128 else 0) + (if Pad(8 * k + 1) then 64 else 0) + (if Pad(8 * k + 2) then 32 else 0)
          + (if Pad(8 * k + 3) then 16 else 0) + (if Pad(8 * k + 4) then 8 else 0) + (if Pad(8 * k + 5) then 4 else 0)
          + (if Pad(8 * k + 6) then 2 else 0) + (if Pad(8 * k + 7) then 1 else 0) == 0x2b
  {
  }

  /** The bit at p is an H; beyond the end there is only padding. */
  predicate High(rest: seq<bool>, p: nat) {
    p < |rest| && rest[p] != Pad(p)
  }

  /** The notification list number at p reads as it was written. */
  predicate ReadsNln(rest: seq<bool>, p: nat, n: Option<Nln>) {
    && (High(rest, p) <==> n.Some?)
    && (n.Some? ==> p + 3 < |rest| && ReadTwo(rest, p + 1) == n.value.nln % 4
                    && rest[p + 3] == (n.value.status % 2 == 1))
  }

  lemma {:induction false} NlnReadsBack(rest: seq<bool>, syms: seq<Bit>, p: nat, n: Option<Nln>)
    requires IsRendered(rest, syms) && p + |NlnBits(n)| <= |syms| && syms[p..p + |NlnBits(n)|] == NlnBits(n)
    ensures ReadsNln(rest, p, n)
  {
    assert syms[p] == syms[p..p + |NlnBits(n)|][0];
    if n.Some? {
      assert syms[p + 1] == syms[p..p + 4][1] && syms[p + 2] == syms[p..p + 4][2] && syms[p + 3] == syms[p..p + 4][3];
      UintTwo(n.value.nln);
      UintOne(n.value.status);
    }
  }

  lemma UintTwo(v: nat)
    ensures Uint(v, 2) == [if v / 2 % 2 == 1 then One else Zero, if v % 2 == 1 then One else Zero]
    ensures v % 4 == (if v / 2 % 2 == 1 then 2 else 0) + (if v % 2 == 1 then 1 else 0)
  {
    hide Uint;
    LastBit(v, 2);
    UintOne(v / 2);
    TwoBits(v);
  }

  lemma TwoBits(v: nat)
    ensures v % 4 == (if v / 2 % 2 == 1 then 2 else 0) + (if v % 2 == 1 then 1 else 0)
  {
  }

  lemma LastBit(v: nat, n: nat)
    requires n > 0
    ensures Uint(v, n) == Uint(v / 2, n - 1) + [if v % 2 == 1 then One else Zero]
  {
  }

  lemma UintOne(v: nat)
    ensures Uint(v, 1) == [if v % 2 == 1 then One else Zero]
  {
    assert Uint(v, 1) == [] + [if v % 2 == 1 then One else Zero];
  }

  /** Type 1: the notification list number, no priorities and no group call, the packet page
      indications, no additions of releases 6 and 7, and those of release 8. */
  lemma {:induction false} RestOfType1(rest: seq<bool>, p: P1)
    requires IsRendered(rest, P1Bits(p))
    ensures ReadsNln(rest, 0, p.nln)
    ensures var o := if p.nln.Some? then 4 else 1;
            && |rest| >= o + 7 && !High(rest, o) && !High(rest, o + 1) && !High(rest, o + 2)
            && (High(rest, o + 3) <==> p.ppi1) && (High(rest, o + 4) <==> p.ppi2)
            && !High(rest, o + 5) && !High(rest, o + 6)
            && (High(rest, o + 7) <==> p.r8.Some?)
            && (p.r8.Some? ==> |rest| >= o + 10 && rest[o + 8] == p.r8.value.prioUlAccess
                               && rest[o + 9] == p.r8.value.etws.Some?)
  {
    hide P1Bits, Rel8Bits, NlnBits, ReadsNln;
    var syms := P1Bits(p);
    Type1Bits(p);
    NlnReadsBack(rest, syms, 0, p.nln);
  }

  lemma {:induction false} Type1Bits(p: P1)
    ensures var syms, o := P1Bits(p), if p.nln.Some? then 4 else 1;
            && |NlnBits(p.nln)| == o <= |syms| && syms[0..0 + o] == NlnBits(p.nln)
            && |syms| == o + 7 + |Rel8Bits(p.r8)|
            && syms[o] == L && syms[o + 1] == L && syms[o + 2] == L
            && syms[o + 3] == (if p.ppi1 then H else L) && syms[o + 4] == (if p.ppi2 then H else L)
            && syms[o + 5] == L && syms[o + 6] == L
            && (p.r8.None? ==> |syms| == o + 7)
            && (p.r8.Some? ==> |syms| >= o + 10 && syms[o + 7] == H
                               && syms[o + 8] == (if p.r8.value.prioUlAccess then One else Zero)
                               && syms[o + 9] == (if p.r8.value.etws.Some? then One else Zero))
  {
    hide Uint, EtwsBits;
    var nln, r8 := NlnBits(p.nln), Rel8Bits(p.r8);
    var mid := [L, L, L, if p.ppi1 then H else L, if p.ppi2 then H else L, L, L];
    assert P1Bits(p) == nln + mid + r8 && |nln| == if p.nln.Some? then 4 else 1;
    hide NlnBits, P1Bits;
    assert p.r8.Some? ==> |r8| >= 3 && r8[2] == if p.r8.value.etws.Some? then One else Zero;
  }

  /** Type 2: the third channel need, then the notification list number. */
  lemma {:induction false} RestOfType2(rest: seq<bool>, p: P2)
    requires IsRendered(rest, P2Bits(p))
    ensures High(rest, 0) <==> p.cn3.Some?
    ensures p.cn3.Some? ==> |rest| >= 3 && ReadTwo(rest, 1) == p.cn3.value % 4
    ensures ReadsNln(rest, if p.cn3.Some? then 3 else 1, p.nln)
  {
    hide NlnBits;
    var syms, o := P2Bits(p), if p.cn3.Some? then 3 else 1;
    if p.cn3.Some? { UintTwo(p.cn3.value); }
    assert syms[o..o + |NlnBits(p.nln)|] == NlnBits(p.nln);
    NlnReadsBack(rest, syms, o, p.nln);
  }

  /** Type 3: the third and fourth channel need, then the notification list number. */
  lemma {:induction false} RestOfType3(rest: seq<bool>, p: P3)
    requires IsRendered(rest, P3Bits(p))
    ensures High(rest, 0) <==> p.cn34.Some?
    ensures p.cn34.Some? ==> |rest| >= 5 && ReadTwo(rest, 1) == p.cn34.value.0 % 4
                             && ReadTwo(rest, 3) == p.cn34.value.1 % 4
    ensures ReadsNln(rest, if p.cn34.Some? then 5 else 1, p.nln)
  {
    hide NlnBits;
    var syms, o := P3Bits(p), if p.cn34.Some? then 5 else 1;
    if p.cn34.Some? {
      UintTwo(p.cn34.value.0);
      UintTwo(p.cn34.value.1);
    }
    assert syms[o..o + |NlnBits(p.nln)|] == NlnBits(p.nln);
    NlnReadsBack(rest, syms, o, p.nln);
  }

  /** Whatever is not written keeps the padding. */
  lemma RestIsPadded(rest: seq<bool>, syms: seq<Bit>, i: nat)
    requires IsRendered(rest, syms) && |syms| <= i < |rest|
    ensures !High(rest, i)
  {
  }
}
