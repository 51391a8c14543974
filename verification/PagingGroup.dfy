/** From frame numbers to paging groups (section 6.5.2 of 3GPP TS 45.002). */
module PagingGroup {
  import opened Tdma

  /** The paging-related part of the control channel description. */
  datatype ChanDesc = ChanDesc(combined: bool, agBlksRes: nat, paMfrms: nat)

  /** CCCH blocks in a 51-multiframe. */
  function CcchBlocks(cd: ChanDesc): nat {
    if cd.combined then 3 else 9
  }

  /** Both fields have three bits, and at least one CCCH block is left for paging. */
  predicate Proper(cd: ChanDesc) {
    cd.agBlksRes < CcchBlocks(cd) && cd.agBlksRes <= 7 && cd.paMfrms <= 7
  }

  function PagBlocks(cd: ChanDesc): (n: nat)
    requires Proper(cd)
    ensures 1 <= n <= 9
  {
    CcchBlocks(cd) - cd.agBlksRes
  }

  /** Multiframes in a paging cycle. */
  function Cycle(cd: ChanDesc): (m: nat)
    requires Proper(cd)
    ensures 2 <= m <= 9
  {
    cd.paMfrms + 2
  }

  /** Paging groups, gsm48_number_of_paging_subchannels. */
  function Groups(cd: ChanDesc): (n: nat)
    requires Proper(cd)
  {
    PagBlocks(cd) * Cycle(cd)
  }

  const NO_BLOCK: nat := 255

  /** CCCH block of each frame of the 51-multiframe. */
  function BlockByTdma51(t3: nat): (b: nat)
    ensures b == NO_BLOCK || b <= 8
  {
    if 6 <= t3 <= 9 then 0
    else if 12 <= t3 <= 15 then 1
    else if 16 <= t3 <= 19 then 2
    else if 22 <= t3 <= 25 then 3
    else if 26 <= t3 <= 29 then 4
    else if 32 <= t3 <= 35 then 5
    else if 36 <= t3 <= 39 then 6
    else if 42 <= t3 <= 45 then 7
    else if 46 <= t3 <= 49 then 8
    else NO_BLOCK
  }

  /** The frames of FCCH, SCH and BCCH, two in ten and the first six, are in none. */
  lemma NoBlockExactlyWhen(t3: nat)
    requires t3 < 51
    ensures BlockByTdma51(t3) == NO_BLOCK <==> t3 < 6 || t3 % 10 < 2
  {
  }

  /** Paging block within the multiframe; negative if the frame has none. */
  function PagIdx(cd: ChanDesc, fn: Fn): (i: int)
    ensures -1 <= i <= 8
  {
    var blk := BlockByTdma51(fn % 51);
    if blk == NO_BLOCK || blk < cd.agBlksRes then -1 else blk - cd.agBlksRes
  }

  /** Paging group served at a frame; negative if none. */
  function PagSubch(cd: ChanDesc, fn: Fn): (g: int)
    requires Proper(cd)
  {
    if PagIdx(cd, fn) < 0 then -1 else PagIdx(cd, fn) + ((fn / 51) % Cycle(cd)) * PagBlocks(cd)
  }

  /** No group belongs to a frame without a block, or with one reserved for access grants. */
  lemma {:induction false} NoGroupExactlyWhen(cd: ChanDesc, fn: Fn)
    requires Proper(cd)
    ensures PagSubch(cd, fn) < 0 <==> fn % 51 < 6 || fn % 51 % 10 < 2 || BlockByTdma51(fn % 51) < cd.agBlksRes
  {
    NoBlockExactlyWhen(fn % 51);
    hide BlockByTdma51, PagBlocks, Cycle;
    if PagIdx(cd, fn) >= 0 { assert ((fn / 51) % Cycle(cd)) * PagBlocks(cd) >= 0; }
  }

  /** The first frame of CCCH block b. */
  function BlockStart(b: nat): (t: nat)
    requires b <= 8
  {
    6 + 4 * b + 2 * ((b + 1) / 2)
  }

  lemma BlockFrames(b: nat, i: nat)
    requires b <= 8 && i < 4
    ensures BlockStart(b) + i < 51 && BlockByTdma51(BlockStart(b) + i) == b
  {
  }

  /** All four frames of paging block b of multiframe k serve the same group. */
  lemma {:induction false} GroupOfBlock(cd: ChanDesc, k: nat, b: nat, i: nat)
    requires Proper(cd) && cd.agBlksRes <= b < CcchBlocks(cd) && i < 4
    requires k * 51 + BlockStart(b) + i < HYPERFRAME
    ensures PagSubch(cd, k * 51 + BlockStart(b) + i) == b - cd.agBlksRes + (k % Cycle(cd)) * PagBlocks(cd)
  {
    BlockFrames(b, i);
    DivModUnique(k * 51 + BlockStart(b) + i, k, BlockStart(b) + i, 51);
  }

  /** No paging frame leads outside the groups, nor outside the array of 81 queues. */
  lemma {:induction false} GroupInRange(cd: ChanDesc, row: nat, idx: nat)
    requires Proper(cd) && row < Cycle(cd) && idx < PagBlocks(cd)
    ensures idx + row * PagBlocks(cd) < Groups(cd) <= 81
  {
    RowsFit(PagBlocks(cd), Cycle(cd), row, idx);
    NineByNine(PagBlocks(cd), Cycle(cd));
  }

  lemma {:induction false} RowsFit(n: nat, m: nat, row: nat, idx: nat)
    requires row < m && idx < n
    ensures idx + row * n < n * m
  {
    var gap: nat := m - 1 - row;
    assert n * m == (gap + row + 1) * n == gap * n + row * n + n;
    assert gap * n >= 0;
  }

  lemma {:induction false} NineByNine(n: nat, m: nat)
    requires n <= 9 && m <= 9
    ensures n * m <= 81
  {
    var d: nat := 9 - n;
    assert 9 * m == (d + n) * m == d * m + n * m;
    assert d * m >= 0;
  }

  /** The multiframe from start on whose position in the cycle is row. */
  function RowFrom(start: nat, row: nat, m: nat): (k: nat)
    requires m > 0 && row < m
  {
    if start % m <= row then start + (row - start % m) else start + (row + m - start % m)
  }

  lemma {:induction false} RowFromIsIt(start: nat, row: nat, m: nat)
    requires m > 0 && row < m
    ensures start <= RowFrom(start, row, m) < start + m && RowFrom(start, row, m) % m == row
  {
    var q, r := start / m, start % m;
    assert start == q * m + r;
    if r <= row {
      DivModUnique(RowFrom(start, row, m), q, row, m);
    } else {
      assert (q + 1) * m == q * m + m;
      DivModUnique(RowFrom(start, row, m), q + 1, row, m);
    }
  }

  lemma {:induction false} SameRow(start: nat, k: nat, l: nat, m: nat)
    requires m > 0 && start <= k < start + m && start <= l < start + m && k % m == l % m
    ensures k == l
  {
    assert k - l == (k / m - l / m) * m by {
      assert k == (k / m) * m + k % m && l == (l / m) * m + l % m;
      assert (k / m - l / m) * m == (k / m) * m - (l / m) * m;
    }
    MultipleOutside(k / m - l / m, m);
  }

  const MULTIFRAMES: nat := 53248

  /** A frame of CCCH block b in the multiframe that comes i after multiframe start. */
  function FrameOf(start: nat, i: nat, b: nat, frame: nat): (fn: Fn)
    requires b <= 8 && frame < 4
  {
    BlockFrames(b, frame);
    ((start + i) % MULTIFRAMES) * 51 + BlockStart(b) + frame
  }

  /** The paging blocks of one cycle from multiframe start on: the multiframe and the block. */
  predicate IsSlot(cd: ChanDesc, i: nat, b: nat)
    requires Proper(cd)
  {
    i < Cycle(cd) && cd.agBlksRes <= b < CcchBlocks(cd)
  }

  /** The code takes all four frames of the block for group g. */
  predicate Serves(cd: ChanDesc, start: nat, i: nat, b: nat, g: nat)
    requires Proper(cd) && IsSlot(cd, i, b)
  {
    && PagSubch(cd, FrameOf(start, i, b, 0)) == g && PagSubch(cd, FrameOf(start, i, b, 1)) == g
    && PagSubch(cd, FrameOf(start, i, b, 2)) == g && PagSubch(cd, FrameOf(start, i, b, 3)) == g
  }

  /** Position in the paging cycle of the multiframe that comes i after start. */
  function Row(cd: ChanDesc, start: nat, i: nat): (r: nat)
    requires Proper(cd)
    ensures r < Cycle(cd)
  {
    ((start + i) % MULTIFRAMES) % Cycle(cd)
  }

  lemma {:induction false} ServesIsRow(cd: ChanDesc, start: nat, i: nat, b: nat, g: nat)
    requires Proper(cd) && IsSlot(cd, i, b)
    ensures Serves(cd, start, i, b, g) <==> g == b - cd.agBlksRes + Row(cd, start, i) * PagBlocks(cd)
  {
    var k := (start + i) % MULTIFRAMES;
    forall f | 0 <= f < 4
      ensures PagSubch(cd, FrameOf(start, i, b, f)) == b - cd.agBlksRes + (k % Cycle(cd)) * PagBlocks(cd)
    {
      BlockFrames(b, f);
      GroupOfBlock(cd, k, b, f);
    }
    hide PagSubch, FrameOf;
  }

  /** Over one cycle from start on, each group is served by exactly one block. */
  ghost predicate ServedOnce(cd: ChanDesc, start: nat)
    requires Proper(cd)
  {
    forall g: nat :: g < Groups(cd) ==> Once(cd, start, g)
  }

  ghost predicate Once(cd: ChanDesc, start: nat, g: nat)
    requires Proper(cd)
  {
    exists i: nat, b: nat :: IsSlot(cd, i, b) && Serves(cd, start, i, b, g) && OnlyAt(cd, start, g, i, b)
  }

  ghost predicate OnlyAt(cd: ChanDesc, start: nat, g: nat, i: nat, b: nat)
    requires Proper(cd)
  {
    forall j: nat, c: nat :: IsSlot(cd, j, c) && Serves(cd, start, j, c, g) ==> j == i && c == b
  }

  lemma {:induction false} RowBound(g: nat, n: nat, m: nat)
    requires n > 0 && g < n * m
    ensures 0 <= g / n < m && 0 <= g % n < n
  {
    var q := g / n;
    assert g == q * n + g % n;
    assert (q - m) * n == q * n - n * m;
    MultipleOutside(q - m, n);
    MultipleOutside(q, n);
  }

  /** The positions go through the cycle without a break at the end of the hyperframe. */
  predicate Unbroken(cd: ChanDesc, start: nat)
    requires Proper(cd)
  {
    start + Cycle(cd) <= MULTIFRAMES || MULTIFRAMES % Cycle(cd) == 0
  }

  lemma {:induction false} RowOfUnbroken(cd: ChanDesc, start: nat, i: nat)
    requires Proper(cd) && start < MULTIFRAMES && i < Cycle(cd) && Unbroken(cd, start)
    ensures Row(cd, start, i) == (start + i) % Cycle(cd)
  {
    var m := Cycle(cd);
    if start + i >= MULTIFRAMES {
      var k := MULTIFRAMES / m;
      assert MULTIFRAMES == k * m + MULTIFRAMES % m;
      ModPlusMultiple(start + i - MULTIFRAMES, k, m);
      assert (start + i) % MULTIFRAMES == start + i - MULTIFRAMES;
    }
  }

  /** Where the cycle from start on serves group g, if the positions run through. */
  function ServingMultiframe(cd: ChanDesc, start: nat, g: nat): (i: nat)
    requires Proper(cd) && g < Groups(cd)
    ensures i < Cycle(cd)
  {
    RowBound(g, PagBlocks(cd), Cycle(cd));
    RowFromIsIt(start, g / PagBlocks(cd), Cycle(cd));
    RowFrom(start, g / PagBlocks(cd), Cycle(cd)) - start
  }

  function ServingBlock(cd: ChanDesc, g: nat): (b: nat)
    requires Proper(cd)
    ensures cd.agBlksRes <= b < CcchBlocks(cd)
  {
    cd.agBlksRes + g % PagBlocks(cd)
  }

  /** Then every group is served by a CCCH block, and only by that one. */
  lemma {:induction false} EveryGroupServedOnce(cd: ChanDesc, start: nat, g: nat, i: nat, b: nat)
    requires Proper(cd) && g < Groups(cd) && start < MULTIFRAMES && Unbroken(cd, start) && IsSlot(cd, i, b)
    ensures Serves(cd, start, i, b, g) <==> i == ServingMultiframe(cd, start, g) && b == ServingBlock(cd, g)
  {
    ServesIsRow(cd, start, i, b, g);
    RowOfUnbroken(cd, start, i);
    RowBound(g, PagBlocks(cd), Cycle(cd));
    SlotOfGroup(PagBlocks(cd), Cycle(cd), start, g, i, b - cd.agBlksRes);
    hide Serves, Unbroken, Row, RowFrom, Groups;
  }

  lemma {:induction false} SlotOfGroup(n: nat, m: nat, start: nat, g: nat, i: nat, idx: nat)
    requires n > 0 && i < m && idx < n && 0 <= g / n < m
    ensures g == idx + ((start + i) % m) * n <==> start + i == RowFrom(start, g / n, m) && idx == g % n
  {
    var row := g / n;
    assert g == row * n + g % n;
    RowFromIsIt(start, row, m);
    hide RowFrom;
    if g == idx + ((start + i) % m) * n {
      DivModUnique(g, (start + i) % m, idx, n);
      SameRow(start, start + i, RowFrom(start, row, m), m);
    }
  }

  /** A broken cycle comes to one position twice: before the end of the hyperframe, and
      again behind it. */
  lemma {:induction false} BrokenCycleRepeats(cd: ChanDesc, start: nat) returns (i: nat, j: nat)
    requires Proper(cd) && start < MULTIFRAMES && !Unbroken(cd, start)
    ensures i < j < Cycle(cd) && Row(cd, start, i) == Row(cd, start, j)
  {
    var m := Cycle(cd);
    var r, before := MULTIFRAMES % m, MULTIFRAMES - start;
    var behind := m - before;
    var row := if r - 1 < behind then r - 1 else behind - 1;
    i, j := before - 1 - (r - 1 - row), before + row;
    var q := MULTIFRAMES / m;
    assert MULTIFRAMES == q * m + r;
    DivModUnique(start + i, q, row, m);
    DivModUnique(row, 0, row, m);
    assert (start + j) % MULTIFRAMES == row;
  }

  /** From any multiframe on: one paging cycle serves every group exactly once if and only
      if it does not cross the end of the hyperframe, or the cycle divides the hyperframe. */
  lemma {:induction false} ServedOnceExactlyWhen(cd: ChanDesc, start: nat)
    requires Proper(cd) && start < MULTIFRAMES
    ensures ServedOnce(cd, start) <==> start + Cycle(cd) <= MULTIFRAMES || MULTIFRAMES % Cycle(cd) == 0
  {
    hide Serves;
    if Unbroken(cd, start) {
      forall g: nat | g < Groups(cd)
        ensures Once(cd, start, g)
      {
        var i, b := ServingMultiframe(cd, start, g), ServingBlock(cd, g);
        forall j: nat, c: nat | IsSlot(cd, j, c)
          ensures Serves(cd, start, j, c, g) <==> j == i && c == b
        {
          EveryGroupServedOnce(cd, start, g, j, c);
        }
        assert IsSlot(cd, i, b) && OnlyAt(cd, start, g, i, b);
      }
    } else {
      var i, j := BrokenCycleRepeats(cd, start);
      var g := Row(cd, start, i) * PagBlocks(cd);
      GroupInRange(cd, Row(cd, start, i), 0);
      ServesIsRow(cd, start, i, cd.agBlksRes, g);
      ServesIsRow(cd, start, j, cd.agBlksRes, g);
      assert IsSlot(cd, i, cd.agBlksRes) && IsSlot(cd, j, cd.agBlksRes);
      assert !Once(cd, start, g);
    }
  }

  /** Those are the cycles of two, four and eight multiframes. */
  lemma {:induction false} WrapIsClean(cd: ChanDesc)
    requires Proper(cd)
    ensures MULTIFRAMES % Cycle(cd) == 0 <==> Cycle(cd) == 2 || Cycle(cd) == 4 || Cycle(cd) == 8
  {
    var m := Cycle(cd);
    if m == 2 { assert MULTIFRAMES % 2 == 0; }
    else if m == 3 { assert MULTIFRAMES % 3 == 1; }
    else if m == 4 { assert MULTIFRAMES % 4 == 0; }
    else if m == 5 { assert MULTIFRAMES % 5 == 3; }
    else if m == 6 { assert MULTIFRAMES % 6 == 4; }
    else if m == 7 { assert MULTIFRAMES % 7 == 6; }
    else if m == 8 { assert MULTIFRAMES % 8 == 0; }
    else { assert m == 9 && MULTIFRAMES % 9 == 4; }
  }

  /** For example with three multiframes: the last one of the hyperframe and the first have
      the same position. */
  lemma WrapServesTwice()
    ensures var cd := ChanDesc(false, 0, 1);
            PagSubch(cd, 53247 * 51 + 6) == PagSubch(cd, 6) == 0
  {
  }

  // ----- Groups that frames lead to ---------------------------------------------------------

  /** The cell has the CCCH block that the frame is in; only then it is asked for a paging
      block.  With a combined CCCH the frames behind the third block belong to other channels. */
  predicate OnCcch(cd: ChanDesc, fn: Fn) {
    BlockByTdma51(fn % 51) < CcchBlocks(cd)
  }

  /** A frame that leads to the queue of a group. */
  function FrameFor(cd: ChanDesc, g: nat): (fn: Fn)
    requires Proper(cd) && g < Groups(cd)
  {
    RowBound(g, PagBlocks(cd), Cycle(cd));
    BlockFrames(ServingBlock(cd, g), 0);
    (g / PagBlocks(cd)) * 51 + BlockStart(ServingBlock(cd, g))
  }

  lemma {:induction false} FrameForLeads(cd: ChanDesc, g: nat)
    requires Proper(cd) && g < Groups(cd)
    ensures OnCcch(cd, FrameFor(cd, g)) && PagSubch(cd, FrameFor(cd, g)) == g
  {
    hide PagSubch, BlockByTdma51, BlockStart, PagBlocks, Cycle;
    var n, m := PagBlocks(cd), Cycle(cd);
    RowBound(g, n, m);
    var row, b := g / n, ServingBlock(cd, g);
    BlockFrames(b, 0);
    GroupOfBlock(cd, row, b, 0);
    var fn := FrameFor(cd, g);
    assert fn == row * 51 + BlockStart(b);
    DivModUnique(fn, row, BlockStart(b), 51);
    DivModUnique(row, 0, row, m);
    Divided(g, n);
  }

  lemma Divided(g: nat, n: nat)
    requires n > 0
    ensures g == (g / n) * n + g % n
  {
  }

  /** Some frame of the CCCH leads to the queue of group g if and only if there is that group. */
  lemma {:induction false} VisitedExactlyWhen(cd: ChanDesc, g: nat)
    requires Proper(cd)
    ensures (exists fn: Fn :: OnCcch(cd, fn) && PagSubch(cd, fn) == g) <==> g < Groups(cd)
  {
    hide *;
    if g < Groups(cd) { FrameForLeads(cd, g); }
    forall fn: Fn | OnCcch(cd, fn) && PagSubch(cd, fn) == g
      ensures g < Groups(cd)
    {
      VisitedInRange(cd, fn);
    }
  }

  lemma {:induction false} VisitedInRange(cd: ChanDesc, fn: Fn)
    requires Proper(cd) && OnCcch(cd, fn)
    ensures PagSubch(cd, fn) < Groups(cd) <= 81
  {
    GroupInRange(cd, (fn / 51) % Cycle(cd), if PagIdx(cd, fn) < 0 then 0 else PagIdx(cd, fn));
  }

  /** Such frames of a combined cell compute groups that it does not have. */
  lemma OffCcchLeadsBeyond()
    ensures var cd := ChanDesc(true, 2, 0);
            Groups(cd) == 2 && !OnCcch(cd, 26) && PagSubch(cd, 26) == 2
  {
  }
}
