/** SMS cell broadcast (3GPP TS 44.012): the basic and the extended CBCH.

    Messages are allocated on arrival, queued, broadcast block by block in the
    multiframes TB = 0..3 and freed after their last block; a default message is
    repeated whenever the queue is empty.  The model tracks which messages are live, so
    that freeing one twice, or using one after it was freed, would not verify. */
module Cbch {

  import opened Basics

  const MSG_LEN: nat := 88
  const BLOCK_LEN: nat := 22
  const PADDING: Octet := 0x2b
  const SEQ_NULL: nat := 15
  const SEQ_SCHEDULE: nat := 8

  datatype Content = Content(isSchedule: bool, data: seq<Octet>, numSegs: nat) {
    predicate Valid() {
      |data| == MSG_LEN && 1 <= numSegs <= 4
    }
  }

  /** A block as broadcast: sequence number, last-block bit and payload. */
  datatype Block = Block(seqNr: nat, lb: bool, data: seq<Octet>)

  function Pads(n: nat): (r: seq<Octet>)
    ensures |r| == n
  {
    if n == 0 then [] else Pads(n - 1) + [PADDING]
  }

  function NullBlock(): (b: Block)
    ensures !b.lb
  {
    Block(SEQ_NULL, false, Pads(BLOCK_LEN))
  }

  function Padded(msg: seq<Octet>): (r: seq<Octet>)
    requires |msg| <= MSG_LEN
    ensures |r| == MSG_LEN
  {
    msg + Pads(MSG_LEN - |msg|)
  }

  function BlockOf(c: Content, nr: nat): (b: Block)
    requires c.Valid()
  {
    if nr >= c.numSegs then NullBlock()
    else Block(if nr == 0 && c.isSchedule then SEQ_SCHEDULE else nr, nr + 1 == c.numSegs,
               c.data[nr * BLOCK_LEN..(nr + 1) * BLOCK_LEN])
  }

  /** A block as it goes on air: its number, 8 for the first one of a schedule message, whether
      it is the last, and its part of the message; behind the last one, and without a message,
      a null block. */
  ghost predicate OnAirAs(b: Block, c: Option<Content>, nr: nat) {
    if c.None? || nr >= c.value.numSegs then
      b.seqNr == 15 && !b.lb && |b.data| == 22 && forall i :: 0 <= i < 22 ==> b.data[i] == 0x2b
    else
      && b.seqNr == (if nr > 0 then nr else if c.value.isSchedule then 8 else 0)
      && (b.lb <==> nr == c.value.numSegs - 1)
      && |b.data| == 22 && |c.value.data| >= 22 * nr + 22
      && forall i :: 0 <= i < 22 ==> b.data[i] == c.value.data[22 * nr + i]
  }

  lemma BlockFields(c: Content, nr: nat)
    requires c.Valid()
    ensures OnAirAs(BlockOf(c, nr), Some(c), nr)
  {
    NullFields(nr);
  }

  lemma NullFields(nr: nat)
    ensures OnAirAs(NullBlock(), None, nr)
  {
    PadsAreFilling(22);
  }

  lemma {:induction false} PadsAreFilling(n: nat)
    ensures forall i :: 0 <= i < n ==> Pads(n)[i] == 0x2b
  {
    if n > 0 { PadsAreFilling(n - 1); }
  }

  lemma PaddedKeeps(msg: seq<Octet>)
    requires |msg| <= MSG_LEN
    ensures forall i :: 0 <= i < 88 ==> Padded(msg)[i] == if i < |msg| then msg[i] else 0x2b
  {
    PadsAreFilling(MSG_LEN - |msg|);
  }

  /** The first n blocks of a message. */
  function BlocksOf(c: Content, n: nat): (bs: seq<Block>)
    requires c.Valid()
    ensures |bs| == n
  {
    if n == 0 then [] else BlocksOf(c, n - 1) + [BlockOf(c, n - 1)]
  }

  function Payload(bs: seq<Block>): (r: seq<Octet>) {
    if bs == [] then [] else Payload(bs[..|bs| - 1]) + bs[|bs| - 1].data
  }

  /** What a mobile makes of consecutive blocks that end with a last-block bit. */
  datatype Received = Received(isSchedule: bool, data: seq<Octet>)

  function Reassemble(bs: seq<Block>): (r: Received)
    requires bs != []
  {
    Received(bs[0].seqNr == SEQ_SCHEDULE, Payload(bs))
  }

  /** The part of a message that its segments cover. */
  function Covered(c: Content): (r: Received)
    requires c.Valid()
  {
    Received(c.isSchedule, c.data[..c.numSegs * BLOCK_LEN])
  }

  lemma BlockData(c: Content, nr: nat)
    requires c.Valid() && nr < c.numSegs
    ensures BlockOf(c, nr).data == c.data[nr * BLOCK_LEN..(nr + 1) * BLOCK_LEN]
    ensures c.data[..(nr + 1) * BLOCK_LEN] == c.data[..nr * BLOCK_LEN] + c.data[nr * BLOCK_LEN..(nr + 1) * BLOCK_LEN]
  {
    hide Pads, NullBlock;
  }

  lemma {:induction false} PayloadOfBlocks(c: Content, n: nat)
    requires c.Valid() && n <= c.numSegs
    ensures Payload(BlocksOf(c, n)) == c.data[..n * BLOCK_LEN]
  {
    hide BlockOf;
    if n > 0 {
      assert BlocksOf(c, n)[..n - 1] == BlocksOf(c, n - 1);
      BlockData(c, n - 1);
      PayloadOfBlocks(c, n - 1);
    }
  }

  lemma {:induction false} FirstBlock(c: Content, n: nat)
    requires c.Valid() && n >= 1
    ensures BlocksOf(c, n)[0] == BlockOf(c, 0)
  {
    if n > 1 { FirstBlock(c, n - 1); }
  }

  /** Reassembling the blocks of a message gives back what its segments cover, and only
      the last one carries the last-block bit. */
  lemma {:induction false} BlocksReassemble(c: Content)
    requires c.Valid()
    ensures Reassemble(BlocksOf(c, c.numSegs)) == Covered(c)
    ensures forall nr: nat :: BlockOf(c, nr).lb <==> nr + 1 == c.numSegs
  {
    FirstBlock(c, c.numSegs);
    PayloadOfBlocks(c, c.numSegs);
  }

  class SmscbMsg {
    const content: Content

    constructor (content: Content)
      ensures this.content == content
    {
      this.content := content;
    }
  }

  datatype Command = Normal | Schedule | Null | Default(isNull: bool) | Unknown

  function NumSegs(lastBlock: nat): (n: nat)
    ensures 1 <= n <= 4
  {
    match lastBlock % 4
    case 1 => 1
    case 2 => 2
    case 3 => 3
    case _ => 4
  }

  /** The field counts from one to four in two bits, four as zero. */
  lemma NumSegsIsTwoBits(lastBlock: nat)
    ensures 1 <= NumSegs(lastBlock) <= 4 && NumSegs(lastBlock) % 4 == lastBlock % 4
  {
  }

  function Contents(q: seq<SmscbMsg>): (r: seq<Received>)
    requires forall m :: m in q ==> m.content.Valid()
  {
    if q == [] then [] else [Covered(q[0].content)] + Contents(q[1..])
  }

  lemma {:induction false} ContentsAppend(q: seq<SmscbMsg>, m: SmscbMsg)
    requires (forall x :: x in q ==> x.content.Valid()) && m.content.Valid()
    ensures Contents(q + [m]) == Contents(q) + [Covered(m.content)]
  {
    if q != [] {
      assert (q + [m])[1..] == q[1..] + [m];
      ContentsAppend(q[1..], m);
    }
  }

  function Elements(q: seq<SmscbMsg>): (s: set<SmscbMsg>) {
    set m | m in q
  }

  predicate Distinct(q: seq<SmscbMsg>) {
    forall i, j :: 0 <= i < j < |q| ==> q[i] != q[j]
  }

  lemma HeadAndRest(q: seq<SmscbMsg>)
    requires q != [] && Distinct(q)
    ensures Elements(q) == {q[0]} + Elements(q[1..]) && q[0] !in Elements(q[1..])
    ensures Distinct(q[1..]) && q[0] !in q[1..] && forall m :: m in q[1..] ==> m in q
  {
    assert q == [q[0]] + q[1..];
  }

  lemma OneBehind(q: seq<SmscbMsg>, m: SmscbMsg)
    requires Distinct(q) && m !in q
    ensures Elements(q + [m]) == Elements(q) + {m} && Distinct(q + [m])
  {
  }

  lemma HeadOfContents(q: seq<SmscbMsg>)
    requires q != [] && forall x :: x in q ==> x.content.Valid()
    ensures Contents(q) == [Covered(q[0].content)] + Contents(q[1..])
  {
  }

  class CbchState {
    var queue: seq<SmscbMsg>
    var queueLen: nat
    var curMsg: SmscbMsg?
    var defaultMsg: SmscbMsg?
    const maxLen: nat

    ghost var live: set<SmscbMsg>        // allocated and not freed
    ghost var leaked: set<SmscbMsg>      // live, but no longer reachable
    ghost var inOrder: bool              // no multiframe was missed while a message was on air
    ghost var phase: nat                 // block number that is due next
    ghost var onAir: seq<Block>          // blocks sent since the last TB = 0
    ghost var accepted: seq<Received>    // messages queued since the reset
    ghost var broadcast: seq<Received>   // messages a mobile has reassembled

    /** The message on air is one of its own, not the default message. */
    ghost predicate OnAirNormal()
      reads this`curMsg, this`defaultMsg
    {
      curMsg != null && curMsg != defaultMsg
    }

    ghost function Owned(): set<SmscbMsg>
      reads this`queue, this`curMsg, this`defaultMsg
    {
      Elements(queue) + (if curMsg == null then {} else {curMsg}) + (if defaultMsg == null then {} else {defaultMsg})
    }

    /** The live messages are exactly the owned ones and the leaked ones, and nothing is
        owned twice except that the default message may be on air. */
    ghost predicate Sound()
      reads this`queue, this`queueLen, this`curMsg, this`defaultMsg, this`live, this`leaked
    {
      && queueLen == |queue|
      && Distinct(queue)
      && (curMsg != null ==> curMsg !in queue) && (defaultMsg != null ==> defaultMsg !in queue)
      && live == Owned() + leaked && leaked !! Owned()
      && (forall m :: m in live ==> m.content.Valid())
    }

    /** What serving every multiframe in order guarantees on top, before block nr: nothing
        leaks, the message on air has more blocks to come, and every accepted message has
        been broadcast, is on air or is queued, first in first out. */
    ghost predicate Sending(nr: nat)
      requires Sound()
      reads this
    {
      && leaked == {}
      && (OnAirNormal() ==> nr < curMsg.content.numSegs && onAir == BlocksOf(curMsg.content, nr))
      && accepted == broadcast + (if OnAirNormal() then [Covered(curMsg.content)] else []) + Contents(queue)
    }

    /** Nothing has been missed, and what is on air of its own goes on with block nr. */
    ghost predicate GoesOn(nr: nat)
      reads this`inOrder, this`phase, this`curMsg, this`defaultMsg
    {
      inOrder && (OnAirNormal() ==> phase == nr)
    }

    /** Between two multiframes; a message on air is never left over at TB = 0. */
    ghost predicate Valid()
      reads this
    {
      Sound() && phase < 4 && (inOrder ==> Sending(phase) && (phase == 0 ==> !OnAirNormal()))
    }

    constructor (maxLen: nat)
      ensures Valid() && inOrder && phase == 0 && live == {} && this.maxLen == maxLen
      ensures queue == [] && curMsg == null && defaultMsg == null
      ensures accepted == broadcast == []
    {
      this.maxLen := maxLen;
      queue, queueLen, curMsg, defaultMsg := [], 0, null, null;
      live, leaked, inOrder, phase, onAir := {}, {}, true, 0, [];
      accepted, broadcast := [], [];
    }

    ghost method Free(m: SmscbMsg)
      requires m in live
      modifies this`live
      ensures live == old(live) - {m}
    {
      live := live - {m};
    }

    /** Queues a new message, or drops it if the queue is full. */
    method QueueMsg(scm: SmscbMsg)
      requires Valid() && scm !in live && scm.content.Valid()
      modifies this`queue, this`queueLen, this`live, this`accepted
      ensures Valid()
      ensures var room := |old(queue)| < maxLen;
              && queue == old(queue) + (if room then [scm] else [])
              && accepted == old(accepted) + (if room then [Covered(scm.content)] else [])
    {
      hide Covered, BlocksOf, Contents, Pads;
      live := live + {scm};
      if queueLen >= maxLen {
        Free(scm);
        assert live == old(live);
        return;
      }
      ContentsAppend(queue, scm);
      OneBehind(queue, scm);
      hide Elements, Distinct;
      accepted := accepted + [Covered(scm.content)];
      queue := queue + [scm];
      queueLen := queueLen + 1;
      assert Owned() == old(Owned()) + {scm};
    }

    /** Installs a new default message, or none; one that is on air is cut off. */
    method ReplaceDefault(scm: SmscbMsg, isNull: bool)
      requires Valid() && scm !in live && scm.content.Valid()
      modifies this`curMsg, this`defaultMsg, this`live
      ensures Valid()
      ensures curMsg == (if old(curMsg) == old(defaultMsg) then null else old(curMsg))
      ensures defaultMsg == (if isNull then null else scm)
    {
      hide Covered, BlocksOf, Contents;
      live := live + {scm};
      if curMsg != null && curMsg == defaultMsg { curMsg := null; }
      if defaultMsg != null { Free(defaultMsg); }
      if isNull {
        defaultMsg := null;
        Free(scm);
      } else {
        defaultMsg := scm;
      }
      assert live == Owned() + leaked;
    }

    /** A broadcast command from the BSC. */
    method ProcessCmd(cmd: Command, lastBlock: nat, msg: seq<Octet>) returns (ok: bool)
      requires Valid()
      modifies this
      ensures Valid()
      ensures leaked == old(leaked) && inOrder == old(inOrder) && phase == old(phase) && broadcast == old(broadcast)
      ensures ok <==> |msg| <= MSG_LEN && !cmd.Unknown?
      ensures var queued := ok && !cmd.Default? && |old(queue)| < maxLen;
              accepted == old(accepted)
                + (if queued then [Covered(Content(cmd.Schedule?, Padded(msg), NumSegs(lastBlock)))] else [])
      ensures forall nr: nat :: old(GoesOn(nr)) ==> GoesOn(nr)
      ensures !(ok && cmd.Default?) ==> curMsg == old(curMsg) && defaultMsg == old(defaultMsg)
      ensures ok && !cmd.Default? ==>
                if |old(queue)| >= maxLen then queue == old(queue)
                else queue != [] && queue[..|queue| - 1] == old(queue)
                     && queue[|queue| - 1].content == Content(cmd.Schedule?, Padded(msg), NumSegs(lastBlock))
      ensures ok && cmd.Default? ==>
                && queue == old(queue)
                && curMsg == (if old(curMsg) == old(defaultMsg) then null else old(curMsg))
                && (if cmd.isNull then defaultMsg == null
                    else defaultMsg != null
                         && defaultMsg.content == Content(false, Padded(msg), NumSegs(lastBlock)))
    {
      hide Covered, BlocksOf, Contents, Padded;
      if |msg| > MSG_LEN { return false; }
      var scm := new SmscbMsg(Content(cmd.Schedule?, Padded(msg), NumSegs(lastBlock)));
      assert scm !in live;
      match cmd
      case Normal | Schedule | Null =>
        QueueMsg(scm);
        ok := true;
      case Default(isNull) =>
        ReplaceDefault(scm, isNull);
        ok := true;
      case Unknown =>
        live := live + {scm};
        Free(scm);
        assert live == old(live);
        ok := false;
    }

    /** Forgets the message on air; if it is one of its own nobody will free it. */
    method ForgetCurrent()
      requires Sound() && (inOrder ==> leaked == {} && !OnAirNormal() && accepted == broadcast + Contents(queue))
      modifies this`curMsg, this`leaked
      ensures Sound() && curMsg == null
      ensures leaked == old(leaked) + (if old(OnAirNormal()) then {old(curMsg)} else {})
      ensures inOrder ==> leaked == {} && accepted == broadcast + Contents(queue)
    {
      hide Covered, Contents, BlocksOf;
      if OnAirNormal() { leaked := leaked + {curMsg}; }
      curMsg := null;
      assert live == Owned() + leaked;
    }

    /** Picks the message for the next four multiframes. */
    method SelectNext() returns (m: SmscbMsg?)
      requires Sound() && curMsg == null
      modifies this`queue, this`queueLen
      ensures if old(queue) == [] then queue == [] && m == defaultMsg
              else m == old(queue)[0] && queue == old(queue)[1..]
      ensures queueLen == |queue|
    {
      if queue == [] { return defaultMsg; }
      m := queue[0];
      queue := queue[1..];
      queueLen := queueLen - 1;
    }

    /** Puts the next message on air. */
    method StartNext()
      requires Sound() && curMsg == null
      requires inOrder ==> leaked == {} && accepted == broadcast + Contents(queue)
      modifies this`queue, this`queueLen, this`curMsg, this`onAir
      ensures Sound() && (inOrder ==> Sending(0))
      ensures if old(queue) == [] then queue == [] && curMsg == defaultMsg
              else curMsg == old(queue)[0] && queue == old(queue)[1..]
    {
      hide Covered, Contents, Pads, BlockOf, Elements, Distinct;
      QueuedAreLive();
      ghost var q := queue;
      if q != [] {
        HeadAndRest(q);
        HeadOfContents(q);
      }
      onAir := [];
      curMsg := SelectNext();
      assert live == Owned() + leaked;
    }

    /** Frees a message after its last block; what was on air adds up to it. */
    method FinishMessage()
      requires Sound() && OnAirNormal()
      requires inOrder ==> leaked == {} && onAir == BlocksOf(curMsg.content, curMsg.content.numSegs)
                           && accepted == broadcast + [Covered(curMsg.content)] + Contents(queue)
      requires onAir != []
      modifies this`curMsg, this`live, this`broadcast
      ensures Sound() && curMsg == null && broadcast == old(broadcast) + [Reassemble(onAir)]
      ensures inOrder ==> accepted == broadcast + Contents(queue)
    {
      BlocksReassemble(curMsg.content);
      hide Reassemble, Covered, Contents, BlocksOf;
      broadcast := broadcast + [Reassemble(onAir)];
      Free(curMsg);
      curMsg := null;
      assert live == Owned() + leaked;
    }

    /** The block of the current message for one multiframe; a message of its own is freed
        with its last block. */
    method GetBlock(nr: nat) returns (b: Block)
      requires nr < 4 && Sound() && (inOrder ==> Sending(nr))
      modifies this`curMsg, this`live, this`onAir, this`broadcast, this`phase
      ensures Valid() && phase == (nr + 1) % 4
      ensures b == if old(curMsg) == null then NullBlock() else BlockOf(old(curMsg).content, nr)
      ensures onAir == old(onAir) + [b]
      ensures if old(OnAirNormal()) && b.lb then curMsg == null && broadcast == old(broadcast) + [Reassemble(onAir)]
              else curMsg == old(curMsg) && broadcast == old(broadcast)
    {
      hide NullBlock, Pads, Covered, Contents, BlocksOf, Reassemble;
      assert curMsg != null ==> curMsg in live && curMsg.content.Valid();
      hide Owned;
      var m := curMsg;
      phase := (nr + 1) % 4;
      if m == null || nr >= m.content.numSegs {
        b := NullBlock();
        onAir := onAir + [b];
        return;
      }
      b := BlockOf(m.content, nr);
      LastBlock(m.content, nr);
      hide BlockOf;
      onAir := onAir + [b];
      if b.lb && m != defaultMsg {
        FinishMessage();
      }
    }

    /** The hardware asks for the block of multiframe tb. */
    method CbchGet(tb: nat) returns (b: Block)
      requires Valid()
      modifies this
      ensures Valid()
      ensures phase == (tb % 4 + 1) % 4 && inOrder == (old(inOrder) && (tb % 4 == old(phase) || !old(OnAirNormal())))
      ensures leaked == old(leaked) + (if tb % 4 == 0 && old(OnAirNormal()) then {old(curMsg)} else {})
      ensures old(GoesOn(tb % 4)) ==> GoesOn((tb % 4 + 1) % 4) && leaked == {}
      ensures accepted == old(accepted)
      ensures tb % 4 != 0 ==> b == if old(curMsg) == null then NullBlock() else BlockOf(old(curMsg).content, tb % 4)
      ensures tb % 4 == 0 ==>
                b == if old(queue) != [] then BlockOf(old(queue)[0].content, 0)
                     else if old(defaultMsg) == null then NullBlock() else BlockOf(old(defaultMsg).content, 0)
      ensures defaultMsg == old(defaultMsg)
      ensures var next := if tb % 4 != 0 then old(curMsg) else if old(queue) != [] then old(queue)[0] else defaultMsg;
              && curMsg == (if next != null && next != defaultMsg && b.lb then null else next)
              && queue == if tb % 4 == 0 && old(queue) != [] then old(queue)[1..] else old(queue)
      // On air: the number of the block, whether it is the last, and its part of the message.
      ensures var next := if tb % 4 != 0 then old(curMsg) else if old(queue) != [] then old(queue)[0] else defaultMsg;
              OnAirAs(b, if next == null then None else Some(next.content), tb % 4)
    {
      hide Covered, BlocksOf, Contents, BlockOf, Reassemble, NullBlock, Pads, Owned, Sound;
      hide OnAirAs;
      var nr := tb % 4;
      AllAreValid();
      NullFields(nr);
      ghost var next := if nr != 0 then curMsg else if queue != [] then queue[0] else defaultMsg;
      if next != null { BlockFields(next.content, nr); }
      inOrder := inOrder && (nr == phase || !OnAirNormal());
      if nr == 0 {
        ForgetCurrent();
        StartNext();
      }
      b := GetBlock(nr);
    }

    lemma QueuedAreLive()
      requires Sound()
      ensures forall m :: m in queue ==> m in live && m.content.Valid()
    {
    }

    lemma AllAreValid()
      requires Valid()
      ensures forall m :: m in queue ==> m.content.Valid()
      ensures (curMsg != null ==> curMsg.content.Valid()) && (defaultMsg != null ==> defaultMsg.content.Valid())
    {
    }

    lemma NoLeak(nr: nat)
      requires Valid() && GoesOn(nr)
      ensures leaked == {}
    {
    }

    /** Frees the queued messages. */
    method FreeQueue()
      requires Sound()
      modifies this`queue, this`queueLen, this`live
      ensures Sound() && queue == []
    {
      while queue != []
        invariant Distinct(queue)
        invariant (curMsg != null ==> curMsg !in queue) && (defaultMsg != null ==> defaultMsg !in queue)
        invariant live == Owned() + leaked && leaked !! Owned()
        invariant forall m :: m in live ==> m.content.Valid()
        decreases |queue|
      {
        var m := queue[0];
        HeadAndRest(queue);
        Free(m);
        queue := queue[1..];
        assert live == Owned() + leaked;
      }
      queueLen := 0;
    }

    /** Frees the message on air and the default one, once if they are the same. */
    method FreeCurrent()
      requires Sound() && queue == []
      modifies this`curMsg, this`defaultMsg, this`live
      ensures Sound() && curMsg == null && defaultMsg == null && live == leaked
    {
      if curMsg != null && curMsg != defaultMsg { Free(curMsg); }
      curMsg := null;
      if defaultMsg != null { Free(defaultMsg); }
      defaultMsg := null;
      assert live == Owned() + leaked;
    }

    /** Frees everything that is still reachable. */
    method Reset()
      requires Valid()
      modifies this
      ensures Valid() && queue == [] && curMsg == null && defaultMsg == null && live == leaked == old(leaked)
    {
      hide Covered, BlocksOf, BlockOf, NullBlock, Pads, Reassemble, Sound, Owned;
      FreeQueue();
      FreeCurrent();
      accepted, broadcast, phase, onAir, inOrder := [], [], 0, [], leaked == {};
    }
  }

  /** The multiframe that a frame lies in, in the cycle of eight. */
  function TbOf(fn: nat): (tb: nat)
    ensures tb < 8
  {
    fn / 51 % 8
  }

  /** A multiframe has 51 frames. */
  lemma {:induction false} TbOfFrame(k: nat, i: nat)
    requires i < 51
    ensures TbOf(51 * k + i) == k % 8
  {
  }

  /** The block number a channel is at when multiframe tb is about to be served: the basic one
      has the first four multiframes of the cycle, the extended one the others. */
  function PhaseAt(tb: nat, extended: bool): (p: nat)
    requires tb < 8
    ensures p < 4
  {
    if (tb >= 4) == extended then tb % 4 else 0
  }

  /** Both channels of a cell. */
  class Broadcaster {
    const basic: CbchState
    const extended: CbchState

    ghost predicate Valid()
      reads this, basic, extended
    {
      basic != extended && basic.Valid() && extended.Valid()
    }

    /** Whatever is on air of its own goes on with multiframe tb, the next one to be served. */
    ghost predicate InStep(tb: nat)
      requires tb < 8
      reads this, basic, extended
    {
      basic.GoesOn(PhaseAt(tb, false)) && extended.GoesOn(PhaseAt(tb, true))
    }

    constructor (maxLen: nat)
      ensures Valid() && fresh(basic) && fresh(extended)
      ensures !basic.OnAirNormal() && !extended.OnAirNormal()
      ensures forall tb: nat :: tb < 8 ==> InStep(tb)
    {
      basic := new CbchState(maxLen);
      extended := new CbchState(maxLen);
    }

    /** The block of a frame: by its multiframe from the one channel or from the other.  From
        whatever multiframe a cell starts with: as long as none is missed after that, neither
        channel ever leaks a message. */
    method Get(fn: nat) returns (b: Block)
      requires Valid()
      modifies basic, extended
      ensures Valid()
      ensures TbOf(fn) < 4 ==> unchanged(extended)
      ensures TbOf(fn) >= 4 ==> unchanged(basic)
      ensures old(InStep(TbOf(fn))) ==> InStep((TbOf(fn) + 1) % 8)
      ensures old(InStep(TbOf(fn))) ==> basic.leaked == {} && extended.leaked == {}
    {
      var tb := TbOf(fn);
      hide TbOf, BlockOf, NullBlock, CbchState.GoesOn, CbchState.OnAirNormal, CbchState.Sound, CbchState.Sending,
           CbchState.Owned;
      if InStep(tb) {
        basic.NoLeak(PhaseAt(tb, false));
        extended.NoLeak(PhaseAt(tb, true));
      }
      hide CbchState.Valid;
      if tb < 4 {
        b := basic.CbchGet(tb);
      } else {
        b := extended.CbchGet(tb);
      }
    }
  }

  /** A missed cycle leaks: a message of four blocks, its first multiframe, and then the first
      one of the next cycle. */
  method MissedCycleLeaks() returns (c: CbchState)
    ensures fresh(c) && c.leaked != {}
  {
    assert NumSegs(4) == 4;
    hide Pads, Padded, Covered, Contents, BlocksOf, BlockOf, NullBlock, Reassemble, NumSegs, CbchState.Valid,
         CbchState.Sound, CbchState.Sending, CbchState.Owned, CbchState.GoesOn;
    c := new CbchState(1);
    var ok := c.ProcessCmd(Normal, 4, []);
    ghost var content := c.queue[0].content;
    c.AllAreValid();
    LastBlock(content, 0);
    var b := c.CbchGet(0);
    assert b == BlockOf(content, 0);
    assert c.OnAirNormal();
    b := c.CbchGet(0);
  }

  lemma LastBlock(c: Content, nr: nat)
    requires c.Valid() && nr < c.numSegs
    ensures BlocksOf(c, nr + 1) == BlocksOf(c, nr) + [BlockOf(c, nr)]
    ensures BlockOf(c, nr).lb <==> nr + 1 == c.numSegs
  {
  }
}
