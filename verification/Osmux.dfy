/** Osmux resources: the pool of circuit IDs, and the handles shared by all channels that
    send to the same remote address. */
module Osmux {

  import opened Basics

  const OCTETS: nat := 32

  // ----- Circuit IDs ---------------------------------------------------------------------

  /** The circuit IDs that a search starting at start looks at.  The second coordinate of
      the start is kept as the first bit of every later octet, so this is not all of them. */
  predicate Scanned(start: Octet, cid: int) {
    0 <= cid < 256 && ScannedAt(start / 8, start % 8, cid / 8, cid % 8)
  }

  predicate ScannedAt(startI: int, startJ: int, i: int, j: int) {
    (i >= startI && j >= startJ) || (i <= startI && j < startJ)
  }

  class CidPool {
    const used: array2<bool>       // [octet, bit]
    var lookup: Octet

    predicate Valid()
    {
      used.Length0 == OCTETS && used.Length1 == 8
    }

    /** The circuit IDs handed out and not put back. */
    ghost function Outstanding(): set<int>
      requires Valid()
      reads used
    {
      set c | 0 <= c < 256 && used[c / 8, c % 8]
    }

    constructor ()
      ensures Valid() && Outstanding() == {} && lookup == 0 && fresh(used)
    {
      used := new bool[OCTETS, 8]((_, _) => false);
      lookup := 0;
    }

    method Take(i: nat, j: nat) returns (cid: Octet)
      requires Valid() && i < OCTETS && j < 8 && !used[i, j]
      modifies this`lookup, used
      ensures cid == 8 * i + j && cid !in old(Outstanding())
      ensures Outstanding() == old(Outstanding()) + {cid} && lookup == (cid + 1) % 256
    {
      used[i, j] := true;
      cid := 8 * i + j;
      lookup := if cid == 255 then 0 else cid + 1;
    }

    method TakeScanned(i: nat, j: nat) returns (cid: int)
      requires Valid() && i < OCTETS && j < 8 && !used[i, j] && ScannedAt(lookup / 8, lookup % 8, i, j)
      modifies this`lookup, used
      ensures 0 <= cid < 256 && Scanned(old(lookup), cid) && cid !in old(Outstanding())
      ensures Outstanding() == old(Outstanding()) + {cid} && lookup == (cid + 1) % 256
    {
      assert (8 * i + j) / 8 == i && (8 * i + j) % 8 == j;
      cid := Take(i, j);
    }

    /** Reserves a free circuit ID; -1 if none of those it looks at is free. */
    method GetLocalCid() returns (cid: int)
      requires Valid()
      modifies this`lookup, used
      ensures cid == -1 <==> forall c :: Scanned(old(lookup), c) ==> c in old(Outstanding())
      ensures cid == -1 ==> Outstanding() == old(Outstanding()) && lookup == old(lookup)
      ensures cid != -1 ==>
                && 0 <= cid < 256 && Scanned(old(lookup), cid) && cid !in old(Outstanding())
                && Outstanding() == old(Outstanding()) + {cid} && lookup == (cid + 1) % 256
    {
      var startI, startJ := lookup / 8, lookup % 8;
      for i := startI to OCTETS
        invariant forall a, b :: startI <= a < i && startJ <= b < 8 ==> used[a, b]
      {
        for j := startJ to 8
          invariant forall a, b :: startI <= a < i && startJ <= b < 8 ==> used[a, b]
          invariant forall b :: startJ <= b < j ==> used[i, b]
        {
          if used[i, j] { continue; }
          cid := TakeScanned(i, j);
          return;
        }
      }
      for i := 0 to startI + 1
        invariant forall a, b :: startI <= a < OCTETS && startJ <= b < 8 ==> used[a, b]
        invariant forall a, b :: 0 <= a < i && 0 <= b < startJ ==> used[a, b]
      {
        for j := 0 to startJ
          invariant forall a, b :: startI <= a < OCTETS && startJ <= b < 8 ==> used[a, b]
          invariant forall a, b :: 0 <= a < i && 0 <= b < startJ ==> used[a, b]
          invariant forall b :: 0 <= b < j ==> used[i, b]
        {
          if used[i, j] { continue; }
          cid := TakeScanned(i, j);
          return;
        }
      }
      return -1;
    }

    method PutLocalCid(cid: Octet)
      requires Valid()
      modifies used
      ensures Outstanding() == old(Outstanding()) - {cid}
    {
      used[cid / 8, cid % 8] := false;
    }
  }

  /** Failure means exhaustion only for searches that start at circuit 0: from any other
      start some circuit is never looked at. */
  lemma {:induction false} EverythingScannedOnlyFromZero(start: Octet)
    ensures (forall c :: 0 <= c < 256 ==> Scanned(start, c)) <==> start == 0
  {
    if start != 0 {
      var missed := if start / 8 > 0 then start % 8 else 8;
      assert !Scanned(start, missed);
    }
  }

  ghost predicate AllTaken(start: Octet, out: set<int>) {
    forall c :: Scanned(start, c) ==> c in out
  }

  ghost predicate Exhausted(out: set<int>) {
    forall c :: 0 <= c < 256 ==> c in out
  }

  /** So the search reports failure with circuits still free for some pool, unless it
      starts at circuit 0. */
  lemma {:induction false} FailureIsExhaustionExactlyWhen(start: Octet)
    ensures (forall out: set<int> :: AllTaken(start, out) ==> Exhausted(out)) <==> start == 0
  {
    EverythingScannedOnlyFromZero(start);
    if start != 0 {
      var out := set c | 0 <= c < 256 && Scanned(start, c);
      var missed :| 0 <= missed < 256 && !Scanned(start, missed);
      assert AllTaken(start, out) && missed !in out;
      assert !Exhausted(out);
    }
  }

  // ----- Handles ---------------------------------------------------------------------------

  class Handle {
    const addr: nat
    var refcnt: nat

    constructor (addr: nat)
      ensures this.addr == addr && refcnt == 1
    {
      this.addr := addr;
      refcnt := 1;
    }
  }

  predicate DistinctAddrs(handles: seq<Handle>) {
    forall i, j :: 0 <= i < j < |handles| ==> handles[i].addr != handles[j].addr
  }

  lemma OneMore(handles: seq<Handle>, h: Handle)
    requires DistinctAddrs(handles) && forall g :: g in handles ==> g.addr != h.addr
    ensures DistinctAddrs([h] + handles)
  {
  }

  /** Channels that use a handle. */
  function Users(conn: map<nat, Handle>, h: Handle): (s: set<nat>) {
    set l | l in conn && conn[l] == h
  }

  lemma {:induction false} UsersAdd(conn: map<nat, Handle>, l: nat, h: Handle, g: Handle)
    requires l !in conn
    ensures |Users(conn[l := h], g)| == |Users(conn, g)| + (if g == h then 1 else 0)
  {
    assert Users(conn[l := h], g) == Users(conn, g) + (if g == h then {l} else {});
  }

  lemma {:induction false} UsersRemove(conn: map<nat, Handle>, l: nat, g: Handle)
    requires l in conn
    ensures |Users(conn - {l}, g)| + (if g == conn[l] then 1 else 0) == |Users(conn, g)|
    ensures Users(conn, g) == Users(conn - {l}, g) + (if g == conn[l] then {l} else {})
  {
    assert Users(conn, g) == Users(conn - {l}, g) + (if g == conn[l] then {l} else {});
  }

  /** Without users no channel is connected to a handle. */
  lemma UsersOf(conn: map<nat, Handle>, h: Handle)
    ensures |Users(conn, h)| == 0 ==> Users(conn, h) == {} && forall l :: l in conn ==> conn[l] != h
  {
    forall l | l in conn && conn[l] == h
      ensures l in Users(conn, h) && |Users(conn, h)| > 0
    {
      assert l in Users(conn, h);
    }
  }

  lemma NoUsers(conn: map<nat, Handle>, h: Handle)
    requires forall l :: l in conn ==> conn[l] != h
    ensures Users(conn, h) == {}
  {
  }

  class OsmuxState {
    var handles: seq<Handle>
    var conn: map<nat, Handle>     // lchan -> its input handle, for connected lchans

    /** Remote addresses are distinct and every handle counts exactly the channels using
        it; a handle without users is not in the list. */
    ghost predicate Valid()
      reads this, handles
    {
      && DistinctAddrs(handles)
      && (forall h :: h in handles ==> h.refcnt == |Users(conn, h)| > 0)
      && (forall l :: l in conn ==> conn[l] in handles)
    }

    constructor ()
      ensures Valid() && handles == [] && conn == map[]
    {
      handles, conn := [], map[];
    }

    /** Takes a reference on the handle for an address, if there is one. */
    method FindGet(addr: nat) returns (h: Handle?)
      modifies handles
      ensures h == null ==> (forall g :: g in handles ==> g.addr != addr && g.refcnt == old(g.refcnt))
      ensures h != null ==> h in handles && h.addr == addr && h.refcnt == old(h.refcnt) + 1
      ensures h != null ==> forall g :: g in handles && g != h ==> g.refcnt == old(g.refcnt)
    {
      for i := 0 to |handles|
        invariant forall k :: 0 <= k < i ==> handles[k].addr != addr
        invariant forall g :: g in handles ==> g.refcnt == old(g.refcnt)
      {
        if handles[i].addr == addr {
          handles[i].refcnt := handles[i].refcnt + 1;
          return handles[i];
        }
      }
      return null;
    }

    /** Drops a reference and frees the handle with the last one. */
    method Put(h: Handle)
      requires h in handles && h.refcnt > 0
      requires DistinctAddrs(handles)
      modifies this`handles, h
      ensures h.refcnt == old(h.refcnt) - 1
      ensures DistinctAddrs(handles)
      ensures forall g :: g in handles <==> g in old(handles) && (g == h ==> h.refcnt > 0)
      ensures h.refcnt > 0 ==> handles == old(handles)
    {
      for i := 0 to |handles|
        invariant handles == old(handles) && h.refcnt == old(h.refcnt)
        invariant h in handles[i..]
      {
        if handles[i] == h {
          h.refcnt := h.refcnt - 1;
          if h.refcnt == 0 {
            ghost var all := handles;
            handles := handles[..i] + handles[i + 1..];
            assert forall g :: g in all ==> g == h || g in handles[..i] || g in all[i + 1..] || g in handles;
          }
          return;
        }
      }
    }

    /** Connects a channel; circuitOk tells whether the Osmux circuit could be opened. */
    method Connect(l: nat, addr: nat, circuitOk: bool) returns (ok: bool)
      requires Valid() && l !in conn
      modifies this, handles
      ensures Valid() && ok == circuitOk
      ensures ok ==> l in conn && conn[l].addr == addr && conn - {l} == old(conn)
      ensures !ok ==> conn == old(conn)
      ensures forall h :: h in old(handles) ==> h in handles
      ensures forall h :: h in handles && h !in old(handles) ==> ok && h.addr == addr
    {
      hide Users, DistinctAddrs;
      var h := FindGet(addr);
      if h == null {
        h := new Handle(addr);
        OneMore(handles, h);
        handles := [h] + handles;
        NoUsers(conn, h);
      }
      if !circuitOk {
        Put(h);
        return false;
      }
      forall g: Handle | g in handles
        ensures |Users(conn[l := h], g)| == |Users(conn, g)| + (if g == h then 1 else 0)
      {
        UsersAdd(conn, l, h, g);
      }
      conn := conn[l := h];
      return true;
    }

    /** Releases a channel; the handle is freed with its last user. */
    method Release(l: nat)
      requires Valid()
      modifies this, handles
      ensures Valid() && conn == old(conn) - {l}
      ensures forall h :: h in handles ==> h in old(handles)
      ensures forall h :: h in old(handles) && h !in handles ==> l in old(conn) && old(Users(conn, h)) == {l}
    {
      if l !in conn {
        assert conn - {l} == conn;
        return;
      }
      var h := conn[l];
      forall g: Handle | g in handles
        ensures |Users(conn - {l}, g)| + (if g == h then 1 else 0) == |Users(conn, g)|
      {
        UsersRemove(conn, l, g);
      }
      UsersOf(conn - {l}, h);
      hide Users, DistinctAddrs;
      Put(h);
      conn := conn - {l};
    }
  }

  // ----- Channels --------------------------------------------------------------------------

  function HeldBy(m: map<nat, Octet>): (s: set<int>) {
    set l | l in m :: m[l] as int
  }

  predicate Injective(m: map<nat, Octet>) {
    forall k, l :: k in m && l in m && k != l ==> m[k] != m[l]
  }

  lemma {:induction false} HeldAdd(m: map<nat, Octet>, l: nat, cid: Octet)
    requires l !in m
    ensures HeldBy(m[l := cid]) == HeldBy(m) + {cid as int}
    ensures Injective(m) && cid as int !in HeldBy(m) ==> Injective(m[l := cid])
  {
    var n := m[l := cid];
    assert forall k :: k in m ==> n[k] == m[k] && m[k] as int in HeldBy(m);
    assert n[l] == cid;
    forall c | c in HeldBy(m)
      ensures c in HeldBy(n)
    {
      var k :| k in m && m[k] as int == c;
      assert n[k] as int == c;
    }
  }

  lemma {:induction false} HeldRemove(m: map<nat, Octet>, l: nat)
    requires l in m && Injective(m)
    ensures HeldBy(m - {l}) == HeldBy(m) - {m[l] as int} && Injective(m - {l})
  {
    var n := m - {l};
    forall c | c in HeldBy(m) && c != m[l] as int
      ensures c in HeldBy(n)
    {
      var k :| k in m && m[k] as int == c;
      assert k in n && n[k] == m[k];
    }
  }

  /** The channels of a base station: each one in use holds a circuit ID, and a handle
      while it is connected. */
  class Channels {
    const pool: CidPool
    const osmux: OsmuxState
    var localCid: map<nat, Octet>
    ghost var stranded: set<int>      // reserved, but held by no channel

    /** The bit map is exactly the circuit IDs held, each by one channel, and those stranded. */
    ghost predicate Valid()
      reads this, pool, pool.used, osmux, osmux.handles
    {
      && pool.Valid() && osmux.Valid()
      && pool.Outstanding() == HeldBy(localCid) + stranded && HeldBy(localCid) !! stranded
      && Injective(localCid)
      && (forall l :: l in osmux.conn ==> l in localCid)
    }

    constructor ()
      ensures Valid() && localCid == map[] && stranded == {} && osmux.conn == map[]
    {
      pool := new CidPool();
      osmux := new OsmuxState();
      localCid := map[];
      stranded := {};
    }

    /** Sets a channel up.  A local address that does not parse is noticed only after the
        circuit ID was reserved, and the code does not put it back then. */
    method Init(l: nat, addrOk: bool) returns (ok: bool)
      requires Valid() && l !in localCid
      modifies this, pool, pool.used
      ensures Valid()
      ensures ok <==> addrOk && !AllTaken(old(pool.lookup), old(pool.Outstanding()))
      ensures ok ==> l in localCid && localCid[l] !in old(pool.Outstanding()) && localCid - {l} == old(localCid)
      ensures !ok ==> localCid == old(localCid)
      ensures addrOk || AllTaken(old(pool.lookup), old(pool.Outstanding())) ==> stranded == old(stranded)
      ensures !addrOk && !AllTaken(old(pool.lookup), old(pool.Outstanding())) ==>
        exists c :: Scanned(old(pool.lookup), c) && c !in old(pool.Outstanding()) && stranded == old(stranded) + {c}
      ensures pool.Outstanding() == old(pool.Outstanding())
        + (if ok then {localCid[l] as int} else stranded - old(stranded))
    {
      var cid := pool.GetLocalCid();
      if cid < 0 { return false; }
      if !addrOk {
        stranded := stranded + {cid};
        return false;
      }
      HeldAdd(localCid, l, cid);
      localCid := localCid[l := cid];
      assert localCid - {l} == old(localCid);
      return true;
    }

    method Connect(l: nat, addr: nat, circuitOk: bool) returns (ok: bool)
      requires Valid() && l in localCid && l !in osmux.conn
      modifies osmux, osmux.handles
      ensures Valid() && ok == circuitOk
      ensures ok ==> l in osmux.conn && osmux.conn[l].addr == addr && osmux.conn - {l} == old(osmux.conn)
      ensures !ok ==> osmux.conn == old(osmux.conn)
    {
      ok := osmux.Connect(l, addr, circuitOk);
      assert forall k :: k in osmux.conn ==> k == l || k in old(osmux.conn) by {
        assert forall k :: k in osmux.conn && k != l ==> k in osmux.conn - {l};
      }
    }

    /** Releases a channel in use: its circuit ID becomes free, and its handle goes if no
        other channel uses it. */
    method Release(l: nat)
      requires Valid() && l in localCid
      modifies this, pool.used, osmux, osmux.handles
      ensures Valid()
      ensures localCid == old(localCid) - {l} && osmux.conn == old(osmux.conn) - {l} && stranded == old(stranded)
      ensures pool.Outstanding() == old(pool.Outstanding()) - {old(localCid)[l] as int}
    {
      HeldRemove(localCid, l);
      pool.PutLocalCid(localCid[l]);
      osmux.Release(l);
      localCid := localCid - {l};
    }
  }
}
