/** The ETWS primary notification that paging blocks carry page by page, over and over,
    while one is active (section 10.5.2.23 of 3GPP TS 44.018). */
module EtwsPages {
  import opened Basics
  import opened PagingMessage

  /** What fits into the rest octets of a type 1 message without identities. */
  const PAGE_SIZE: nat := 14

  function PageCount(len: nat): (n: nat)
    ensures n == 0 <==> len == 0
    ensures n > 0 ==> PAGE_SIZE * (n - 1) < len <= PAGE_SIZE * n
  {
    len / PAGE_SIZE + (if len % PAGE_SIZE != 0 then 1 else 0)
  }

  /** Page k; the last one may be shorter. */
  function PageAt(notif: seq<Octet>, k: nat): (p: seq<Octet>)
    requires k < PageCount(|notif|)
    ensures 0 < |p| <= PAGE_SIZE
  {
    var offset := PAGE_SIZE * k;
    if k < PageCount(|notif|) - 1 then notif[offset..offset + PAGE_SIZE] else notif[offset..]
  }

  /** The rest octets with page k: the first page tells how many there are, the others
      which one they are. */
  function PageRest(notif: seq<Octet>, k: nat): (p: P1)
    requires k < PageCount(|notif|)
    ensures |P1Bits(p)| == 24 + 8 * |PageAt(notif, k)|
  {
    var nr := if k == 0 then PageCount(|notif|) else k + 1;
    P1(None, false, false, Some(Rel8(false, Some(Etws(k == 0, nr, PageAt(notif, k))))))
  }

  function PageAfter(k: nat, n: nat): (r: nat)
    requires k < n
    ensures r < n
  {
    if k + 1 == n then 0 else k + 1
  }

  lemma ModIsPageAfter(k: nat, n: nat)
    requires k < n
    ensures (k + 1) % n == PageAfter(k, n)
  {
  }

  class EtwsState {
    var notif: seq<Octet>     // empty while there is none
    var numPages: nat
    var nextPage: nat
    var pni: bool             // toggled to tell a new notification from the one before

    ghost predicate Valid()
      reads this
    {
      numPages == PageCount(|notif|) && (notif == [] ==> nextPage == 0)
    }

    /** There is a notification and its next page exists. */
    ghost predicate Ready()
      reads this
    {
      Valid() && nextPage < numPages
    }

    constructor ()
      ensures Valid() && notif == []
    {
      notif, numPages, nextPage, pni := [], 0, 0, false;
    }

    /** A notification from the BSC, an empty one to end it. The next page is not reset by
        a notification that replaces another one. */
    method Command(n: seq<Octet>)
      requires Valid()
      modifies this
      ensures Valid() && notif == n && pni == (old(pni) != (n != []))
      ensures n != [] ==> (Ready() <==> old(nextPage) < PageCount(|n|))
      ensures old(notif) == [] && n != [] ==> Ready() && nextPage == 0
    {
      notif := n;
      if n == [] {
        numPages, nextPage := 0, 0;
      } else {
        numPages := |n| / PAGE_SIZE;
        if |n| % PAGE_SIZE != 0 { numPages := numPages + 1; }
        pni := !pni;
      }
    }

    method BuildP1() returns (p: P1)
      requires Ready()
      modifies this`nextPage
      ensures Ready() && p == PageRest(notif, old(nextPage))
      ensures nextPage == PageAfter(old(nextPage), numPages)
    {
      hide P1Bits, PageCount;
      var offset := PAGE_SIZE * nextPage;
      var isFirst := nextPage == 0;
      var nr := if nextPage == 0 then numPages else nextPage + 1;
      var bytes := if nextPage < numPages - 1 then PAGE_SIZE else |notif| - offset;
      p := P1(None, false, false, Some(Rel8(false, Some(Etws(isFirst, nr, notif[offset..offset + bytes])))));
      assert offset + bytes == |notif| ==> notif[offset..offset + bytes] == notif[offset..];
      ModIsPageAfter(nextPage, numPages);
      nextPage := (nextPage + 1) % numPages;
    }
  }

  /** A run into a page that does not exist: of a notification with three pages one is sent,
      and the one that replaces it has a single page. */
  method ShorterNotificationIsNotReady() returns (s: EtwsState)
    ensures fresh(s) && s.Valid() && |s.notif| == 14 && !s.Ready()
  {
    s := new EtwsState();
    s.Command(seq(30, i => 1));
    assert PageCount(30) == 3 && PageCount(14) == 1;
    var p := s.BuildP1();
    s.Command(seq(14, i => 2));
  }

  /** The pages that calls in a row send, starting with page k. */
  function PagesFrom(k: nat, n: nat, calls: nat): (s: seq<nat>)
    requires k < n
    ensures |s| == calls
    decreases calls
  {
    if calls == 0 then [] else [k] + PagesFrom(PageAfter(k, n), n, calls - 1)
  }

  lemma {:induction false} PageOfCall(k: nat, n: nat, calls: nat, i: nat)
    requires k < n && i < calls <= n
    ensures PagesFrom(k, n, calls)[i] == if k + i < n then k + i else k + i - n
    decreases calls
  {
    if i > 0 { PageOfCall(PageAfter(k, n), n, calls - 1, i - 1); }
  }

  /** Any n calls in a row send every one of the n pages exactly once. */
  lemma {:induction false} EveryPageOncePerCycle(k: nat, n: nat, page: nat, i: nat)
    requires k < n && page < n && i < n
    ensures PagesFrom(k, n, n)[i] == page <==> i == (if page >= k then page - k else page + n - k)
  {
    PageOfCall(k, n, n, i);
  }

  function Joined(notif: seq<Octet>, k: nat): (s: seq<Octet>)
    requires k <= PageCount(|notif|)
  {
    if k == 0 then [] else Joined(notif, k - 1) + PageAt(notif, k - 1)
  }

  lemma {:induction false} JoinedIsPrefix(notif: seq<Octet>, k: nat)
    requires k <= PageCount(|notif|)
    ensures Joined(notif, k) == if k < PageCount(|notif|) then notif[..PAGE_SIZE * k] else notif
  {
    if k == 0 {
    } else {
      JoinedIsPrefix(notif, k - 1);
      if k < PageCount(|notif|) {
        assert notif[..PAGE_SIZE * k] == notif[..PAGE_SIZE * (k - 1)] + PageAt(notif, k - 1);
      } else {
        assert notif == notif[..PAGE_SIZE * (k - 1)] + PageAt(notif, k - 1);
      }
    }
  }

  /** The pages put together are the notification. */
  lemma {:induction false} PagesReassemble(notif: seq<Octet>)
    ensures Joined(notif, PageCount(|notif|)) == notif
  {
    JoinedIsPrefix(notif, PageCount(|notif|));
  }
}
