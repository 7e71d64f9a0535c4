/** Address history, newest first, and the cursor a client follows through it. */
module Paging {
  import opened Rows
  import opened Ledger
  import opened Coins
  import opened Overlay

  datatype Ref = Ref(txid: Hash, height: nat)

  /** The transactions that touched `mine`: once for the block that created a coin, once for the block that spent it. */
  function Touched(rows: Outputs, mine: Owner): set<Ref> {
    (set o | o in rows && mine(rows[o].coin.address) && o.kind == KIND_REGULAR :: Ref(o.source, rows[o].height))
    + (set o | o in rows && mine(rows[o].coin.address) && rows[o].spent.Some? ::
         Ref(rows[o].spent.value.source, rows[o].spent.value.height))
  }

  // ----- Order: height descending, then id as bytes

  predicate BytesBefore(a: seq<byte>, b: seq<byte>) {
    if a == [] then b != []
    else if b == [] then false
    else a[0] < b[0] || (a[0] == b[0] && BytesBefore(a[1..], b[1..]))
  }

  predicate Before(a: Ref, b: Ref) {
    a.height > b.height || (a.height == b.height && BytesBefore(a.txid, b.txid))
  }

  lemma {:induction false} BytesTotal(a: seq<byte>, b: seq<byte>)
    ensures a == b || BytesBefore(a, b) || BytesBefore(b, a)
    ensures !(BytesBefore(a, b) && BytesBefore(b, a)) && !BytesBefore(a, a)
    decreases |a|
  {
    if a == [] {
    } else {
      BytesTotal(a[1..], a[1..]);
      if b != [] {
        BytesTotal(a[1..], b[1..]);
        assert a == [a[0]] + a[1..] && b == [b[0]] + b[1..];
      }
    }
  }

  lemma {:induction false} BytesTransitive(a: seq<byte>, b: seq<byte>, c: seq<byte>)
    requires BytesBefore(a, b) && BytesBefore(b, c)
    ensures BytesBefore(a, c)
    decreases |a|
  {
    if a != [] && a[0] == b[0] == c[0] {
      BytesTransitive(a[1..], b[1..], c[1..]);
    }
  }

  lemma BeforeTotal(a: Ref, b: Ref)
    ensures a == b || Before(a, b) || Before(b, a)
    ensures !(Before(a, b) && Before(b, a)) && !Before(a, a)
  {
    BytesTotal(a.txid, b.txid);
    BytesTotal(a.txid, a.txid);
  }

  lemma BeforeTransitive(a: Ref, b: Ref, c: Ref)
    requires Before(a, b) && Before(b, c)
    ensures Before(a, c)
  {
    if a.height == c.height {
      BytesTransitive(a.txid, b.txid, c.txid);
    }
  }

  ghost predicate Ordered(list: seq<Ref>) {
    forall i, j | 0 <= i < j < |list| :: Before(list[i], list[j])
  }

  /** `list` is the ordered history of exactly these references, each once. */
  ghost predicate IsHistory(list: seq<Ref>, refs: set<Ref>) {
    Ordered(list) && forall r :: r in list <==> r in refs
  }

  function Inserted(list: seq<Ref>, r: Ref): seq<Ref> {
    if list == [] then [r]
    else if Before(r, list[0]) then [r] + list
    else [list[0]] + Inserted(list[1..], r)
  }

  lemma {:induction false} InsertOrdered(list: seq<Ref>, r: Ref)
    requires Ordered(list) && r !in list
    ensures Ordered(Inserted(list, r))
    ensures forall q :: q in Inserted(list, r) <==> q in list || q == r
    decreases |list|
  {
    if list == [] {
    } else {
      BeforeTotal(r, list[0]);
      if Before(r, list[0]) {
        forall j | 0 < j < |list|
          ensures Before(r, list[j])
        {
          BeforeTransitive(r, list[0], list[j]);
        }
      } else {
        InsertOrdered(list[1..], r);
        var rest := Inserted(list[1..], r);
        assert list == [list[0]] + list[1..];
        forall j | 0 <= j < |rest|
          ensures Before(list[0], rest[j])
        {
          assert rest[j] in rest;
        }
      }
    }
  }

  /** Lists a set of references in order. */
  method SortRefs(refs: set<Ref>) returns (list: seq<Ref>)
    ensures IsHistory(list, refs)
  {
    list := [];
    var todo := refs;
    while todo != {}
      invariant todo <= refs && Ordered(list) && forall r :: r in list <==> r in refs && r !in todo
      decreases |todo|
    {
      var r :| r in todo;
      InsertOrdered(list, r);
      list, todo := Inserted(list, r), todo - {r};
    }
  }

  // ----- One page

  const PAGE_SIZE: nat := 25

  /** How many references of the list lie above the bound. */
  function Skip(list: seq<Ref>, bound: nat): (n: nat)
    ensures n <= |list|
    ensures forall i | 0 <= i < n :: list[i].height > bound
    ensures n < |list| ==> list[n].height <= bound
  {
    if list == [] || list[0].height <= bound then 0 else
      assert forall i | 0 < i < |list| :: list[i] == list[1..][i - 1];
      1 + Skip(list[1..], bound)
  }

  function Min(a: nat, b: nat): nat {
    if a <= b then a else b
  }

  function Page(list: seq<Ref>, bound: nat): seq<Ref> {
    var i := Skip(list, bound);
    list[i..Min(i + PAGE_SIZE, |list|)]
  }

  /** Two ordered lists of one set are the same list, so every query pages through one history. */
  lemma {:induction false} HistoryUnique(a: seq<Ref>, b: seq<Ref>, refs: set<Ref>)
    requires IsHistory(a, refs) && IsHistory(b, refs)
    ensures a == b
    decreases |a|
  {
    assert a != [] ==> a[0] in b;
    assert b != [] ==> b[0] in a;
    if a == [] {
    } else {
      FirstIsFirst(a, b, refs);
      DropFirst(a, refs);
      DropFirst(b, refs);
      HistoryUnique(a[1..], b[1..], refs - {a[0]});
      assert a == [a[0]] + a[1..] && b == [b[0]] + b[1..];
    }
  }

  lemma FirstIsFirst(a: seq<Ref>, b: seq<Ref>, refs: set<Ref>)
    requires IsHistory(a, refs) && IsHistory(b, refs) && a != [] && b != []
    ensures a[0] == b[0]
  {
    assert a[0] in b && b[0] in a;
    var i :| 0 <= i < |b| && b[i] == a[0];
    var j :| 0 <= j < |a| && a[j] == b[0];
    BeforeTotal(a[0], b[0]);
  }

  lemma DropFirst(a: seq<Ref>, refs: set<Ref>)
    requires IsHistory(a, refs) && a != []
    ensures IsHistory(a[1..], refs - {a[0]})
  {
    BeforeTotal(a[0], a[0]);
    assert a == [a[0]] + a[1..];
    forall r
      ensures r in a[1..] <==> r in refs - {a[0]}
    {
      if r in a[1..] {
        var i :| 0 <= i < |a[1..]| && a[1..][i] == r;
        assert Before(a[0], a[i + 1]);
      }
    }
  }

  /** One History query: the references at or below the bound, in order, at most a page of them. */
  method History(rows: Outputs, mine: Owner, bound: nat) returns (page: seq<Ref>)
    ensures forall whole | IsHistory(whole, Touched(rows, mine)) :: page == Page(whole, bound)
  {
    var list := SortRefs(Touched(rows, mine));
    var i := 0;
    while i < |list| && list[i].height > bound
      invariant i <= |list| && Skip(list, bound) == i + Skip(list[i..], bound)
    {
      assert list[i..][1..] == list[i + 1..];
      i := i + 1;
    }
    assert Skip(list[i..], bound) == 0;
    page := list[i..Min(i + PAGE_SIZE, |list|)];
    PageUnique(list, Touched(rows, mine), bound);
  }

  lemma PageUnique(list: seq<Ref>, refs: set<Ref>, bound: nat)
    requires IsHistory(list, refs)
    ensures forall whole | IsHistory(whole, refs) :: Page(whole, bound) == Page(list, bound)
  {
    HistoryOnly(list, refs);
  }

  /** The references of a page that name an indexed transaction; the others, bundle and market ids, are skipped. */
  function Shown(page: seq<Ref>, txs: map<Hash, TxRow>): seq<Ref> {
    if page == [] then [] else
      (if page[0].txid in txs then [page[0]] else []) + Shown(page[1..], txs)
  }

  /** One addressTxs call without the unconfirmed rows; None when the cursor names no indexed transaction. */
  method AddressTxs(c: Confirmed, mine: Owner, start: nat, cursor: Option<Hash>) returns (r: Option<seq<Ref>>)
    ensures r.None? <==> cursor.Some? && cursor.value !in c.txs
    ensures r.Some? ==> forall whole | IsHistory(whole, Touched(c.outputs, mine)) ::
      r.value == match cursor
                 case None => Shown(Page(whole, start), c.txs)
                 case Some(x) => NextPage(whole, c.txs, x)
  {
    var bound := start;
    if cursor.Some? {
      if cursor.value !in c.txs {
        return None;
      }
      if c.txs[cursor.value].height == 0 {
        return Some([]);
      }
      bound := c.txs[cursor.value].height - 1;
    }
    var page := History(c.outputs, mine, bound);
    var shown, i := [], 0;
    while i < |page|
      invariant i <= |page| && Shown(page, c.txs) == shown + Shown(page[i..], c.txs)
    {
      assert page[i..][1..] == page[i + 1..];
      if page[i].txid in c.txs {
        shown := shown + [page[i]];
      }
      i := i + 1;
    }
    assert shown == Shown(page, c.txs);
    r := Some(shown);
  }

  /** The page behind a cursor: it starts one block below the transaction the cursor names. */
  function NextPage(list: seq<Ref>, txs: map<Hash, TxRow>, cursor: Hash): seq<Ref>
    requires cursor in txs
  {
    if txs[cursor].height == 0 then [] else Shown(Page(list, txs[cursor].height - 1), txs)
  }

  // ----- Following the cursor

  /** A reference that names an indexed transaction does not precede it. */
  ghost predicate Resolves(list: seq<Ref>, txs: map<Hash, TxRow>) {
    forall r | r in list && r.txid in txs :: txs[r.txid].height <= r.height
  }

  /** Every reference names a transaction indexed at exactly that height. */
  ghost predicate ResolvesExactly(list: seq<Ref>, txs: map<Hash, TxRow>) {
    forall r | r in list :: r.txid in txs && txs[r.txid].height == r.height
  }

  lemma {:induction false} ShownOrdered(page: seq<Ref>, txs: map<Hash, TxRow>)
    requires Ordered(page)
    ensures Ordered(Shown(page, txs))
    ensures forall r :: r in Shown(page, txs) <==> r in page && r.txid in txs
    ensures (forall r | r in page :: r.txid in txs) ==> Shown(page, txs) == page
    decreases |page|
  {
    if page == [] {
    } else {
      var tail, rest := page[1..], Shown(page[1..], txs);
      assert page == [page[0]] + tail;
      OrderedTail(page);
      ShownOrdered(tail, txs);
      OrderedCons(page[0], rest);
    }
  }

  lemma OrderedTail(page: seq<Ref>)
    requires Ordered(page) && page != []
    ensures Ordered(page[1..]) && forall r | r in page[1..] :: Before(page[0], r)
  {
  }

  lemma OrderedCons(first: Ref, rest: seq<Ref>)
    requires Ordered(rest) && forall r | r in rest :: Before(first, r)
    ensures Ordered([first] + rest)
  {
  }

  lemma PageOrdered(list: seq<Ref>, bound: nat)
    requires Ordered(list)
    ensures Ordered(Page(list, bound))
    ensures forall r | r in Page(list, bound) :: r in list && r.height <= bound
  {
  }

  lemma ShownPage(list: seq<Ref>, txs: map<Hash, TxRow>, bound: nat)
    requires Ordered(list) && Resolves(list, txs)
    ensures var shown := Shown(Page(list, bound), txs);
      && Ordered(shown)
      && forall r | r in shown :: r in list && r.txid in txs && txs[r.txid].height <= r.height <= bound
  {
    PageOrdered(list, bound);
    ShownOrdered(Page(list, bound), txs);
  }

  /** What a client sees of the address: the page at each height bound. */
  function Reader(list: seq<Ref>, txs: map<Hash, TxRow>): nat -> seq<Ref> {
    (bound: nat) => Shown(Page(list, bound), txs)
  }

  ghost predicate PageFits(read: nat -> seq<Ref>, txs: map<Hash, TxRow>, bound: nat) {
    Ordered(read(bound)) && forall r | r in read(bound) :: r.txid in txs && txs[r.txid].height <= r.height <= bound
  }

  ghost predicate Fits(read: nat -> seq<Ref>, txs: map<Hash, TxRow>) {
    forall bound: nat :: PageFits(read, txs, bound)
  }

  lemma ReaderFits(list: seq<Ref>, txs: map<Hash, TxRow>)
    requires Ordered(list) && Resolves(list, txs)
    ensures Fits(Reader(list, txs), txs)
  {
    forall bound: nat
      ensures PageFits(Reader(list, txs), txs, bound)
    {
      ShownPage(list, txs, bound);
    }
  }

  /** The height the cursor names: that of the last transaction on a page. It never exceeds the page's bound. */
  function CursorHeight(page: seq<Ref>, txs: map<Hash, TxRow>): nat
    requires page != [] && page[|page| - 1].txid in txs
  {
    txs[page[|page| - 1].txid].height
  }

  lemma CursorDescends(read: nat -> seq<Ref>, txs: map<Hash, TxRow>, bound: nat)
    requires PageFits(read, txs, bound) && read(bound) != []
    ensures var page := read(bound); page[|page| - 1].txid in txs && CursorHeight(page, txs) <= bound
  {
  }

  /**
   All a client reads: it passes the last txid of each page back and stops at an empty one.
   The next bound lies strictly below, so this ends.
   */
  ghost function Followed(read: nat -> seq<Ref>, txs: map<Hash, TxRow>, bound: nat): seq<Ref>
    requires Fits(read, txs)
    decreases bound
  {
    var page := read(bound);
    if page == [] then [] else
      assert PageFits(read, txs, bound);
      CursorDescends(read, txs, bound);
      var h := CursorHeight(page, txs);
      if h == 0 then page else page + Followed(read, txs, h - 1)
  }

  ghost predicate OnSomePage(read: nat -> seq<Ref>, r: Ref) {
    exists bound: nat :: r in read(bound)
  }

  /** An ordered list of references read from pages, none above the bound. */
  ghost predicate ReadUpTo(read: nat -> seq<Ref>, all: seq<Ref>, bound: nat) {
    Ordered(all) && forall r | r in all :: r.height <= bound && OnSomePage(read, r)
  }

  lemma PageRead(read: nat -> seq<Ref>, txs: map<Hash, TxRow>, bound: nat, page: seq<Ref>)
    requires PageFits(read, txs, bound) && page == read(bound)
    ensures ReadUpTo(read, page, bound)
    ensures page != [] ==>
              page[|page| - 1].txid in txs && CursorHeight(page, txs) <= page[|page| - 1].height <= bound
  {
  }

  lemma JoinRead(read: nat -> seq<Ref>, page: seq<Ref>, rest: seq<Ref>, h: nat, bound: nat)
    requires ReadUpTo(read, page, bound) && page != [] && page[|page| - 1].height >= h
    requires rest == [] || (0 < h <= bound && ReadUpTo(read, rest, h - 1))
    ensures ReadUpTo(read, page + rest, bound)
  {
  }

  lemma {:induction false} FollowedFits(read: nat -> seq<Ref>, txs: map<Hash, TxRow>, bound: nat)
    requires Fits(read, txs)
    ensures ReadUpTo(read, Followed(read, txs, bound), bound)
    decreases bound
  {
    var page := read(bound);
    assert PageFits(read, txs, bound);
    PageRead(read, txs, bound, page);
    FollowedTurn(read, txs, bound, page);
    if page == [] {
    } else {
      var h := CursorHeight(page, txs);
      if h > 0 {
        FollowedFits(read, txs, h - 1);
      }
      JoinRead(read, page, ReadBelow(read, txs, h), h, bound);
    }
  }

  /** However the pages fall, the client reads references of the history in its order, so none of them twice. */
  lemma NeverRepeats(list: seq<Ref>, txs: map<Hash, TxRow>, bound: nat)
    requires Ordered(list) && Resolves(list, txs)
    ensures Fits(Reader(list, txs), txs)
    ensures var all := Followed(Reader(list, txs), txs, bound);
      Ordered(all) && forall r | r in all :: r in list && r.txid in txs && r.height <= bound
  {
    var read := Reader(list, txs);
    ReaderFits(list, txs);
    FollowedFits(read, txs, bound);
    forall r | r in Followed(read, txs, bound)
      ensures r in list && r.txid in txs
    {
      var b: nat :| r in read(b);
      ShownPage(list, txs, b);
    }
  }

  /** No indexed transaction is referenced at two heights. */
  ghost predicate OneHeightEach(list: seq<Ref>, txs: map<Hash, TxRow>) {
    forall r, q | r in list && q in list && r.txid == q.txid && r.txid in txs :: r.height == q.height
  }

  /** No transaction is read twice when each is referenced at one height, wherever it was listed first. */
  lemma NoTransactionTwice(list: seq<Ref>, txs: map<Hash, TxRow>, bound: nat)
    requires Ordered(list) && Resolves(list, txs) && OneHeightEach(list, txs)
    ensures Fits(Reader(list, txs), txs)
    ensures var all := Followed(Reader(list, txs), txs, bound);
      forall i, j | 0 <= i < j < |all| :: all[i].txid != all[j].txid
  {
    NeverRepeats(list, txs, bound);
    var all := Followed(Reader(list, txs), txs, bound);
    forall i, j | 0 <= i < j < |all|
      ensures all[i].txid != all[j].txid
    {
      assert all[i] in all && all[j] in all;
      BeforeTotal(all[i], all[j]);
      BeforeTotal(all[i], all[i]);
    }
  }

  // ----- The calls a client makes

  /** Everything on the page behind a cursor lies strictly below the height the cursor is indexed at. */
  lemma NextPageBelow(list: seq<Ref>, txs: map<Hash, TxRow>, cursor: Hash)
    requires Ordered(list) && cursor in txs
    ensures forall r | r in NextPage(list, txs, cursor) :: r in list && r.txid in txs && r.height < txs[cursor].height
  {
    if txs[cursor].height > 0 {
      PageOrdered(list, txs[cursor].height - 1);
      ShownOrdered(Page(list, txs[cursor].height - 1), txs);
    }
  }

  lemma SomeHistory(refs: set<Ref>) returns (list: seq<Ref>)
    ensures IsHistory(list, refs)
    decreases refs
  {
    if refs == {} {
      list := [];
    } else {
      var r :| r in refs;
      var rest := SomeHistory(refs - {r});
      InsertOrdered(rest, r);
      list := Inserted(rest, r);
    }
  }

  lemma NextPageIs(list: seq<Ref>, txs: map<Hash, TxRow>, x: Hash)
    requires x in txs
    ensures NextPage(list, txs, x) == PageBelow(Reader(list, txs), txs[x].height)
  {
  }

  /** A client has read `all`, holds `page`, and would read on from the page at `bound`, if any is left. */
  ghost predicate Reading(
    read: nat -> seq<Ref>, txs: map<Hash, TxRow>, start: nat, all: seq<Ref>, page: seq<Ref>, bound: Option<nat>)
    requires Fits(read, txs)
  {
    match bound
    case None => page == [] && all == Followed(read, txs, start)
    case Some(b) => page == read(b) && all + Followed(read, txs, b) == Followed(read, txs, start)
  }

  function PageBelow(read: nat -> seq<Ref>, h: nat): seq<Ref> {
    if h == 0 then [] else read(h - 1)
  }

  function NextBound(h: nat): Option<nat> {
    if h == 0 then None else Some(h - 1)
  }

  lemma ReadingCursor(
    read: nat -> seq<Ref>, txs: map<Hash, TxRow>, start: nat, all: seq<Ref>, page: seq<Ref>, b: nat)
    requires Fits(read, txs) && Reading(read, txs, start, all, page, Some(b)) && page != []
    ensures page[|page| - 1].txid in txs && CursorHeight(page, txs) <= b
  {
    FollowedTurn(read, txs, b, page);
  }

  lemma ReadingOn(
    read: nat -> seq<Ref>, txs: map<Hash, TxRow>, start: nat, all: seq<Ref>, page: seq<Ref>, b: nat, h: nat,
    next: seq<Ref>)
    requires Fits(read, txs) && Reading(read, txs, start, all, page, Some(b)) && page != []
    requires page[|page| - 1].txid in txs && h == CursorHeight(page, txs)
    requires next == PageBelow(read, h)
    ensures Reading(read, txs, start, all + page, next, NextBound(h))
  {
    FollowedTurn(read, txs, b, page);
    var rest := ReadBelow(read, txs, h);
    assert all + (page + rest) == all + page + rest;
    assert h == 0 ==> all + page + rest == all + page;
  }

  lemma ReadingEnds(read: nat -> seq<Ref>, txs: map<Hash, TxRow>, start: nat, all: seq<Ref>, bound: Option<nat>)
    requires Fits(read, txs) && Reading(read, txs, start, all, [], bound)
    ensures all == Followed(read, txs, start)
  {
    if bound.Some? {
      FollowedTurn(read, txs, bound.value, []);
      assert all + [] == all;
    }
  }

  method PageBehind(c: Confirmed, mine: Owner, start: nat, cursor: Hash, ghost list: seq<Ref>) returns (next: seq<Ref>)
    requires cursor in c.txs && IsHistory(list, Touched(c.outputs, mine))
    ensures next == PageBelow(Reader(list, c.txs), c.txs[cursor].height)
  {
    var answer := AddressTxs(c, mine, start, Some(cursor));
    NextPageIs(list, c.txs, cursor);
    next := answer.value;
  }

  /** The page behind the last transaction of a page. */
  method PageAfter(
    c: Confirmed, mine: Owner, start: nat, page: seq<Ref>, ghost list: seq<Ref>, ghost all: seq<Ref>, ghost b: nat)
    returns (next: seq<Ref>, ghost bound: Option<nat>)
    requires IsHistory(list, Touched(c.outputs, mine)) && Fits(Reader(list, c.txs), c.txs) && page != []
    requires Reading(Reader(list, c.txs), c.txs, start, all, page, Some(b))
    ensures Reading(Reader(list, c.txs), c.txs, start, all + page, next, bound)
    ensures bound.Some? ==> bound.value < b
  {
    ghost var read := Reader(list, c.txs);
    ReadingCursor(read, c.txs, start, all, page, b);
    ghost var h := CursorHeight(page, c.txs);
    next := PageBehind(c, mine, start, page[|page| - 1].txid, list);
    ReadingOn(read, c.txs, start, all, page, b, h, next);
    bound := NextBound(h);
  }

  /** One page and then the one behind it, as long as pages show something. */
  method ReadOn(c: Confirmed, mine: Owner, start: nat, ghost list: seq<Ref>) returns (all: seq<Ref>)
    requires IsHistory(list, Touched(c.outputs, mine)) && Fits(Reader(list, c.txs), c.txs)
    ensures all == Followed(Reader(list, c.txs), c.txs, start)
  {
    ghost var read := Reader(list, c.txs);
    var answer := AddressTxs(c, mine, start, None);
    var page := answer.value;
    all := [];
    ghost var bound := Some(start);
    assert [] + Followed(read, c.txs, start) == Followed(read, c.txs, start);
    while page != []
      invariant Reading(read, c.txs, start, all, page, bound)
      decreases if bound.None? then 0 else bound.value + 1
    {
      var next;
      next, bound := PageAfter(c, mine, start, page, list, all, bound.value);
      all, page := all + page, next;
    }
    ReadingEnds(read, c.txs, start, all, bound);
  }

  /** The pages of an address from `start` on, as a client asks for them. */
  method FollowCursor(c: Confirmed, mine: Owner, start: nat) returns (all: seq<Ref>)
    requires forall list | IsHistory(list, Touched(c.outputs, mine)) :: Resolves(list, c.txs)
    ensures forall list | IsHistory(list, Touched(c.outputs, mine)) ::
      Fits(Reader(list, c.txs), c.txs) && all == Followed(Reader(list, c.txs), c.txs, start)
  {
    ghost var list := SomeHistory(Touched(c.outputs, mine));
    ReaderFits(list, c.txs);
    all := ReadOn(c, mine, start, list);
    HistoryOnly(list, Touched(c.outputs, mine));
  }

  lemma HistoryOnly(list: seq<Ref>, refs: set<Ref>)
    requires IsHistory(list, refs)
    ensures forall other | IsHistory(other, refs) :: other == list
  {
    forall other | IsHistory(other, refs)
      ensures other == list
    {
      HistoryUnique(other, list, refs);
    }
  }

  /** From index `i` on, no page boundary falls inside a block. */
  predicate CleanCuts(list: seq<Ref>, i: nat)
    requires i <= |list|
    decreases |list| - i
  {
    var e := Min(i + PAGE_SIZE, |list|);
    e == |list| || (list[e].height < list[e - 1].height && CleanCuts(list, e))
  }

  ghost predicate HeightsFall(list: seq<Ref>) {
    forall i, j :: !Rises(list, i, j)
  }

  predicate Rises(list: seq<Ref>, i: nat, j: nat) {
    i < j < |list| && list[i].height < list[j].height
  }

  lemma SkipFrom(list: seq<Ref>, bound: nat, n: nat)
    requires HeightsFall(list) && n <= |list|
    requires n > 0 ==> list[n - 1].height > bound
    requires n < |list| ==> list[n].height <= bound
    ensures Skip(list, bound) == n
  {
    var k := Skip(list, bound);
    assert n > 0 ==> !Rises(list, k, n - 1);
    assert !Rises(list, n, k);
  }

  /** The reader shows whole pages of the list, each transaction at its own height. */
  ghost predicate ShowsWhole(read: nat -> seq<Ref>, list: seq<Ref>, txs: map<Hash, TxRow>, bound: nat) {
    var page := Page(list, bound);
    read(bound) == page && (page != [] ==>
      page[|page| - 1].txid in txs && CursorHeight(page, txs) == page[|page| - 1].height)
  }

  lemma ReaderShowsWhole(list: seq<Ref>, txs: map<Hash, TxRow>, bound: nat)
    requires Ordered(list) && ResolvesExactly(list, txs)
    ensures ShowsWhole(Reader(list, txs), list, txs, bound)
  {
    ShownWhole(list, txs, bound);
    assert Reader(list, txs)(bound) == Shown(Page(list, bound), txs);
  }

  lemma ShownWhole(list: seq<Ref>, txs: map<Hash, TxRow>, bound: nat)
    requires Ordered(list) && ResolvesExactly(list, txs)
    ensures Shown(Page(list, bound), txs) == Page(list, bound)
    ensures Page(list, bound) != [] ==>
              var last := Page(list, bound)[|Page(list, bound)| - 1];
              last.txid in txs && txs[last.txid].height == last.height
  {
    var page := Page(list, bound);
    PageOrdered(list, bound);
    ShownOrdered(page, txs);
    assert page != [] ==> page[|page| - 1] in page;
  }

  ghost predicate ShowsAll(read: nat -> seq<Ref>, list: seq<Ref>, txs: map<Hash, TxRow>) {
    HeightsFall(list) && Fits(read, txs) && forall b: nat :: ShowsWhole(read, list, txs, b)
  }

  /** All a client reads after a cursor at height `h`. */
  ghost function ReadBelow(read: nat -> seq<Ref>, txs: map<Hash, TxRow>, h: nat): seq<Ref>
    requires Fits(read, txs)
  {
    if h == 0 then [] else Followed(read, txs, h - 1)
  }

  lemma FollowedTurn(read: nat -> seq<Ref>, txs: map<Hash, TxRow>, bound: nat, page: seq<Ref>)
    requires Fits(read, txs) && page == read(bound)
    ensures page == [] ==> Followed(read, txs, bound) == []
    ensures page != [] ==>
              && page[|page| - 1].txid in txs && CursorHeight(page, txs) <= bound
              && Followed(read, txs, bound)
                 == page + ReadBelow(read, txs, CursorHeight(page, txs))
  {
    assert PageFits(read, txs, bound);
    if page != [] {
      CursorDescends(read, txs, bound);
    }
  }

  lemma FollowedStep(read: nat -> seq<Ref>, list: seq<Ref>, txs: map<Hash, TxRow>, bound: nat, i: nat, e: nat)
    requires ShowsAll(read, list, txs)
    requires i == Skip(list, bound) && e == Min(i + PAGE_SIZE, |list|)
    ensures i == |list| ==> Followed(read, txs, bound) == []
    ensures i < |list| ==>
              && list[e - 1].height <= bound
              && Followed(read, txs, bound)
                 == list[i..e] + ReadBelow(read, txs, list[e - 1].height)
  {
    var page := list[i..e];
    assert ShowsWhole(read, list, txs, bound) && Page(list, bound) == page;
    assert i < |list| ==> page != [] && page[|page| - 1] == list[e - 1];
    FollowedTurn(read, txs, bound, page);
  }

  /** A block cut by a page boundary loses a reference. */
  lemma CutLoses(read: nat -> seq<Ref>, txs: map<Hash, TxRow>, list: seq<Ref>, i: nat, e: nat, h: nat)
    requires Fits(read, txs) && i < e < |list| && list[e].height == h
    ensures list[i..e] + ReadBelow(read, txs, h) != list[i..]
  {
    assert list[i..][e - i] == list[e];
    if h > 0 {
      FollowedFits(read, txs, h - 1);
      var rest := Followed(read, txs, h - 1);
      assert rest != [] ==> rest[0] in rest && (list[i..e] + rest)[e - i] == rest[0];
    }
  }

  lemma SplitAt(list: seq<Ref>, i: nat, e: nat, rest: seq<Ref>)
    requires i <= e <= |list|
    ensures list[i..e] + rest == list[i..] <==> rest == list[e..]
  {
  }

  lemma CutsFrom(list: seq<Ref>, i: nat, e: nat)
    requires i < |list| && e == Min(i + PAGE_SIZE, |list|)
    ensures CleanCuts(list, i) <==> e == |list| || (list[e].height < list[e - 1].height && CleanCuts(list, e))
  {
  }

  lemma {:induction false} CoversExactly(
    read: nat -> seq<Ref>, list: seq<Ref>, txs: map<Hash, TxRow>, bound: nat, i: nat)
    requires ShowsAll(read, list, txs) && i == Skip(list, bound)
    ensures Followed(read, txs, bound) == list[i..] <==> CleanCuts(list, i)
    decreases bound, 1
  {
    var e := Min(i + PAGE_SIZE, |list|);
    FollowedStep(read, list, txs, bound, i, e);
    if i < |list| {
      var h := list[e - 1].height;
      CutsFrom(list, i, e);
      if e < |list| && list[e].height == h {
        CutLoses(read, txs, list, i, e, h);
      } else {
        CoversBelow(read, list, txs, h, e);
        SplitAt(list, i, e, ReadBelow(read, txs, h));
      }
    }
  }

  lemma {:induction false} CoversBelow(read: nat -> seq<Ref>, list: seq<Ref>, txs: map<Hash, TxRow>, h: nat, e: nat)
    requires ShowsAll(read, list, txs) && 0 < e <= |list|
    requires list[e - 1].height == h && (e < |list| ==> list[e].height != h)
    ensures e < |list| ==> list[e].height < h
    ensures ReadBelow(read, txs, h) == list[e..] <==> CleanCuts(list, e)
    decreases h, 0
  {
    CoversRest(read, list, txs, h, e);
    if h == 0 {
    } else {
      CoversExactly(read, list, txs, h - 1, e);
    }
  }

  lemma CoversRest(read: nat -> seq<Ref>, list: seq<Ref>, txs: map<Hash, TxRow>, h: nat, e: nat)
    requires ShowsAll(read, list, txs) && 0 < e <= |list|
    requires list[e - 1].height == h && (e < |list| ==> list[e].height != h)
    ensures e < |list| ==> list[e].height < h
    ensures h > 0 ==> Skip(list, h - 1) == e
  {
    assert !Rises(list, e - 1, e);
    if h > 0 {
      SkipFrom(list, h - 1, e);
    }
  }

  lemma ReaderShowsAll(list: seq<Ref>, txs: map<Hash, TxRow>)
    requires Ordered(list) && ResolvesExactly(list, txs)
    ensures ShowsAll(Reader(list, txs), list, txs)
  {
    ReaderFits(list, txs);
    forall b: nat
      ensures ShowsWhole(Reader(list, txs), list, txs, b)
    {
      ReaderShowsWhole(list, txs, b);
    }
    OrderedFalls(list);
  }

  /**
   The pages concatenate to the whole ordered history exactly once, if and only if no page boundary
   falls inside a block.
   */
  lemma PagesCoverHistory(list: seq<Ref>, txs: map<Hash, TxRow>, bound: nat)
    requires Ordered(list) && ResolvesExactly(list, txs)
    ensures Fits(Reader(list, txs), txs)
    ensures Followed(Reader(list, txs), txs, bound) == list[Skip(list, bound)..] <==> CleanCuts(list, Skip(list, bound))
  {
    ReaderShowsAll(list, txs);
    CoversExactly(Reader(list, txs), list, txs, bound, Skip(list, bound));
  }

  // ----- What the cursor loses, for every owner

  /** No reference of the list names an indexed transaction. */
  ghost predicate Hidden(list: seq<Ref>, txs: map<Hash, TxRow>) {
    forall r | r in list :: r.txid !in txs
  }

  lemma {:induction false} ShownHidden(list: seq<Ref>, txs: map<Hash, TxRow>)
    ensures Shown(list, txs) == [] <==> Hidden(list, txs)
    decreases |list|
  {
    if list == [] {
    } else {
      ShownHidden(list[1..], txs);
      assert list == [list[0]] + list[1..];
    }
  }

  lemma ShownCons(r: Ref, rest: seq<Ref>, txs: map<Hash, TxRow>)
    ensures Shown([r] + rest, txs) == (if r.txid in txs then [r] else []) + Shown(rest, txs)
  {
    assert ([r] + rest)[1..] == rest;
  }

  lemma {:induction false} ShownConcat(a: seq<Ref>, b: seq<Ref>, txs: map<Hash, TxRow>)
    ensures Shown(a + b, txs) == Shown(a, txs) + Shown(b, txs)
    decreases |a|
  {
    if a == [] {
      assert a + b == b;
    } else {
      var r, tail := a[0], a[1..];
      assert a == [r] + tail && a + b == [r] + (tail + b);
      ShownConcat(tail, b, txs);
      ShownCons(r, tail, txs);
      ShownCons(r, tail + b, txs);
    }
  }

  lemma ShownSplit(list: seq<Ref>, txs: map<Hash, TxRow>, i: nat, e: nat)
    requires i <= e <= |list|
    ensures Shown(list[i..], txs) == Shown(list[i..e], txs) + Shown(list[e..], txs)
  {
    assert list[i..] == list[i..e] + list[e..];
    ShownConcat(list[i..e], list[e..], txs);
  }

  lemma {:induction false} ShownFrom(list: seq<Ref>, txs: map<Hash, TxRow>)
    ensures forall r | r in Shown(list, txs) :: r in list && r.txid in txs
    decreases |list|
  {
    if list == [] {
    } else {
      ShownFrom(list[1..], txs);
    }
  }

  /** Where the page at `bound` ends in the list. */
  function PageEnd(list: seq<Ref>, bound: nat): (e: nat)
    ensures Skip(list, bound) <= e <= |list| && Page(list, bound) == list[Skip(list, bound)..e]
  {
    Min(Skip(list, bound) + PAGE_SIZE, |list|)
  }

  /** The references between the end of the page at `bound` and the start of the page behind a cursor at height `h`. */
  function Jumped(list: seq<Ref>, bound: nat, h: nat): seq<Ref> {
    var e, next := PageEnd(list, bound), if h == 0 then |list| else Skip(list, h - 1);
    if e <= next then list[e..next] else []
  }

  /** No page the client reads jumps over an indexed transaction, nor is one left when a page shows none. */
  ghost predicate LosesNone(read: nat -> seq<Ref>, list: seq<Ref>, txs: map<Hash, TxRow>, bound: nat)
    requires Fits(read, txs)
    decreases bound
  {
    var page := read(bound);
    if page == [] then Hidden(list[PageEnd(list, bound)..], txs) else
      assert PageFits(read, txs, bound);
      CursorDescends(read, txs, bound);
      var h := CursorHeight(page, txs);
      Hidden(Jumped(list, bound, h), txs) && (h > 0 ==> LosesNone(read, list, txs, h - 1))
  }

  ghost predicate ReadsAt(read: nat -> seq<Ref>, list: seq<Ref>, txs: map<Hash, TxRow>, bound: nat) {
    read(bound) == Shown(Page(list, bound), txs)
  }

  ghost predicate ReadsList(read: nat -> seq<Ref>, list: seq<Ref>, txs: map<Hash, TxRow>) {
    HeightsFall(list) && Fits(read, txs) && forall bound: nat :: ReadsAt(read, list, txs, bound)
  }

  /** Every reference the page shows is at or above the cursor's height, so the rest of the page below it is hidden. */
  lemma TailHidden(
    list: seq<Ref>, txs: map<Hash, TxRow>, i: nat, e: nat, page: seq<Ref>, h: nat, next: nat)
    requires HeightsFall(list) && i <= e <= |list| && page == Shown(list[i..e], txs) && Ordered(page)
    requires page != [] && 0 < h <= page[|page| - 1].height && next == Skip(list, h - 1) <= e
    ensures i <= next && Hidden(list[next..e], txs)
  {
    var last := page[|page| - 1];
    LastFrom(list, txs, i, e, page, next);
    forall k: nat | next <= k < e
      ensures list[k].txid !in txs
    {
      assert !Rises(list, next, k);
      BelowCursorHidden(list, txs, i, e, k, page);
    }
  }

  lemma LastFrom(list: seq<Ref>, txs: map<Hash, TxRow>, i: nat, e: nat, page: seq<Ref>, next: nat)
    requires HeightsFall(list) && i <= e <= |list| && page == Shown(list[i..e], txs) && page != []
    requires next < |list| ==> list[next].height < page[|page| - 1].height
    ensures i <= next
  {
    ShownFrom(list[i..e], txs);
    var last := page[|page| - 1];
    assert last in list[i..e];
    var j: nat :| i <= j < e && list[j] == last;
    assert !Rises(list, next, j);
  }

  lemma BelowCursorHidden(list: seq<Ref>, txs: map<Hash, TxRow>, i: nat, e: nat, k: nat, page: seq<Ref>)
    requires i <= k < e <= |list| && page == Shown(list[i..e], txs) && Ordered(page) && page != []
    requires list[k].height < page[|page| - 1].height
    ensures list[k].txid !in txs
  {
    if list[k].txid in txs {
      ShownHolds(list[i..e], txs, k - i);
      NoneBelowLast(page, list[k]);
    }
  }

  lemma NoneBelowLast(page: seq<Ref>, r: Ref)
    requires Ordered(page) && r in page
    ensures r.height >= page[|page| - 1].height
  {
    var m :| 0 <= m < |page| && page[m] == r;
    assert m == |page| - 1 || Before(page[m], page[|page| - 1]);
  }

  lemma {:induction false} ShownHolds(list: seq<Ref>, txs: map<Hash, TxRow>, k: nat)
    requires k < |list| && list[k].txid in txs
    ensures list[k] in Shown(list, txs)
    decreases k
  {
    if k == 0 {
    } else {
      ShownHolds(list[1..], txs, k - 1);
    }
  }

  /** A page whose cursor jumps over an indexed transaction loses it: what follows lies below the jump. */
  lemma JumpLosesShown(
    read: nat -> seq<Ref>, list: seq<Ref>, txs: map<Hash, TxRow>, e: nat, next: nat, h: nat)
    requires Fits(read, txs) && e <= next <= |list| && !Hidden(list[e..next], txs)
    requires h > 0 && forall k | e <= k < next :: list[k].height >= h
    ensures Followed(read, txs, h - 1) != Shown(list[e..], txs)
  {
    var rest := Followed(read, txs, h - 1);
    FirstLost(list, txs, e, next, h);
    FollowedFits(read, txs, h - 1);
    assert rest != [] ==> rest[0] in rest;
  }

  lemma FirstLost(list: seq<Ref>, txs: map<Hash, TxRow>, e: nat, next: nat, h: nat)
    requires e <= next <= |list| && !Hidden(list[e..next], txs)
    requires forall k | e <= k < next :: list[k].height >= h
    ensures var shown := Shown(list[e..], txs); shown != [] && shown[0].height >= h
  {
    var lost := Shown(list[e..next], txs);
    ShownHidden(list[e..next], txs);
    ShownFrom(list[e..next], txs);
    assert lost[0] in lost;
    ShownSplit(list, txs, e, next);
  }

  /** The page at `bound` shows something, and its last transaction was indexed at height `h`. */
  ghost predicate CursorAt(read: nat -> seq<Ref>, txs: map<Hash, TxRow>, bound: nat, h: nat) {
    var page := read(bound);
    page != [] && page[|page| - 1].txid in txs && h == CursorHeight(page, txs)
  }

  lemma CursorAbove(read: nat -> seq<Ref>, list: seq<Ref>, txs: map<Hash, TxRow>, bound: nat, h: nat)
    requires ReadsList(read, list, txs) && CursorAt(read, txs, bound, h)
    ensures var page := read(bound);
      && page == Shown(list[Skip(list, bound)..PageEnd(list, bound)], txs)
      && Ordered(page) && h <= page[|page| - 1].height
  {
    var page := read(bound);
    assert ReadsAt(read, list, txs, bound) && PageFits(read, txs, bound);
    assert page[|page| - 1] in page;
  }

  lemma JumpBack(read: nat -> seq<Ref>, list: seq<Ref>, txs: map<Hash, TxRow>, bound: nat, h: nat)
    requires ReadsList(read, list, txs) && CursorAt(read, txs, bound, h) && h > 0
    requires Skip(list, h - 1) <= PageEnd(list, bound)
    ensures Shown(list[Skip(list, h - 1)..], txs) == Shown(list[PageEnd(list, bound)..], txs)
  {
    var e, next := PageEnd(list, bound), Skip(list, h - 1);
    CursorAbove(read, list, txs, bound, h);
    TailHidden(list, txs, Skip(list, bound), e, read(bound), h, next);
    JumpOn(list, txs, next, e);
  }

  lemma JumpOn(list: seq<Ref>, txs: map<Hash, TxRow>, e: nat, next: nat)
    requires e <= next <= |list| && Hidden(list[e..next], txs)
    ensures Shown(list[next..], txs) == Shown(list[e..], txs)
  {
    ShownHidden(list[e..next], txs);
    ShownSplit(list, txs, e, next);
  }

  /** The client reads all that the list shows from `bound` down, once and in order, if and only if it loses nothing. */
  ghost predicate ReadsShown(read: nat -> seq<Ref>, list: seq<Ref>, txs: map<Hash, TxRow>, bound: nat)
    requires Fits(read, txs)
  {
    Followed(read, txs, bound) == Shown(list[Skip(list, bound)..], txs) <==> LosesNone(read, list, txs, bound)
  }

  /** The same of what lies behind the page at `bound`, whose cursor is at height `h`. */
  ghost predicate ReadsRest(read: nat -> seq<Ref>, list: seq<Ref>, txs: map<Hash, TxRow>, bound: nat, h: nat)
    requires Fits(read, txs)
  {
    ReadBelow(read, txs, h) == Shown(list[PageEnd(list, bound)..], txs)
    <==> Hidden(Jumped(list, bound, h), txs) && LosesBelow(read, list, txs, h)
  }

  /** One turn: the client reads everything behind the page exactly when nothing is jumped and it does so below. */
  lemma TurnCovers(read: nat -> seq<Ref>, list: seq<Ref>, txs: map<Hash, TxRow>, bound: nat, h: nat)
    requires ReadsList(read, list, txs) && CursorAt(read, txs, bound, h) && h > 0
    requires ReadsShown(read, list, txs, h - 1)
    ensures ReadsRest(read, list, txs, bound, h)
  {
    var e, next := PageEnd(list, bound), Skip(list, h - 1);
    if next <= e {
      JumpBack(read, list, txs, bound, h);
    } else if Hidden(list[e..next], txs) {
      JumpOn(list, txs, e, next);
    } else {
      JumpLosesShown(read, list, txs, e, next, h);
    }
  }

  lemma LastTurnCovers(read: nat -> seq<Ref>, list: seq<Ref>, txs: map<Hash, TxRow>, bound: nat)
    requires Fits(read, txs)
    ensures ReadsRest(read, list, txs, bound, 0)
  {
    var rest := list[PageEnd(list, bound)..];
    ShownHidden(rest, txs);
    assert Jumped(list, bound, 0) == rest;
  }

  lemma ReadStep(read: nat -> seq<Ref>, list: seq<Ref>, txs: map<Hash, TxRow>, bound: nat)
    requires ReadsList(read, list, txs)
    ensures Shown(list[Skip(list, bound)..], txs) == read(bound) + Shown(list[PageEnd(list, bound)..], txs)
  {
    assert ReadsAt(read, list, txs, bound);
    ShownSplit(list, txs, Skip(list, bound), PageEnd(list, bound));
  }

  lemma SameTail<T>(front: seq<T>, a: seq<T>, b: seq<T>)
    ensures front + a == front + b <==> a == b
  {
    if front + a == front + b {
      assert a == (front + a)[|front|..] == (front + b)[|front|..] == b;
    }
  }

  lemma LosesTurn(read: nat -> seq<Ref>, list: seq<Ref>, txs: map<Hash, TxRow>, bound: nat, page: seq<Ref>)
    requires Fits(read, txs) && page == read(bound)
    ensures page == [] ==> (LosesNone(read, list, txs, bound) <==> Hidden(list[PageEnd(list, bound)..], txs))
    ensures page != [] ==>
              && page[|page| - 1].txid in txs && CursorHeight(page, txs) <= bound
              && (LosesNone(read, list, txs, bound) <==>
                    && Hidden(Jumped(list, bound, CursorHeight(page, txs)), txs)
                    && LosesBelow(read, list, txs, CursorHeight(page, txs)))
  {
    assert PageFits(read, txs, bound);
    if page != [] {
      CursorDescends(read, txs, bound);
    }
  }

  ghost predicate LosesBelow(read: nat -> seq<Ref>, list: seq<Ref>, txs: map<Hash, TxRow>, h: nat)
    requires Fits(read, txs)
  {
    h > 0 ==> LosesNone(read, list, txs, h - 1)
  }

  lemma CoversShown(read: nat -> seq<Ref>, list: seq<Ref>, txs: map<Hash, TxRow>, bound: nat)
    requires ReadsList(read, list, txs) && forall b: nat | b < bound :: ReadsShown(read, list, txs, b)
    ensures ReadsShown(read, list, txs, bound)
  {
    var page, rest := read(bound), Shown(list[PageEnd(list, bound)..], txs);
    ReadStep(read, list, txs, bound);
    FollowedTurn(read, txs, bound, page);
    LosesTurn(read, list, txs, bound, page);
    if page == [] {
      ShownHidden(list[PageEnd(list, bound)..], txs);
      assert page + rest == rest;
    } else {
      var h := CursorHeight(page, txs);
      SameTail(page, ReadBelow(read, txs, h), rest);
      if h == 0 {
        LastTurnCovers(read, list, txs, bound);
      } else {
        TurnCovers(read, list, txs, bound, h);
      }
    }
  }

  lemma {:induction false} CoversShownUpTo(read: nat -> seq<Ref>, list: seq<Ref>, txs: map<Hash, TxRow>, n: nat)
    requires ReadsList(read, list, txs)
    ensures forall b: nat | b < n :: ReadsShown(read, list, txs, b)
    decreases n
  {
    forall b: nat | b < n
      ensures ReadsShown(read, list, txs, b)
    {
      CoversShownUpTo(read, list, txs, b);
      CoversShown(read, list, txs, b);
    }
  }

  lemma CoversShownAt(read: nat -> seq<Ref>, list: seq<Ref>, txs: map<Hash, TxRow>, bound: nat)
    requires ReadsList(read, list, txs)
    ensures ReadsShown(read, list, txs, bound)
  {
    CoversShownUpTo(read, list, txs, bound);
    CoversShown(read, list, txs, bound);
  }

  /**
   For every owner, whatever bundle and market ids the history holds and wherever its transactions were first listed:
   the client reads every indexed transaction of the history, once and in order, if and only if no page jumps over
   one and no page comes up empty above one.
   */
  lemma PagesCoverExactly(list: seq<Ref>, txs: map<Hash, TxRow>, bound: nat)
    requires Ordered(list) && Resolves(list, txs)
    ensures var read := Reader(list, txs);
      Fits(read, txs) && ReadsShown(read, list, txs, bound)
  {
    ReaderFits(list, txs);
    OrderedFalls(list);
    forall b: nat
      ensures ReadsAt(Reader(list, txs), list, txs, b)
    {
    }
    CoversShownAt(Reader(list, txs), list, txs, bound);
  }

  lemma OrderedFalls(list: seq<Ref>)
    requires Ordered(list)
    ensures HeightsFall(list)
  {
    forall i: nat, j: nat
      ensures !Rises(list, i, j)
    {
      assert i < j < |list| ==> Before(list[i], list[j]);
    }
  }
}
