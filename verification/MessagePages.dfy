/**
 Walking a conversation backwards page by page.  The database keeps microseconds; the time a client gets back, and
 returns as the cursor, has milliseconds only.
 */
module MessagePages {
  import opened Common

  /** A message of the conversation: its id and its sent_at in microseconds. */
  datatype Row = Row(id: nat, sentAt: int)

  function Millis(r: Row): int {
    r.sentAt / 1000
  }

  /** The `before` a client sends after a page whose last message is r. */
  function Cursor(r: Row): int {
    Millis(r) * 1000
  }

  /** WHERE $2 IS NULL OR sent_at < $2. */
  function Eligible(table: set<Row>, before: Option<int>): set<Row> {
    set r | r in table && (before.None? || r.sentAt < before.value)
  }

  /** ORDER BY sent_at DESC LIMIT n: any answer SQL allows. */
  ghost predicate IsPage(table: set<Row>, before: Option<int>, limit: nat, page: seq<Row>) {
    var eligible := Eligible(table, before);
    && |page| == (if |eligible| < limit then |eligible| else limit)
    && (forall i :: 0 <= i < |page| ==> page[i] in eligible)
    && (forall i, j :: 0 <= i < j < |page| ==> page[i] != page[j] && page[i].sentAt >= page[j].sentAt)
    && (forall r, i :: r in eligible && r !in page && 0 <= i < |page| ==> r.sentAt <= page[i].sentAt)
  }

  /** The newest `|page|` of the eligible rows have been taken, newest first. */
  ghost predicate Taken(eligible: set<Row>, left: set<Row>, page: seq<Row>) {
    && |page| + |left| == |eligible|
    && (forall r :: r in eligible <==> r in left || r in page)
    && (forall i :: 0 <= i < |page| ==> page[i] !in left)
    && (forall i, j :: 0 <= i < j < |page| ==> page[i] != page[j] && page[i].sentAt >= page[j].sentAt)
    && (forall r, i :: r in left && 0 <= i < |page| ==> r.sentAt <= page[i].sentAt)
  }

  lemma TakeOne(eligible: set<Row>, left: set<Row>, page: seq<Row>, newest: Row)
    requires Taken(eligible, left, page) && newest in left && forall r :: r in left ==> r.sentAt <= newest.sentAt
    ensures Taken(eligible, left - {newest}, page + [newest])
  {
    var more := page + [newest];
    assert forall i :: 0 <= i < |page| ==> more[i] == page[i];
    assert more[|page|] == newest;
    assert forall r :: r in more <==> r in page || r == newest;
  }

  method TakePage(table: set<Row>, before: Option<int>, limit: nat) returns (page: seq<Row>)
    ensures IsPage(table, before, limit, page)
  {
    page := [];
    var left := Eligible(table, before);
    while |page| < limit && left != {}
      invariant Taken(Eligible(table, before), left, page) && |page| <= limit
      decreases |left|
    {
      var newest := Newest(left);
      TakeOne(Eligible(table, before), left, page, newest);
      page := page + [newest];
      left := left - {newest};
    }
  }

  method Newest(rows: set<Row>) returns (newest: Row)
    requires rows != {}
    ensures newest in rows && forall r :: r in rows ==> r.sentAt <= newest.sentAt
  {
    newest :| newest in rows;
    var left := rows - {newest};
    while left != {}
      invariant left <= rows && newest in rows
      invariant forall r :: r in rows - left ==> r.sentAt <= newest.sentAt
    {
      var r :| r in left;
      if newest.sentAt < r.sentAt { newest := r; }
      left := left - {r};
    }
  }

  /** A client's walk: each page is fetched from the table of its moment with the cursor of the page before, and the
      walk ends at the first empty page. */
  ghost predicate IsWalk(tables: seq<set<Row>>, before: Option<int>, limit: nat, pages: seq<seq<Row>>)
    decreases |pages|
  {
    && |tables| == |pages| > 0
    && IsPage(tables[0], before, limit, pages[0])
    && (if pages[0] == [] then |pages| == 1
        else IsWalk(tables[1..], Some(Cursor(pages[0][|pages[0]| - 1])), limit, pages[1..]))
  }

  function Flatten(pages: seq<seq<Row>>): seq<Row> {
    if pages == [] then [] else pages[0] + Flatten(pages[1..])
  }

  ghost predicate DistinctMillis(table: set<Row>) {
    forall r, q :: r in table && q in table && r != q ==> Millis(r) != Millis(q)
  }

  /** Messages that arrive during the walk are at least a millisecond newer than all that were there at the start. */
  ghost predicate OnlyNewer(start: set<Row>, table: set<Row>) {
    start <= table && forall r, q :: r in start && q in table && q !in start ==> Millis(r) < Millis(q)
  }

  ghost predicate Descending(rows: seq<Row>) {
    forall i, j :: 0 <= i < j < |rows| ==> rows[i].sentAt > rows[j].sentAt
  }

  /** Every row of the set, once, newest first. */
  ghost predicate Visits(rows: seq<Row>, all: set<Row>) {
    Descending(rows) && forall r :: r in rows <==> r in all
  }

  // ----- One page -----

  lemma MillisOrder(r: Row, q: Row)
    ensures Cursor(r) <= r.sentAt
    ensures Millis(q) < Millis(r) ==> q.sentAt < Cursor(r)
    ensures q.sentAt < Cursor(r) ==> Millis(q) < Millis(r)
  {
  }

  /** What lies before the cursor of a page is what the page left over. */
  lemma PageLeaves(table: set<Row>, before: Option<int>, limit: nat, page: seq<Row>)
    requires DistinctMillis(table) && IsPage(table, before, limit, page) && page != []
    ensures Descending(page)
    ensures Eligible(table, Some(Cursor(page[|page| - 1]))) == Eligible(table, before) - set r | r in page
  {
    var last := page[|page| - 1];
    forall i, j | 0 <= i < j < |page| ensures page[i].sentAt > page[j].sentAt {
      assert page[i] in Eligible(table, before) && page[j] in Eligible(table, before);
    }
    forall r | r in table
      ensures r.sentAt < Cursor(last) <==> r in Eligible(table, before) && r !in page
    {
      MillisOrder(last, r);
      assert last in Eligible(table, before);
      if r in page {
        var i :| 0 <= i < |page| && page[i] == r;
        assert i == |page| - 1 || r.sentAt >= last.sentAt;
      } else if r in Eligible(table, before) {
        assert r.sentAt <= last.sentAt && Millis(r) != Millis(last);
      }
    }
  }

  /** New messages stay out of every page but the first. */
  lemma NewerStaysOut(start: set<Row>, table: set<Row>, last: Row)
    requires OnlyNewer(start, table) && last in start
    ensures Eligible(table, Some(Cursor(last))) == Eligible(start, Some(Cursor(last)))
  {
    forall q | q in table && q.sentAt < Cursor(last) ensures q in start {
      MillisOrder(last, q);
    }
  }

  // ----- The whole walk -----

  /** Walking back visits every message that was there at the first call exactly once, newest first, however many new
      messages arrive meanwhile, if times are distinct to the millisecond. */
  lemma {:induction false} WalkVisitsAll(start: set<Row>, tables: seq<set<Row>>, before: Option<int>, limit: nat,
                                         pages: seq<seq<Row>>)
    requires limit >= 1 && DistinctMillis(start)
    requires IsWalk(tables, before, limit, pages)
    requires forall k :: 0 <= k < |tables| ==> OnlyNewer(start, tables[k])
    requires Eligible(tables[0], before) == Eligible(start, before)
    ensures Visits(Flatten(pages), Eligible(start, before))
    decreases |pages|
  {
    var page := pages[0];
    if page == [] {
      assert Flatten(pages[1..]) == [];
      assert |Eligible(tables[0], before)| == 0;
    } else {
      var last, rest := page[|page| - 1], Flatten(pages[1..]);
      SameEligiblePage(start, tables[0], before, limit, page);
      NewerStaysOut(start, tables[1], last);
      WalkVisitsAll(start, tables[1..], Some(Cursor(last)), limit, pages[1..]);
      PageThenRest(start, before, limit, page, rest);
      assert Flatten(pages) == page + rest;
    }
  }

  lemma PageThenRest(start: set<Row>, before: Option<int>, limit: nat, page: seq<Row>, rest: seq<Row>)
    requires DistinctMillis(start) && IsPage(start, before, limit, page) && page != []
    requires Visits(rest, Eligible(start, Some(Cursor(page[|page| - 1]))))
    ensures Visits(page + rest, Eligible(start, before))
  {
    PageLeaves(start, before, limit, page);
    RestIsOlder(start, page[|page| - 1], rest);
    Prepend(page, rest, Eligible(start, before));
  }

  lemma SameEligiblePage(start: set<Row>, table: set<Row>, before: Option<int>, limit: nat, page: seq<Row>)
    requires Eligible(table, before) == Eligible(start, before) && IsPage(table, before, limit, page)
    ensures IsPage(start, before, limit, page)
    ensures forall i :: 0 <= i < |page| ==> page[i] in start && page[i] in Eligible(start, before)
  {
  }

  lemma RestIsOlder(start: set<Row>, last: Row, rest: seq<Row>)
    requires Visits(rest, Eligible(start, Some(Cursor(last))))
    ensures forall r :: r in rest ==> r.sentAt < last.sentAt
  {
  }

  lemma Prepend(page: seq<Row>, rest: seq<Row>, all: set<Row>)
    requires page != [] && Descending(page)
    requires forall i :: 0 <= i < |page| ==> page[i] in all
    requires Visits(rest, all - set r | r in page)
    requires forall r :: r in rest ==> r.sentAt < page[|page| - 1].sentAt
    ensures Visits(page + rest, all)
  {
    var rows := page + rest;
    forall i, j | 0 <= i < j < |rows| ensures rows[i].sentAt > rows[j].sentAt {
      if j >= |page| {
        assert rows[j] == rest[j - |page|] && rows[j] in rest;
        if i >= |page| {
          assert rows[i] == rest[i - |page|];
        } else {
          assert i == |page| - 1 || page[i].sentAt > page[|page| - 1].sentAt;
        }
      }
    }
  }

  // ----- Every walk comes to an end -----

  /** A walk that is still going on: every page so far had messages, and the next one may have some too. */
  ghost predicate IsOpenWalk(tables: seq<set<Row>>, before: Option<int>, limit: nat, pages: seq<seq<Row>>)
    decreases |pages|
  {
    && |tables| == |pages|
    && (pages != [] ==>
          && IsPage(tables[0], before, limit, pages[0]) && pages[0] != []
          && IsOpenWalk(tables[1..], Some(Cursor(pages[0][|pages[0]| - 1])), limit, pages[1..]))
  }

  /** Whatever a page returned lies at or behind its own cursor, so the rest of the walk has that much less to see. */
  lemma PageShrinks(table: set<Row>, before: Option<int>, limit: nat, page: seq<Row>)
    requires IsPage(table, before, limit, page) && page != []
    ensures |Eligible(table, Some(Cursor(page[|page| - 1])))| + |page| <= |Eligible(table, before)|
  {
    var eligible, last := Eligible(table, before), page[|page| - 1];
    var left := Eligible(table, Some(Cursor(last)));
    var returned := set r | r in page;
    assert last in eligible;
    MillisOrder(last, last);
    assert forall i :: 0 <= i < |page| ==> page[i].sentAt >= last.sentAt;
    DistinctSize(page);
    SubsetSize(left + returned, eligible);
  }

  lemma {:induction false} DistinctSize(rows: seq<Row>)
    requires forall i, j :: 0 <= i < j < |rows| ==> rows[i] != rows[j]
    ensures |set r | r in rows| == |rows|
  {
    if rows != [] {
      var first, n := rows[..|rows| - 1], |rows| - 1;
      DistinctSize(first);
      assert (set r | r in rows) == (set r | r in first) + {rows[n]};
    }
  }

  /** However long a client goes on, and whatever arrives meanwhile, the pages with messages are at most as many as
      the messages of the first call, and so are the messages in them.  Times need not be distinct for this. */
  lemma {:induction false} WalkTerminates(start: set<Row>, tables: seq<set<Row>>, before: Option<int>, limit: nat,
                                          pages: seq<seq<Row>>)
    requires IsOpenWalk(tables, before, limit, pages)
    requires forall k :: 0 <= k < |tables| ==> OnlyNewer(start, tables[k])
    requires tables != [] ==> Eligible(tables[0], before) == Eligible(start, before)
    ensures |pages| <= |Flatten(pages)| <= |Eligible(start, before)|
    decreases |pages|
  {
    if pages != [] {
      var last := pages[0][|pages[0]| - 1];
      SameEligiblePage(start, tables[0], before, limit, pages[0]);
      PageShrinks(start, before, limit, pages[0]);
      if tables[1..] != [] {
        NewerStaysOut(start, tables[1], last);
      }
      WalkTerminates(start, tables[1..], Some(Cursor(last)), limit, pages[1..]);
    }
  }

  /** A finished walk is an open one followed by one empty page. */
  lemma {:induction false} FinishedWalkIsOpen(tables: seq<set<Row>>, before: Option<int>, limit: nat,
                                              pages: seq<seq<Row>>)
    requires IsWalk(tables, before, limit, pages)
    ensures var n := |pages| - 1; pages[n] == [] && IsOpenWalk(tables[..n], before, limit, pages[..n])
    decreases |pages|
  {
    var n := |pages| - 1;
    if pages[0] != [] {
      var cursor := Some(Cursor(pages[0][|pages[0]| - 1]));
      FinishedWalkIsOpen(tables[1..], cursor, limit, pages[1..]);
      assert tables[..n] == [tables[0]] + tables[1..][..n - 1];
      assert pages[..n] == [pages[0]] + pages[1..][..n - 1];
      OpenWalkFrom(tables[0], tables[1..][..n - 1], before, limit, pages[0], pages[1..][..n - 1]);
    }
  }

  lemma OpenWalkFrom(table: set<Row>, tables: seq<set<Row>>, before: Option<int>, limit: nat,
                     page: seq<Row>, pages: seq<seq<Row>>)
    requires IsPage(table, before, limit, page) && page != []
    requires IsOpenWalk(tables, Some(Cursor(page[|page| - 1])), limit, pages)
    ensures IsOpenWalk([table] + tables, before, limit, [page] + pages)
  {
    assert ([table] + tables)[1..] == tables && ([page] + pages)[1..] == pages;
  }

  /** So a finished walk asks for at most one page more than there were messages at its first call. */
  lemma FinishedWalkPages(start: set<Row>, tables: seq<set<Row>>, before: Option<int>, limit: nat, pages: seq<seq<Row>>)
    requires IsWalk(tables, before, limit, pages)
    requires forall k :: 0 <= k < |tables| ==> OnlyNewer(start, tables[k])
    requires Eligible(tables[0], before) == Eligible(start, before)
    ensures |pages| <= |Eligible(start, before)| + 1
  {
    var n := |pages| - 1;
    FinishedWalkIsOpen(tables, before, limit, pages);
    WalkTerminates(start, tables[..n], before, limit, pages[..n]);
  }

  // ----- Why the milliseconds must differ -----

  /** Every later page stays below the cursor. */
  lemma {:induction false} WalkStaysBelow(tables: seq<set<Row>>, before: Option<int>, limit: nat, pages: seq<seq<Row>>,
                                          r: Row)
    requires IsWalk(tables, before, limit, pages) && r in Flatten(pages)
    ensures before.None? || r.sentAt < before.value
    decreases |pages|
  {
    if r in pages[0] {
      var i :| 0 <= i < |pages[0]| && pages[0][i] == r;
      assert r in Eligible(tables[0], before);
    } else {
      var last := pages[0][|pages[0]| - 1];
      WalkStaysBelow(tables[1..], Some(Cursor(last)), limit, pages[1..], r);
      MillisOrder(last, r);
      assert last in Eligible(tables[0], before);
    }
  }

  /** With pages of one message, two messages of the same millisecond are never both seen. */
  lemma {:induction false} SameMillisLost(tables: seq<set<Row>>, before: Option<int>, pages: seq<seq<Row>>, r: Row,
                                          q: Row)
    requires IsWalk(tables, before, 1, pages) && r != q && Millis(r) == Millis(q)
    ensures r !in Flatten(pages) || q !in Flatten(pages)
    decreases |pages|
  {
    if pages[0] != [] {
      var only := pages[0][0];
      var cursor := Some(Cursor(only));
      assert pages[0] == [only];
      SameMillisLost(tables[1..], cursor, pages[1..], r, q);
      if only == r && q in Flatten(pages[1..]) {
        WalkStaysBelow(tables[1..], cursor, 1, pages[1..], q);
        MillisOrder(only, q);
      }
      if only == q && r in Flatten(pages[1..]) {
        WalkStaysBelow(tables[1..], cursor, 1, pages[1..], r);
        MillisOrder(only, r);
      }
    }
  }

  lemma {:induction false} NewestRow(rows: set<Row>) returns (newest: Row)
    requires rows != {}
    ensures newest in rows && forall r :: r in rows ==> r.sentAt <= newest.sentAt
  {
    var x :| x in rows;
    newest := x;
    if rows != {x} {
      assert rows - {x} != {};
      var other := NewestRow(rows - {x});
      if other.sentAt > x.sentAt { newest := other; }
    }
  }

  /** A walk with pages of one message exists over every unchanging table. */
  lemma {:induction false} OneByOneWalk(table: set<Row>, before: Option<int>) returns (pages: seq<seq<Row>>)
    ensures IsWalk(seq(|pages|, i => table), before, 1, pages)
    decreases |Eligible(table, before)|
  {
    var eligible := Eligible(table, before);
    if eligible == {} {
      pages := [[]];
    } else {
      var newest := NewestRow(eligible);
      var cursor := Some(Cursor(newest));
      MillisOrder(newest, newest);
      assert Eligible(table, cursor) <= eligible - {newest};
      SubsetSize(Eligible(table, cursor), eligible - {newest});
      var rest := OneByOneWalk(table, cursor);
      pages := [[newest]] + rest;
      assert pages[1..] == rest;
      assert seq(|pages|, i => table)[1..] == seq(|rest|, i => table);
      assert |eligible| >= 1;
    }
  }

  /** A walk from the newest message while the table does not change. */
  ghost predicate IsStaticWalk(table: set<Row>, limit: nat, pages: seq<seq<Row>>) {
    IsWalk(seq(|pages|, i => table), None, limit, pages)
  }

  /** Every walk over an unchanging table, with every page size, sees everything. */
  ghost predicate AlwaysComplete(table: set<Row>) {
    forall limit: nat, pages :: limit >= 1 && IsStaticWalk(table, limit, pages) ==> Visits(Flatten(pages), table)
  }

  /** Paging is complete exactly when the times are distinct to the millisecond. */
  lemma CompleteIffDistinctMillis(table: set<Row>)
    ensures AlwaysComplete(table) <==> DistinctMillis(table)
  {
    if DistinctMillis(table) {
      forall limit: nat, pages | limit >= 1 && IsStaticWalk(table, limit, pages)
        ensures Visits(Flatten(pages), table)
      {
        WalkVisitsAll(table, seq(|pages|, i => table), None, limit, pages);
        assert Eligible(table, None) == table;
      }
    } else {
      var r, q :| r in table && q in table && r != q && Millis(r) == Millis(q);
      var pages := OneByOneWalk(table, None);
      SameMillisLost(seq(|pages|, i => table), None, pages, r, q);
      assert IsStaticWalk(table, 1, pages) && !Visits(Flatten(pages), table);
    }
  }

  // ----- A given page size -----

  /** No page of the walk ends between two messages of one millisecond: whatever is left is older than that. */
  ghost predicate CleanCuts(start: set<Row>, before: Option<int>, pages: seq<seq<Row>>)
    decreases |pages|
  {
    pages != [] && pages[0] != [] ==>
      var last := pages[0][|pages[0]| - 1];
      && (forall q :: q in Eligible(start, before) && q !in pages[0] ==> Millis(q) != Millis(last))
      && CleanCuts(start, Some(Cursor(last)), pages[1..])
  }

  /** The next cursor loses exactly the messages that share a millisecond with the last one of the page. */
  lemma PageKeeps(start: set<Row>, before: Option<int>, limit: nat, page: seq<Row>, q: Row)
    requires IsPage(start, before, limit, page) && page != []
    ensures var last := page[|page| - 1];
            q in Eligible(start, Some(Cursor(last))) <==>
            q in Eligible(start, before) && q !in page && Millis(q) != Millis(last)
  {
    var last := page[|page| - 1];
    MillisOrder(last, q);
    MillisOrder(last, last);
    assert last in Eligible(start, before);
    assert forall i :: 0 <= i < |page| ==> page[i].sentAt >= last.sentAt;
    assert q in Eligible(start, before) && q !in page ==> q.sentAt <= last.sentAt;
  }

  /** For any page size, a walk sees every message of its first call, whatever arrives meanwhile, exactly when no page
      ends between two messages of one millisecond. */
  lemma {:induction false} WalkCompleteIffCleanCuts(start: set<Row>, tables: seq<set<Row>>, before: Option<int>,
                                                    limit: nat, pages: seq<seq<Row>>)
    requires limit >= 1 && IsWalk(tables, before, limit, pages)
    requires forall k :: 0 <= k < |tables| ==> OnlyNewer(start, tables[k])
    requires Eligible(tables[0], before) == Eligible(start, before)
    ensures (forall r :: r in Eligible(start, before) ==> r in Flatten(pages)) <==> CleanCuts(start, before, pages)
    decreases |pages|
  {
    var page := pages[0];
    SameEligiblePage(start, tables[0], before, limit, page);
    if page == [] {
      assert |Eligible(start, before)| == 0;
    } else {
      var last, rest := page[|page| - 1], pages[1..];
      NewerStaysOut(start, tables[1], last);
      WalkCompleteIffCleanCuts(start, tables[1..], Some(Cursor(last)), limit, rest);
      forall q ensures q in Flatten(pages) <==> q in page || q in Flatten(rest) {}
      forall q
        ensures q in Eligible(start, Some(Cursor(last))) <==>
                q in Eligible(start, before) && q !in page && Millis(q) != Millis(last)
      {
        PageKeeps(start, before, limit, page, q);
      }
      forall q | q in Flatten(rest) && q in start ensures q in Eligible(start, Some(Cursor(last))) {
        WalkStaysBelow(tables[1..], Some(Cursor(last)), limit, rest, q);
      }
    }
  }

  /** The cursor is the message's time with its last three digits cut off. */
  lemma CursorLosesMicros(r: Row)
    ensures Cursor(r) % 1000 == 0 && Cursor(r) <= r.sentAt < Cursor(r) + 1000
    ensures Millis(r) * 1000 == Cursor(r)
  {
  }
}
