/** Following nextCursor page by page: over a table that stands still, and over one that is written to meanwhile. */
module Walk {
  import opened Basics
  import opened Keyset

  // ---------- an unchanging table ----------

  /** The WHERE clause only ever narrows along a walk, whatever the order. */
  lemma PastNarrows(o: Order, c: Cursor, last: Row, r: Row)
    requires c.order == o && Past(c, last) && Past(CursorFor(o, last), r)
    ensures Past(c, r)
  {
  }

  lemma PastIsIrreflexive(o: Order, last: Row)
    ensures !Past(CursorFor(o, last), last)
  {
  }

  /** A page's rows match its cursor, and what matches the next cursor also matched this one. */
  lemma NextMatchesLess(query: Order, t: set<Row>, cursor: Option<Cursor>, limit: nat)
    requires UniqueIds(t) && limit >= 1
    ensures var p := List(query, t, cursor, limit);
            && (forall r :: r in p.data ==> r in Matching(t, cursor))
            && (p.nextCursor.Some? ==> Matching(t, p.nextCursor) < Matching(t, cursor))
  {
    var o := EffectiveOrder(query, cursor);
    var p := List(query, t, cursor, limit);
    var s := Sorted(o, Matching(t, cursor));
    forall r | r in p.data ensures r in s { }
    if p.nextCursor.Some? {
      var last := p.data[|p.data| - 1];
      assert last in p.data;
      PastIsIrreflexive(o, last);
      forall r | r in Matching(t, p.nextCursor) ensures r in Matching(t, cursor) {
        if cursor.Some? { PastNarrows(o, cursor.value, last, r); }
      }
    }
  }

  /** All pages from a cursor on. */
  ghost function Pages(query: Order, t: set<Row>, cursor: Option<Cursor>, limit: nat): seq<Page>
    requires UniqueIds(t) && limit >= 1
    decreases Matching(t, cursor)
  {
    var p := List(query, t, cursor, limit);
    if p.nextCursor.None? then [p]
    else
      assert Matching(t, p.nextCursor) < Matching(t, cursor) by { NextMatchesLess(query, t, cursor, limit); }
      [p] + Pages(query, t, p.nextCursor, limit)
  }

  function Data(pages: seq<Page>): seq<Row> {
    if pages == [] then [] else pages[0].data + Data(pages[1..])
  }

  /** The same pages as the client sees them after the VIP/unread filter. */
  function ShownData(pages: seq<Page>): seq<Row> {
    if pages == [] then [] else Shown(pages[0].data) + ShownData(pages[1..])
  }

  lemma {:induction false} PagesStayInside(query: Order, t: set<Row>, cursor: Option<Cursor>, limit: nat, r: Row)
    requires UniqueIds(t) && limit >= 1 && r in Data(Pages(query, t, cursor, limit))
    ensures r in Matching(t, cursor)
    decreases Matching(t, cursor)
  {
    var p := List(query, t, cursor, limit);
    NextMatchesLess(query, t, cursor, limit);
    if p.nextCursor.None? {
      assert Data([p]) == p.data;
    } else {
      var rest := Pages(query, t, p.nextCursor, limit);
      assert ([p] + rest)[1..] == rest;
      if r !in p.data {
        PagesStayInside(query, t, p.nextCursor, limit, r);
      }
    }
  }

  /** Every limit-th row of the listing, from position k, can end a page without a null boundary behind it. */
  ghost predicate CleanCuts(o: Order, t: set<Row>, k: nat, limit: nat)
    requires UniqueIds(t) && limit >= 1
    decreases |Sorted(o, t)| - k
  {
    var s := Sorted(o, t);
    k + limit < |s| ==> CleanCut(o, t, s[k + limit - 1]) && CleanCuts(o, t, k + limit, limit)
  }

  function PageCount(n: nat, limit: nat): nat
    requires limit >= 1
    decreases n
  {
    if n <= limit then 1 else 1 + PageCount(n - limit, limit)
  }

  /** The page count is the ceiling of n / limit, and one for an empty table. */
  lemma {:induction false} PageCountIsCeiling(n: nat, limit: nat)
    requires limit >= 1
    ensures var c := PageCount(n, limit);
            if n == 0 then c == 1 else (c - 1) * limit < n <= c * limit
    decreases n
  {
    if n > limit {
      var c := PageCount(n - limit, limit);
      PageCountIsCeiling(n - limit, limit);
      assert (c + 1) * limit == c * limit + limit && (c + 1 - 1) * limit == (c - 1) * limit + limit;
    }
  }

  lemma SamePrefix(a: seq<Row>, b: seq<Row>, c: seq<Row>)
    ensures a + b == a + c <==> b == c
  {
    assert b == (a + b)[|a|..] && c == (a + c)[|a|..];
  }

  /** The rows listed from position k on, and in how many pages. */
  ghost function RowsFrom(o: Order, query: Order, t: set<Row>, k: nat, limit: nat): seq<Row>
    requires UniqueIds(t) && limit >= 1 && k <= |Sorted(o, t)|
  {
    Data(Pages(query, t, CursorAt(o, Sorted(o, t), k), limit))
  }

  ghost function PagesFrom(o: Order, query: Order, t: set<Row>, k: nat, limit: nat): nat
    requires UniqueIds(t) && limit >= 1 && k <= |Sorted(o, t)|
  {
    |Pages(query, t, CursorAt(o, Sorted(o, t), k), limit)|
  }

  /** The pages from position k are the page at k, then the pages from its end. */
  lemma PagesAt(o: Order, query: Order, t: set<Row>, k: nat, limit: nat)
    requires UniqueIds(t) && limit >= 1 && k <= |Sorted(o, t)| && (k == 0 ==> query == o)
    requires k > 0 ==> CleanCut(o, t, Sorted(o, t)[k - 1])
    ensures k + limit >= |Sorted(o, t)| ==>
              RowsFrom(o, query, t, k, limit) == Sorted(o, t)[k..] && PagesFrom(o, query, t, k, limit) == 1
    ensures k + limit < |Sorted(o, t)| ==>
              && RowsFrom(o, query, t, k, limit)
                   == Sorted(o, t)[k..k + limit] + RowsFrom(o, query, t, k + limit, limit)
              && PagesFrom(o, query, t, k, limit) == 1 + PagesFrom(o, query, t, k + limit, limit)
  {
    hide List, CleanCut, Before, Increasing;
    var s := Sorted(o, t);
    var p := List(query, t, CursorAt(o, s, k), limit);
    PageAt(o, query, t, k, limit);
    if k + limit >= |s| {
      assert s[k..|s|] == s[k..] && Data([p]) == p.data;
    } else {
      var rest := Pages(query, t, CursorAt(o, s, k + limit), limit);
      assert ([p] + rest)[1..] == rest;
    }
  }

  /** A row lost at a null boundary does not come back on any later page. */
  lemma LostAtBoundary(o: Order, query: Order, t: set<Row>, e: nat, limit: nat)
    requires UniqueIds(t) && limit >= 1 && 0 < e <= |Sorted(o, t)|
    requires !CleanCut(o, t, Sorted(o, t)[e - 1])
    ensures RowsFrom(o, query, t, e, limit) != Sorted(o, t)[e..]
  {
    var s := Sorted(o, t);
    var lost :| lost in t && NullBoundary(o, s[e - 1], lost);
    PastIsStrictlyAfter(o, s[e - 1], lost);
    SuffixMembers(o, s, e, lost);
    var data := Data(Pages(query, t, CursorAt(o, s, e), limit));
    assert lost in s[e..] && lost !in Matching(t, CursorAt(o, s, e));
    if lost in data {
      PagesStayInside(query, t, CursorAt(o, s, e), limit, lost);
    }
  }

  /** From a clean position on, the walk lists exactly what is left if and only if no later cut loses a row. */
  lemma {:induction false} WalkFrom(o: Order, query: Order, t: set<Row>, k: nat, limit: nat)
    requires UniqueIds(t) && limit >= 1 && k <= |Sorted(o, t)| && (k == 0 ==> query == o)
    requires k > 0 ==> CleanCut(o, t, Sorted(o, t)[k - 1])
    ensures RowsFrom(o, query, t, k, limit) == Sorted(o, t)[k..] <==> CleanCuts(o, t, k, limit)
    decreases |Sorted(o, t)| - k
  {
    hide RowsFrom, PagesFrom, Before, Increasing;
    var s := Sorted(o, t);
    var e := k + limit;
    PagesAt(o, query, t, k, limit);
    if e < |s| {
      assert s[k..] == s[k..e] + s[e..];
      SamePrefix(s[k..e], RowsFrom(o, query, t, e, limit), s[e..]);
      if CleanCut(o, t, s[e - 1]) {
        WalkFrom(o, query, t, e, limit);
      } else {
        LostAtBoundary(o, query, t, e, limit);
      }
    }
  }

  lemma {:induction false} CleanWalkLength(o: Order, query: Order, t: set<Row>, k: nat, limit: nat)
    requires UniqueIds(t) && limit >= 1 && k <= |Sorted(o, t)| && (k == 0 ==> query == o)
    requires k > 0 ==> CleanCut(o, t, Sorted(o, t)[k - 1])
    requires CleanCuts(o, t, k, limit)
    ensures PagesFrom(o, query, t, k, limit) == PageCount(|Sorted(o, t)| - k, limit)
    decreases |Sorted(o, t)| - k
  {
    hide RowsFrom, PagesFrom, Before, Increasing;
    PagesAt(o, query, t, k, limit);
    if k + limit < |Sorted(o, t)| {
      CleanWalkLength(o, query, t, k + limit, limit);
    }
  }

  lemma DatedIsClean(o: Order, t: set<Row>, k: nat, limit: nat)
    requires UniqueIds(t) && limit >= 1 && Dated(o, t)
    ensures CleanCuts(o, t, k, limit)
    decreases |Sorted(o, t)| - k
  {
    var s := Sorted(o, t);
    if k + limit < |s| {
      assert s[k + limit - 1] in s;
      DatedIsClean(o, t, k + limit, limit);
    }
  }

  /**
   * A walk over an unchanging table lists the sorted table, each row once, exactly when no page cut is a
   * null boundary; it then takes the least number of pages that can hold them, and at least one.
   */
  lemma WalkIsSortedTable(o: Order, t: set<Row>, limit: nat)
    requires UniqueIds(t) && limit >= 1
    ensures var pages := Pages(o, t, None, limit);
            && (Data(pages) == Sorted(o, t) <==> CleanCuts(o, t, 0, limit))
            && (CleanCuts(o, t, 0, limit) ==> |pages| == PageCount(|t|, limit))
  {
    hide Pages, Data, CleanCuts, Before, Increasing;
    WalkFrom(o, o, t, 0, limit);
    assert Sorted(o, t)[0..] == Sorted(o, t);
    if CleanCuts(o, t, 0, limit) {
      CleanWalkLength(o, o, t, 0, limit);
    }
  }

  /** In particular it always does for the other three orders, and for dated conversations. */
  lemma DatedWalkIsSortedTable(o: Order, t: set<Row>, limit: nat)
    requires UniqueIds(t) && limit >= 1 && Dated(o, t)
    ensures var pages := Pages(o, t, None, limit);
            Data(pages) == Sorted(o, t) && |pages| == PageCount(|t|, limit)
  {
    DatedIsClean(o, t, 0, limit);
    WalkIsSortedTable(o, t, limit);
  }

  lemma {:induction false} ShownDataIsFiltered(pages: seq<Page>)
    ensures ShownData(pages) == Shown(Data(pages))
  {
    if pages == [] {
    } else {
      ShownDataIsFiltered(pages[1..]);
      ShownConcat(pages[0].data, Data(pages[1..]));
    }
  }

  /** The VIP/unread-filtered walk yields the filtered order, however short its pages come out. */
  lemma ShownWalkIsFilteredTable(o: Order, t: set<Row>, limit: nat)
    requires UniqueIds(t) && limit >= 1 && Dated(o, t)
    ensures ShownData(Pages(o, t, None, limit)) == Shown(Sorted(o, t))
  {
    DatedWalkIsSortedTable(o, t, limit);
    ShownDataIsFiltered(Pages(o, t, None, limit));
  }

  /** Walking up and walking down are mirror images, nulls included. */
  lemma AscendingWalkMirrorsDescending(o: Order, t: set<Row>, limit: nat)
    requires UniqueIds(t) && limit >= 1 && (o.Single? || o.Nullable?)
    ensures Data(Pages(Flip(o), t, None, limit)) == Reverse(Data(Pages(o, t, None, limit)))
  {
    DatedWalkIsSortedTable(o, t, limit);
    DatedWalkIsSortedTable(Flip(o), t, limit);
    AscendingIsReversedDescending(o, t);
  }

  // ---------- a table written to between the fetches ----------

  /** One request: the order and the limit its query string asks for, and the table as the database sees it then. */
  datatype Fetch = Fetch(query: Order, limit: nat, table: set<Row>)

  datatype Progress = Progress(cursor: Option<Cursor>, emitted: seq<Row>, done: bool)

  ghost predicate Readable(o: Order, fs: seq<Fetch>) {
    && (fs != [] ==> fs[0].query == o)
    && forall f :: f in fs ==> f.limit >= 1 && UniqueIds(f.table) && Dated(o, f.table)
  }

  ghost function Advance(p: Progress, f: Fetch): Progress
    requires UniqueIds(f.table)
  {
    if p.done then p
    else
      var page := List(f.query, f.table, p.cursor, f.limit);
      Progress(if page.nextCursor.Some? then page.nextCursor else p.cursor,
               p.emitted + page.data, page.nextCursor.None?)
  }

  /** The state of a walk after these fetches; the table may be any other at each of them. */
  ghost function WalkOver(o: Order, fs: seq<Fetch>): Progress
    requires Readable(o, fs)
  {
    if fs == [] then Progress(None, [], false)
    else Advance(WalkOver(o, fs[..|fs| - 1]), fs[|fs| - 1])
  }

  ghost predicate OnTrack(o: Order, fs: seq<Fetch>, p: Progress) {
    && Increasing(o, p.emitted)
    && (p.cursor.Some? ==> p.emitted != [] && p.cursor.value.order == o)
    && (p.cursor.Some? && !p.done ==> p.cursor.value == CursorFor(o, p.emitted[|p.emitted| - 1]))
    && (p.cursor.None? && !p.done ==> fs == [] && p.emitted == [])
  }

  lemma AppendIncreasing(o: Order, a: seq<Row>, b: seq<Row>)
    requires Increasing(o, a) && Increasing(o, b)
    requires a != [] ==> forall r :: r in b ==> Before(o, a[|a| - 1], r)
    ensures Increasing(o, a + b)
  {
    var e := a + b;
    forall i, j | 0 <= i < j < |e|
      ensures Before(o, e[i], e[j])
    {
      if i < |a| <= j {
        assert e[j] in b;
        if i < |a| - 1 { BeforeIsTransitive(o, a[i], a[|a| - 1], e[j]); }
      }
    }
  }

  lemma PageIsIncreasing(query: Order, t: set<Row>, cursor: Option<Cursor>, limit: nat)
    requires UniqueIds(t)
    ensures Increasing(EffectiveOrder(query, cursor), List(query, t, cursor, limit).data)
  {
  }

  lemma AdvanceKeepsTrack(o: Order, fs: seq<Fetch>, p: Progress, f: Fetch)
    requires OnTrack(o, fs, p) && !p.done && f.limit >= 1
    requires UniqueIds(f.table) && Dated(o, f.table) && (fs == [] ==> f.query == o)
    ensures OnTrack(o, fs + [f], Advance(p, f))
  {
    var page := List(f.query, f.table, p.cursor, f.limit);
    NextMatchesLess(f.query, f.table, p.cursor, f.limit);
    PageIsIncreasing(f.query, f.table, p.cursor, f.limit);
    forall r | p.emitted != [] && r in page.data
      ensures Before(o, p.emitted[|p.emitted| - 1], r)
    {
      PastIsStrictlyAfter(o, p.emitted[|p.emitted| - 1], r);
    }
    AppendIncreasing(o, p.emitted, page.data);
  }

  lemma {:induction false} WalkIsOnTrack(o: Order, fs: seq<Fetch>)
    requires Readable(o, fs)
    ensures OnTrack(o, fs, WalkOver(o, fs))
  {
    if fs == [] {
    } else {
      var pre, f := fs[..|fs| - 1], fs[|fs| - 1];
      WalkIsOnTrack(o, pre);
      assert pre + [f] == fs;
      if !WalkOver(o, pre).done {
        AdvanceKeepsTrack(o, pre, WalkOver(o, pre), f);
      }
    }
  }

  ghost predicate HasKey(o: Order, rows: set<Row>, key: Cursor) {
    exists r :: r in rows && CursorFor(o, r) == key
  }

  /** A row with this position in the order has been returned. */
  ghost predicate Emitted(o: Order, p: Progress, key: Cursor) {
    exists i :: 0 <= i < |p.emitted| && CursorFor(o, p.emitted[i]) == key
  }

  /** ... or is still to come, wherever the row with that position will be then. */
  ghost predicate StillAhead(o: Order, p: Progress, key: Cursor) {
    !p.done && (p.cursor.Some? ==> forall r :: CursorFor(o, r) == key ==> Past(p.cursor.value, r))
  }

  /** A matching row is on the page, or past the page's cursor. */
  lemma OnThePageOrPast(query: Order, t: set<Row>, cursor: Option<Cursor>, limit: nat, row: Row)
    requires UniqueIds(t) && limit >= 1 && row in Matching(t, cursor)
    requires Dated(EffectiveOrder(query, cursor), t)
    ensures var page := List(query, t, cursor, limit);
            row in page.data || (page.nextCursor.Some? && Past(page.nextCursor.value, row))
  {
    hide Before, Past, CursorFor;
    var o := EffectiveOrder(query, cursor);
    var s := Sorted(o, Matching(t, cursor));
    var i :| 0 <= i < |s| && s[i] == row;
    if |s| <= limit {
      assert row in s;
    } else if i < limit {
      assert s[..limit][i] == row;
    } else {
      assert s[limit - 1] in s;
      PastIsStrictlyAfter(o, s[limit - 1], row);
    }
  }

  /** The next cursor is minted for the order the page was listed in. */
  lemma CursorKeepsOrder(query: Order, t: set<Row>, cursor: Option<Cursor>, limit: nat)
    requires UniqueIds(t)
    ensures var next := List(query, t, cursor, limit).nextCursor;
            next.Some? ==> next.value.order == EffectiveOrder(query, cursor)
  {
  }

  lemma SamePositionSamePast(o: Order, c: Cursor, a: Row, b: Row)
    requires c.order == o && CursorFor(o, a) == CursorFor(o, b)
    ensures Past(c, a) <==> Past(c, b)
  {
  }

  lemma AdvanceReaches(o: Order, fs: seq<Fetch>, p: Progress, f: Fetch, key: Cursor)
    requires OnTrack(o, fs, p) && !p.done && f.limit >= 1
    requires UniqueIds(f.table) && Dated(o, f.table) && (fs == [] ==> f.query == o)
    requires HasKey(o, f.table, key) && StillAhead(o, p, key)
    ensures Emitted(o, Advance(p, f), key) || StillAhead(o, Advance(p, f), key)
  {
    hide Before, Past, CursorFor, List, Increasing;
    var row :| row in f.table && CursorFor(o, row) == key;
    OnThePageOrPast(f.query, f.table, p.cursor, f.limit, row);
    CursorKeepsOrder(f.query, f.table, p.cursor, f.limit);
    var page := List(f.query, f.table, p.cursor, f.limit);
    if row in page.data {
      var i :| 0 <= i < |page.data| && page.data[i] == row;
      assert (p.emitted + page.data)[|p.emitted| + i] == row;
    } else {
      forall r | CursorFor(o, r) == key ensures Past(page.nextCursor.value, r) {
        SamePositionSamePast(o, page.nextCursor.value, row, r);
      }
    }
  }

  lemma {:induction false} WalkReaches(o: Order, fs: seq<Fetch>, key: Cursor)
    requires Readable(o, fs)
    requires forall f :: f in fs ==> HasKey(o, f.table, key)
    ensures Emitted(o, WalkOver(o, fs), key) || StillAhead(o, WalkOver(o, fs), key)
  {
    if fs == [] {
    } else {
      var pre, f := fs[..|fs| - 1], fs[|fs| - 1];
      var p := WalkOver(o, pre);
      WalkReaches(o, pre, key);
      WalkIsOnTrack(o, pre);
      if Emitted(o, p, key) {
        var i :| 0 <= i < |p.emitted| && CursorFor(o, p.emitted[i]) == key;
        assert WalkOver(o, fs).emitted[i] == p.emitted[i];
      } else {
        AdvanceReaches(o, pre, p, f, key);
      }
    }
  }

  /**
   * Whatever is inserted, deleted or updated between the fetches, and whatever order and limit the later query
   * strings ask for: rows come out in strictly increasing position, and a finished walk has returned every position
   * that was occupied at each fetch, exactly once.
   */
  lemma WalkUnderWrites(o: Order, fs: seq<Fetch>)
    requires Readable(o, fs)
    ensures Increasing(o, WalkOver(o, fs).emitted)
    ensures WalkOver(o, fs).done ==>
              forall key :: (forall f :: f in fs ==> HasKey(o, f.table, key)) ==>
                Emitted(o, WalkOver(o, fs), key)
    ensures forall i, j :: 0 <= i < j < |WalkOver(o, fs).emitted| ==>
              CursorFor(o, WalkOver(o, fs).emitted[i]) != CursorFor(o, WalkOver(o, fs).emitted[j])
  {
    WalkIsOnTrack(o, fs);
    var p := WalkOver(o, fs);
    forall key | p.done && forall f :: f in fs ==> HasKey(o, f.table, key)
      ensures Emitted(o, p, key)
    {
      WalkReaches(o, fs, key);
    }
    forall i, j | 0 <= i < j < |p.emitted|
      ensures CursorFor(o, p.emitted[i]) != CursorFor(o, p.emitted[j])
    {
      assert Before(o, p.emitted[i], p.emitted[j]);
      PastIsStrictlyAfter(o, p.emitted[i], p.emitted[j]);
    }
  }
}
