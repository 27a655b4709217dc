/**
 * The inbox's conversation list: fresh loads, realtime merges and "load more" requests whose answers come back in
 * any order or not at all, guarded by a generation counter.
 */
module InboxConversations {
  import opened Basics
  import opened Keyset
  import opened InboxPagination

  // ---------- the protocol ----------

  /** `conversationsRequestIdRef` and the list, cursor and has-more state. */
  datatype Client = Client(gen: nat, list: seq<Row>, cursor: Option<Cursor>, hasMore: bool)

  /** A request in flight, with the generation (and cursor) its handler captured when it started. */
  datatype Request = Fresh(gen: nat) | Nudge(gen: nat) | More(gen: nat, cursor: Cursor)

  /** What a handler does when its answer comes back. */
  function Resolve(c: Client, q: Request, r: Reply): Client {
    if r.Failed? || q.gen != c.gen then c
    else match q
      case Fresh(_) => Client(c.gen, r.page.data, r.page.nextCursor, r.page.hasMore)
      case Nudge(_) => c.(list := MergeFreshPage(c.list, r.page.data))
      case More(_, _) => Client(c.gen, AppendPage(c.list, r.page.data), r.page.nextCursor, r.page.hasMore)
  }

  /** `exhausted` records that the current generation has applied a last page. */
  datatype System = System(client: Client, inflight: seq<Request>, exhausted: bool)

  /** An answer is a failure, or the page the server computes from the table as it is at that moment. */
  datatype Event = Refresh | Realtime | LoadMore | Arrive(i: nat, table: Option<set<Row>>)

  ghost predicate Answerable(e: Event) {
    e.Arrive? && e.table.Some? ==> UniqueIds(e.table.value)
  }

  function RequestCursor(q: Request): Option<Cursor> { if q.More? then Some(q.cursor) else None }

  ghost function Answer(o: Order, limit: nat, q: Request, table: Option<set<Row>>): Reply
    requires table.Some? ==> UniqueIds(table.value)
  {
    if table.None? then Failed else Got(ListShown(o, table.value, RequestCursor(q), limit))
  }

  ghost function Step(o: Order, limit: nat, s: System, e: Event): System
    requires Answerable(e)
  {
    var c := s.client;
    match e
    case Refresh => System(Client(c.gen + 1, c.list, None, false), s.inflight + [Fresh(c.gen + 1)], false)
    case Realtime => s.(inflight := s.inflight + [Nudge(c.gen)])
    case LoadMore =>
      if !c.hasMore || c.cursor.None? then s else s.(inflight := s.inflight + [More(c.gen, c.cursor.value)])
    case Arrive(i, table) =>
      if i >= |s.inflight| then s
      else
        var q := s.inflight[i];
        var r := Answer(o, limit, q, table);
        var last := r.Got? && q.gen == c.gen && !q.Nudge? && r.page.nextCursor.None?;
        System(Resolve(c, q, r), Drop(s.inflight, i), s.exhausted || last)
  }

  ghost function Run(o: Order, limit: nat, s: System, es: seq<Event>): System
    requires forall i :: 0 <= i < |es| ==> Answerable(es[i])
    decreases es
  {
    if es == [] then s else Run(o, limit, Step(o, limit, s, es[0]), es[1..])
  }

  /** The list before the first load. */
  function Mounted(): System { System(Client(0, [], None, false), [], false) }

  // ---------- over an unchanging table ----------

  /** The canonical list: the whole table in the server's order, filtered. */
  ghost function Canonical(o: Order, t: set<Row>): seq<Row>
    requires UniqueIds(t)
  {
    Shown(Sorted(o, t))
  }

  /** The cursor stands at a page end that the list already reaches. */
  ghost predicate Reached(o: Order, t: set<Row>, list: seq<Row>, c: Cursor)
    requires UniqueIds(t)
  {
    exists k ::
      0 < k < |Sorted(o, t)| && CursorAt(o, Sorted(o, t), k) == Some(c) && |Shown(Sorted(o, t)[..k])| <= |list|
  }

  ghost predicate ListIsPrefix(o: Order, t: set<Row>, c: Client)
    requires UniqueIds(t)
  {
    c.list <= Canonical(o, t) && (c.cursor.Some? ==> Reached(o, t, c.list, c.cursor.value))
  }

  /** While the current generation's fresh load is out, it is alone: there is no cursor to load more with. */
  ghost predicate FreshIsAlone(s: System) {
    var c := s.client;
    && (forall q :: q in s.inflight ==> q.gen <= c.gen)
    && (Fresh(c.gen) in s.inflight ==>
          c.cursor.None? && !s.exhausted && forall q :: q in s.inflight && q.gen == c.gen ==> !q.More?)
    && (forall i, j :: 0 <= i < j < |s.inflight| && s.inflight[i] == Fresh(c.gen) ==> s.inflight[j] != Fresh(c.gen))
  }

  ghost predicate Faithful(o: Order, t: set<Row>, s: System)
    requires UniqueIds(t)
  {
    && FreshIsAlone(s)
    && ListIsPrefix(o, t, s.client)
    && (s.exhausted ==> s.client.list == Canonical(o, t))
    && (forall q :: q in s.inflight && q.More? && q.gen == s.client.gen ==> Reached(o, t, s.client.list, q.cursor))
  }

  lemma {:induction false} ShownDistinct(rows: seq<Row>)
    requires DistinctIds(rows)
    ensures DistinctIds(Shown(rows))
  {
    if rows == [] {
    } else {
      var rest := Shown(rows[1..]);
      ShownDistinct(rows[1..]);
      forall j | 0 <= j < |rest| ensures rest[j].id != rows[0].id {
        ShownMember(rows[1..], rest[j]);
        assert rest[j] in rest;
      }
    }
  }

  /** The filtered rows k..e of the table are a stretch of the canonical list. */
  lemma ShownStretch(s: seq<Row>, k: nat, e: nat)
    requires k <= e <= |s|
    ensures |Shown(s[..k])| <= |Shown(s[..e])| <= |Shown(s)|
    ensures Shown(s[k..e]) == Shown(s)[|Shown(s[..k])|..|Shown(s[..e])|]
    ensures Shown(s[..e]) == Shown(s)[..|Shown(s[..e])|]
  {
    assert s == s[..e] + s[e..] && s[..e] == s[..k] + s[k..e];
    ShownConcat(s[..e], s[e..]);
    ShownConcat(s[..k], s[k..e]);
  }

  /** The page served at position k, filtered, and where its cursor stands. */
  lemma ShownPageAt(o: Order, t: set<Row>, k: nat, limit: nat)
    requires UniqueIds(t) && Dated(o, t) && limit >= 1 && k <= |Sorted(o, t)|
    ensures var s := Sorted(o, t);
            var e := Min(k + limit, |s|);
            ListShown(o, t, CursorAt(o, s, k), limit) ==
              Page(Shown(s[k..e]), if e < |s| then CursorAt(o, s, e) else None, e < |s|)
  {
    if k > 0 { assert Sorted(o, t)[k - 1] in Sorted(o, t); }
    PageAt(o, o, t, k, limit);
  }

  lemma CanonicalDistinct(o: Order, t: set<Row>)
    requires UniqueIds(t)
    ensures DistinctIds(Canonical(o, t))
  {
    SortedDistinct(o, t);
    ShownDistinct(Sorted(o, t));
  }

  /** The list that results from applying the page at a position the list reaches. */
  lemma AppliedPage(o: Order, t: set<Row>, list: seq<Row>, k: nat, limit: nat)
    requires UniqueIds(t) && Dated(o, t) && limit >= 1 && k <= |Sorted(o, t)|
    requires list <= Canonical(o, t) && |Shown(Sorted(o, t)[..k])| <= |list|
    ensures var s, all := Sorted(o, t), Canonical(o, t);
            var e := Min(k + limit, |s|);
            var b := |Shown(s[..e])|;
            && b <= |all|
            && AppendPage(list, Shown(s[k..e])) == all[..Max(|list|, b)]
            && (k == 0 ==> MergeFreshPage(list, Shown(s[k..e])) == all[..Max(|list|, b)] && Shown(s[k..e]) == all[..b])
            && (e == |s| ==> b == |all|)
  {
    var s, all := Sorted(o, t), Canonical(o, t);
    var e := Min(k + limit, |s|);
    var a, b := |Shown(s[..k])|, |Shown(s[..e])|;
    ShownStretch(s, k, e);
    CanonicalDistinct(o, t);
    hide Shown, DistinctIds, AppendPage, MergeFreshPage, IsSorted;
    assert list == all[..|list|];
    AppendToPrefix(all, |list|, a, b);
    MergePrefixes(all, |list|, b);
    if k == 0 { assert s[0..e] == s[..e]; }
    if e == |s| { assert s[..e] == s; }
  }

  /** What each handler makes of the page at position k, which the list reaches. */
  lemma ResolveAt(o: Order, t: set<Row>, c: Client, q: Request, k: nat, limit: nat)
    requires UniqueIds(t) && Dated(o, t) && limit >= 1 && k <= |Sorted(o, t)| && q.gen == c.gen
    requires c.list <= Canonical(o, t) && |Shown(Sorted(o, t)[..k])| <= |c.list|
    requires RequestCursor(q) == CursorAt(o, Sorted(o, t), k) && (!q.More? ==> k == 0)
    ensures var s := Sorted(o, t);
            var e := Min(k + limit, |s|);
            var b := |Shown(s[..e])|;
            var page := ListShown(o, t, RequestCursor(q), limit);
            var d := Resolve(c, q, Got(page));
            && b <= |Canonical(o, t)| && (e == |s| ==> b == |Canonical(o, t)|)
            && page.nextCursor == (if e < |s| then CursorAt(o, s, e) else None)
            && d.list == Canonical(o, t)[..if q.Fresh? then b else Max(|c.list|, b)]
            && (if q.Nudge? then d.cursor == c.cursor && d.hasMore == c.hasMore
                else d.cursor == page.nextCursor && d.hasMore == (e < |s|))
  {
    hide ListShown, Shown, IsSorted, AppendPage, MergeFreshPage, Canonical, Dated, CursorFor, UniqueIds;
    ShownPageAt(o, t, k, limit);
    AppliedPage(o, t, c.list, k, limit);
  }

  /** Applying the page at position k, which the list reaches, extends the prefix to that page's end. */
  lemma ResolveKeepsPrefix(o: Order, t: set<Row>, c: Client, q: Request, k: nat, limit: nat)
    requires UniqueIds(t) && Dated(o, t) && limit >= 1 && k <= |Sorted(o, t)| && q.gen == c.gen
    requires ListIsPrefix(o, t, c) && (!q.More? ==> k == 0)
    requires RequestCursor(q) == CursorAt(o, Sorted(o, t), k) && |Shown(Sorted(o, t)[..k])| <= |c.list|
    ensures var r := Got(ListShown(o, t, RequestCursor(q), limit));
            var d := Resolve(c, q, r);
            && ListIsPrefix(o, t, d)
            && (!q.Fresh? ==> |c.list| <= |d.list|)
            && (!q.Nudge? && r.page.nextCursor.None? ==> d.list == Canonical(o, t))
  {
    hide ListShown, Shown, IsSorted, Canonical, Dated, CursorFor, UniqueIds, Reached;
    ResolveAt(o, t, c, q, k, limit);
    var s, all := Sorted(o, t), Canonical(o, t);
    var e := Min(k + limit, |s|);
    var d := Resolve(c, q, Got(ListShown(o, t, RequestCursor(q), limit)));
    hide Resolve;
    if q.Nudge? {
      if c.cursor.Some? { ReachedByLonger(o, t, c.list, d.list, c.cursor.value); }
    } else if e < |s| {
      ReachedAt(o, t, d.list, e);
    }
  }

  lemma ReachedAt(o: Order, t: set<Row>, list: seq<Row>, k: nat)
    requires UniqueIds(t) && 0 < k < |Sorted(o, t)| && |Shown(Sorted(o, t)[..k])| <= |list|
    ensures CursorAt(o, Sorted(o, t), k).Some? && Reached(o, t, list, CursorAt(o, Sorted(o, t), k).value)
  {
  }

  /** Answers computed from this very table. */
  ghost predicate AnswersFrom(t: set<Row>, e: Event) {
    e.Arrive? && e.table.Some? ==> e.table.value == t
  }

  lemma ReachedByLonger(o: Order, t: set<Row>, short: seq<Row>, long: seq<Row>, c: Cursor)
    requires UniqueIds(t) && Reached(o, t, short, c) && |short| <= |long|
    ensures Reached(o, t, long, c)
  {
    var s := Sorted(o, t);
    var k :| 0 < k < |s| && CursorAt(o, s, k) == Some(c) && |Shown(s[..k])| <= |short|;
    assert |Shown(s[..k])| <= |long|;
  }

  lemma DropMember(s: seq<Request>, i: nat, q: Request)
    requires i < |s| && q in Drop(s, i)
    ensures q in s
  {
  }

  /** Who is in flight stays well ordered by any event, whatever the answers. */
  lemma StepKeepsFreshAlone(o: Order, limit: nat, s: System, e: Event)
    requires FreshIsAlone(s) && Answerable(e)
    ensures FreshIsAlone(Step(o, limit, s, e))
  {
    if e.Arrive? && e.i < |s.inflight| {
      var u := Step(o, limit, s, e);
      forall q | q in u.inflight ensures q in s.inflight { DropMember(s.inflight, e.i, q); }
      var q := s.inflight[e.i];
      if Fresh(s.client.gen) in u.inflight {
        var j :| 0 <= j < |u.inflight| && u.inflight[j] == Fresh(s.client.gen);
        assert u.inflight[j] == s.inflight[if j < e.i then j else j + 1];
      }
    }
  }

  /** The page an answer in the current generation brings starts where the list already is. */
  lemma ArriveKeepsFaithful(o: Order, limit: nat, t: set<Row>, s: System, i: nat)
    requires UniqueIds(t) && Dated(o, t) && limit >= 1
    requires Faithful(o, t, s) && i < |s.inflight| && s.inflight[i].gen == s.client.gen
    ensures var u := Step(o, limit, s, Arrive(i, Some(t)));
            ListIsPrefix(o, t, u.client) && (u.exhausted ==> u.client.list == Canonical(o, t))
    ensures var u := Step(o, limit, s, Arrive(i, Some(t)));
            s.inflight[i].Fresh? || |s.client.list| <= |u.client.list|
  {
    hide Canonical, Shown, ListShown, IsSorted, AppendPage, MergeFreshPage;
    var q := s.inflight[i];
    assert q in s.inflight;
    var k := 0;
    if q.More? {
      k :| 0 < k < |Sorted(o, t)| && CursorAt(o, Sorted(o, t), k) == Some(q.cursor)
           && |Shown(Sorted(o, t)[..k])| <= |s.client.list|;
    }
    ResolveKeepsPrefix(o, t, s.client, q, k, limit);
    if s.exhausted {
      assert !q.Fresh? by { assert q.Fresh? ==> q == Fresh(s.client.gen); }
      assert Resolve(s.client, q, Answer(o, limit, q, Some(t))).list <= Canonical(o, t);
    }
  }

  lemma StepKeepsFaithful(o: Order, limit: nat, t: set<Row>, s: System, e: Event)
    requires UniqueIds(t) && Dated(o, t) && limit >= 1
    requires Faithful(o, t, s) && AnswersFrom(t, e)
    ensures Faithful(o, t, Step(o, limit, s, e))
  {
    var u := Step(o, limit, s, e);
    StepKeepsFreshAlone(o, limit, s, e);
    if e.Arrive? && e.i < |s.inflight| {
      var q := s.inflight[e.i];
      assert q in s.inflight;
      forall r | r in u.inflight ensures r in s.inflight { DropMember(s.inflight, e.i, r); }
      if e.table.Some? && q.gen == s.client.gen {
        ArriveKeepsFaithful(o, limit, t, s, e.i);
        if !q.Fresh? {
          forall r | r in u.inflight && r.More? && r.gen == u.client.gen
            ensures Reached(o, t, u.client.list, r.cursor)
          {
            ReachedByLonger(o, t, s.client.list, u.client.list, r.cursor);
          }
        }
      }
    }
  }

  lemma {:induction false} RunKeepsFaithful(o: Order, limit: nat, t: set<Row>, s: System, es: seq<Event>)
    requires UniqueIds(t) && Dated(o, t) && limit >= 1 && Faithful(o, t, s)
    requires forall i :: 0 <= i < |es| ==> Answerable(es[i]) && AnswersFrom(t, es[i])
    ensures Faithful(o, t, Run(o, limit, s, es))
    decreases es
  {
    if es == [] {
    } else {
      StepKeepsFaithful(o, limit, t, s, es[0]);
      RunKeepsFaithful(o, limit, t, Step(o, limit, s, es[0]), es[1..]);
    }
  }

  /**
   * Over an unchanging table and one filter, after any interleaving of fresh loads, realtime merges, load-mores,
   * failures and late answers, the displayed list is a prefix of the canonical list, and all of it once the
   * current generation has applied a last page.
   */
  lemma ClientRefinesServer(o: Order, limit: nat, t: set<Row>, es: seq<Event>)
    requires UniqueIds(t) && Dated(o, t) && limit >= 1
    requires forall i :: 0 <= i < |es| ==> Answerable(es[i]) && AnswersFrom(t, es[i])
    ensures var s := Run(o, limit, Mounted(), es);
            s.client.list <= Canonical(o, t) && (s.exhausted ==> s.client.list == Canonical(o, t))
  {
    RunKeepsFaithful(o, limit, t, Mounted(), es);
  }

  // ---------- loading to the end ----------

  /** "Load more" and its answer, `n` times. */
  function Rounds(t: set<Row>, n: nat): seq<Event> {
    if n == 0 then [] else Rounds(t, n - 1) + [LoadMore, Arrive(0, Some(t))]
  }

  lemma {:induction false} RunConcat(o: Order, limit: nat, s: System, a: seq<Event>, b: seq<Event>)
    requires forall i :: 0 <= i < |a| ==> Answerable(a[i])
    requires forall i :: 0 <= i < |b| ==> Answerable(b[i])
    ensures Run(o, limit, s, a + b) == Run(o, limit, Run(o, limit, s, a), b)
    decreases a
  {
    hide Step;
    if a == [] {
      assert a + b == b;
    } else {
      assert (a + b)[0] == a[0] && (a + b)[1..] == a[1..] + b;
      RunConcat(o, limit, Step(o, limit, s, a[0]), a[1..], b);
    }
  }

  lemma TwoSteps(o: Order, limit: nat, s: System, e: Event, f: Event)
    requires Answerable(e) && Answerable(f)
    ensures Run(o, limit, s, [e, f]) == Step(o, limit, Step(o, limit, s, e), f)
  {
    hide Step;
    assert [e, f][1..] == [f] && [f][1..] == [];
    var m := Step(o, limit, s, e);
    assert Run(o, limit, m, [f]) == Run(o, limit, Step(o, limit, m, f), []);
  }

  lemma RoundsAnswerable(t: set<Row>, n: nat)
    requires UniqueIds(t)
    ensures forall i :: 0 <= i < |Rounds(t, n)| ==> Answerable(Rounds(t, n)[i])
  {
  }

  /** Nothing is in flight, and the list is what the first k rows of the table come to. */
  ghost predicate ShowsRows(o: Order, t: set<Row>, s: System, k: nat)
    requires UniqueIds(t)
  {
    var rows := Sorted(o, t);
    && k <= |rows| && s.inflight == []
    && s.client.list == Shown(rows[..k])
    && s.client.cursor == (if k < |rows| then CursorAt(o, rows, k) else None)
    && s.client.hasMore == (k < |rows|)
    && s.exhausted == (k == |rows|)
  }

  /** What a page taken in at position k makes of a list that shows exactly the rows before it. */
  lemma PageTaken(o: Order, t: set<Row>, c: Client, q: Request, k: nat, limit: nat)
    requires UniqueIds(t) && Dated(o, t) && limit >= 1 && k <= |t| && q.gen == c.gen && !q.Nudge?
    requires c.list == Shown(Sorted(o, t)[..k]) && RequestCursor(q) == CursorAt(o, Sorted(o, t), k)
    requires q.Fresh? ==> k == 0
    ensures var rows, e := Sorted(o, t), Min(k + limit, |t|);
            Resolve(c, q, Got(ListShown(o, t, RequestCursor(q), limit))) ==
              Client(c.gen, Shown(rows[..e]), if e < |t| then CursorAt(o, rows, e) else None, e < |t|)
  {
    var rows, e := Sorted(o, t), Min(k + limit, |t|);
    ShownStretch(rows, 0, k);
    ShownStretch(rows, k, e);
    assert c.list <= Canonical(o, t);
    hide Shown, ListShown, CursorFor, IsSorted, AppendPage, MergeFreshPage, Dated, UniqueIds;
    ResolveAt(o, t, c, q, k, limit);
  }

  lemma FirstRound(o: Order, limit: nat, t: set<Row>)
    requires UniqueIds(t) && Dated(o, t) && limit >= 1
    ensures var s := Step(o, limit, Step(o, limit, Mounted(), Refresh), Arrive(0, Some(t)));
            ShowsRows(o, t, s, Min(limit, |t|))
  {
    var s := Step(o, limit, Mounted(), Refresh);
    assert s.inflight == [Fresh(1)] && Drop(s.inflight, 0) == [];
    assert Shown(Sorted(o, t)[..0]) == [];
    assert |Sorted(o, t)| == |t|;
    hide ListShown, Shown, CursorFor, Resolve, IsSorted, Dated, UniqueIds;
    PageTaken(o, t, s.client, Fresh(1), 0, limit);
  }

  lemma NextRound(o: Order, limit: nat, t: set<Row>, s: System, k: nat)
    requires UniqueIds(t) && Dated(o, t) && limit >= 1 && 0 < k && ShowsRows(o, t, s, k)
    ensures var u := Step(o, limit, Step(o, limit, s, LoadMore), Arrive(0, Some(t)));
            ShowsRows(o, t, u, Min(k + limit, |t|))
  {
    hide Shown, CursorFor, ListShown, AppendPage, MergeFreshPage;
    assert |Sorted(o, t)| == |t|;
    hide IsSorted;
    if k < |t| {
      var m := Step(o, limit, s, LoadMore);
      var q := m.inflight[0];
      assert m.inflight == [q] && Drop(m.inflight, 0) == [];
      PageTaken(o, t, s.client, q, k, limit);
    }
  }

  /** A fresh load and `n` times "load more" show the first n + 1 pages' worth of rows, in the end all of them. */
  lemma {:induction false} LoadingMoreReachesTheEnd(o: Order, limit: nat, t: set<Row>, n: nat)
    requires UniqueIds(t) && Dated(o, t) && limit >= 1
    requires var es := [Refresh, Arrive(0, Some(t))] + Rounds(t, n); forall i :: 0 <= i < |es| ==> Answerable(es[i])
    ensures var s := Run(o, limit, Mounted(), [Refresh, Arrive(0, Some(t))] + Rounds(t, n));
            && ShowsRows(o, t, s, Min((n + 1) * limit, |t|))
            && (|t| <= (n + 1) * limit ==> s.client.list == Canonical(o, t))
  {
    hide Step, ShowsRows, Dated, Shown;
    var first := [Refresh, Arrive(0, Some(t))];
    RoundsAnswerable(t, n);
    if n == 0 {
      assert first + Rounds(t, n) == first;
      TwoSteps(o, limit, Mounted(), first[0], first[1]);
      FirstRound(o, limit, t);
    } else {
      RoundsAnswerable(t, n - 1);
      LoadingMoreReachesTheEnd(o, limit, t, n - 1);
      var again := [LoadMore, Arrive(0, Some(t))];
      assert first + Rounds(t, n) == (first + Rounds(t, n - 1)) + again;
      RunConcat(o, limit, Mounted(), first + Rounds(t, n - 1), again);
      var s := Run(o, limit, Mounted(), first + Rounds(t, n - 1));
      TwoSteps(o, limit, s, again[0], again[1]);
      var k := Min(n * limit, |t|);
      assert (n + 1) * limit == n * limit + limit && n * limit >= limit;
      if k > 0 {
        NextRound(o, limit, t, s, k);
      } else {
        EmptyTableRound(o, limit, t, s);
      }
    }
    AllRowsShown(o, limit, t, Run(o, limit, Mounted(), first + Rounds(t, n)));
  }

  lemma EmptyTableRound(o: Order, limit: nat, t: set<Row>, s: System)
    requires t == {} && ShowsRows(o, t, s, 0)
    ensures ShowsRows(o, t, Step(o, limit, Step(o, limit, s, LoadMore), Arrive(0, Some(t))), 0)
  {
  }

  lemma AllRowsShown(o: Order, limit: nat, t: set<Row>, s: System)
    requires UniqueIds(t)
    ensures ShowsRows(o, t, s, |t|) ==> s.client.list == Canonical(o, t)
  {
    assert Sorted(o, t)[..|t|] == Sorted(o, t);
  }

  // ---------- over a changing table ----------

  /**
   * Whatever table an answer of the current generation comes from: a realtime page goes first as it was served and
   * leaves the cursor alone; a next page goes behind the list, and a fresh one replaces it, each bringing its own
   * cursor; of the other rows only those with new ids are kept, in their order. Any other answer changes nothing.
   */
  lemma AnswerIsApplied(o: Order, limit: nat, s: System, i: nat, table: Option<set<Row>>)
    requires Answerable(Arrive(i, table)) && i < |s.inflight|
    ensures var c, d, q := s.client, Step(o, limit, s, Arrive(i, table)).client, s.inflight[i];
            if table.None? || q.gen != c.gen then d == c
            else
              var page := ListShown(o, table.value, RequestCursor(q), limit);
              && d.gen == c.gen
              && (if q.Nudge? then d.cursor == c.cursor && d.hasMore == c.hasMore
                  else d.cursor == page.nextCursor && d.hasMore == page.hasMore)
              && (q.Nudge? ==> page.data <= d.list && Sifted(d.list[|page.data|..], c.list, IdsOf(page.data)))
              && (q.More? ==> c.list <= d.list && Sifted(d.list[|c.list|..], page.data, IdsOf(c.list)))
              && (q.Fresh? ==> d.list == page.data)
  {
    hide ListShown;
    if table.Some? {
      var q := s.inflight[i];
      if q.gen == s.client.gen { ResolveAppliesPage(s.client, q, ListShown(o, table.value, RequestCursor(q), limit)); }
    }
    hide Resolve;
    StaleOrFailed(s.client, s.inflight[i], Answer(o, limit, s.inflight[i], table));
    hide Sifted, IdsOf;
  }

  /** "Load more" is offered exactly if there is a cursor to load with, over any tables. */
  lemma {:induction false} OfferedIffCursor(o: Order, limit: nat, s: System, es: seq<Event>)
    requires limit >= 1 && (s.client.hasMore <==> s.client.cursor.Some?)
    requires forall i :: 0 <= i < |es| ==> Answerable(es[i])
    ensures var c := Run(o, limit, s, es).client; c.hasMore <==> c.cursor.Some?
    decreases es
  {
    if es == [] {
    } else {
      hide Sorted, IsSorted, MergeFreshPage, AppendPage;
      OfferedIffCursor(o, limit, Step(o, limit, s, es[0]), es[1..]);
    }
  }

  /** Which holds from the start, and a refresh withdraws the offer until it is answered. */
  lemma OfferStarts(o: Order, limit: nat, s: System)
    ensures !Mounted().client.hasMore && Mounted().client.cursor.None?
    ensures var c := Step(o, limit, s, Refresh).client; !c.hasMore && c.cursor.None? && c.list == s.client.list
  {
  }

  /** A realtime event, answered before anything else happens, puts the page the server serves then on top. */
  lemma RealtimeRound(o: Order, limit: nat, s: System, t: set<Row>)
    requires UniqueIds(t) && s.inflight == []
    ensures var u := Step(o, limit, Step(o, limit, s, Realtime), Arrive(0, Some(t)));
            var page := ListShown(o, t, None, limit);
            && u.inflight == [] && u.client.gen == s.client.gen && u.client.cursor == s.client.cursor
            && page.data <= u.client.list && Sifted(u.client.list[|page.data|..], s.client.list, IdsOf(page.data))
  {
    var m := Step(o, limit, s, Realtime);
    assert m.inflight == [Nudge(s.client.gen)] && Drop(m.inflight, 0) == [];
    hide ListShown, Resolve, Sifted, IdsOf;
    AnswerIsApplied(o, limit, m, 0, Some(t));
  }

  lemma StaleOrFailed(c: Client, q: Request, r: Reply)
    ensures r.Failed? || q.gen != c.gen ==> Resolve(c, q, r) == c
  {
  }

  lemma ResolveAppliesPage(c: Client, q: Request, page: Page)
    requires q.gen == c.gen
    ensures var d := Resolve(c, q, Got(page));
            && d.gen == c.gen
            && (if q.Nudge? then d.cursor == c.cursor && d.hasMore == c.hasMore
                else d.cursor == page.nextCursor && d.hasMore == page.hasMore)
            && (q.Nudge? ==> page.data <= d.list && Sifted(d.list[|page.data|..], c.list, IdsOf(page.data)))
            && (q.More? ==> c.list <= d.list && Sifted(d.list[|c.list|..], page.data, IdsOf(c.list)))
            && (q.Fresh? ==> d.list == page.data)
  {
    hide Sifted, IdsOf, MergeFreshPage, AppendPage;
    MergesKeepOrder(c.list, page.data);
  }

  lemma AnswerHasDistinctIds(o: Order, limit: nat, q: Request, table: Option<set<Row>>)
    requires table.Some? && UniqueIds(table.value)
    ensures DistinctIds(Answer(o, limit, q, table).page.data)
  {
    var eff := EffectiveOrder(o, RequestCursor(q));
    var m := Matching(table.value, RequestCursor(q));
    SortedDistinct(eff, m);
    ShownDistinct(List(o, table.value, RequestCursor(q), limit).data);
  }

  /** Only a fresh load of the current generation takes rows away; no event puts a row in twice. */
  lemma StepKeepsIds(o: Order, limit: nat, s: System, e: Event)
    requires Answerable(e) && DistinctIds(s.client.list)
    ensures var u := Step(o, limit, s, e);
            && DistinctIds(u.client.list)
            && (Fresh(s.client.gen) !in s.inflight ==> IdsOf(s.client.list) <= IdsOf(u.client.list))
  {
    if e.Arrive? && e.i < |s.inflight| && e.table.Some? {
      var q := s.inflight[e.i];
      assert q in s.inflight;
      AnswerHasDistinctIds(o, limit, q, e.table);
      var data := Answer(o, limit, q, e.table).page.data;
      hide ListShown, Answer, IdsOf, DistinctIds, Without;
      MergesKeepIds(s.client.list, data);
    }
  }

  lemma {:induction false} RunKeepsIds(o: Order, limit: nat, s: System, es: seq<Event>)
    requires forall i :: 0 <= i < |es| ==> Answerable(es[i])
    requires DistinctIds(s.client.list) && FreshIsAlone(s)
    ensures var u := Run(o, limit, s, es);
            && DistinctIds(u.client.list) && s.client.gen <= u.client.gen
            && (u.client.gen == s.client.gen && Fresh(s.client.gen) !in s.inflight ==>
                  IdsOf(s.client.list) <= IdsOf(u.client.list))
    decreases es
  {
    if es == [] {
    } else {
      var m := Step(o, limit, s, es[0]);
      StepKeepsIds(o, limit, s, es[0]);
      StepKeepsFreshAlone(o, limit, s, es[0]);
      RunKeepsIds(o, limit, m, es[1..]);
      if m.client.gen == s.client.gen && Fresh(s.client.gen) !in s.inflight {
        assert Fresh(m.client.gen) !in m.inflight by {
          if es[0].Arrive? && es[0].i < |s.inflight| && Fresh(m.client.gen) in m.inflight {
            DropMember(s.inflight, es[0].i, Fresh(m.client.gen));
          }
        }
      }
    }
  }

  /**
   * Whatever happens to the table meanwhile, the list never holds an id twice; and from any moment at which the
   * generation's fresh load is no longer out, no id is lost until the next generation begins.
   */
  lemma NoDuplicateNoLoss(o: Order, limit: nat, before: seq<Event>, after: seq<Event>)
    requires forall i :: 0 <= i < |before| ==> Answerable(before[i])
    requires forall i :: 0 <= i < |after| ==> Answerable(after[i])
    ensures var s := Run(o, limit, Mounted(), before);
            var u := Run(o, limit, s, after);
            && DistinctIds(s.client.list) && DistinctIds(u.client.list)
            && (u.client.gen == s.client.gen && Fresh(s.client.gen) !in s.inflight ==>
                  IdsOf(s.client.list) <= IdsOf(u.client.list))
  {
    RunKeepsIds(o, limit, Mounted(), before);
    RunKeepsFreshAlone(o, limit, Mounted(), before);
    RunKeepsIds(o, limit, Run(o, limit, Mounted(), before), after);
  }

  lemma {:induction false} RunKeepsFreshAlone(o: Order, limit: nat, s: System, es: seq<Event>)
    requires forall i :: 0 <= i < |es| ==> Answerable(es[i])
    requires FreshIsAlone(s)
    ensures FreshIsAlone(Run(o, limit, s, es))
    decreases es
  {
    if es == [] {
    } else {
      StepKeepsFreshAlone(o, limit, s, es[0]);
      RunKeepsFreshAlone(o, limit, Step(o, limit, s, es[0]), es[1..]);
    }
  }

  // ---------- the component ----------

  /** Whatever else is in flight, the event takes the client from `before` to `after` and sends these requests. */
  ghost predicate IsStart(e: Event, before: Client, after: Client, sent: seq<Request>)
    requires !e.Arrive?
  {
    forall o, limit, inflight, exhausted ::
      Step(o, limit, System(before, inflight, exhausted), e) ==
        System(after, inflight + sent, exhausted && !e.Refresh?)
  }

  /** The component's refs and state; each handler is split where it awaits its answer. */
  class Inbox {
    var conversationsRequestId: nat
    var conversations: seq<Row>
    var conversationsCursor: Option<Cursor>
    var conversationsHasMore: bool

    ghost function View(): Client
      reads this
    {
      Client(conversationsRequestId, conversations, conversationsCursor, conversationsHasMore)
    }

    constructor ()
      ensures View() == Mounted().client
    {
      conversationsRequestId, conversations, conversationsCursor, conversationsHasMore := 0, [], None, false;
    }

    /** The synchronous start of a fresh load: the old cursor is unusable from here on. */
    method StartRefresh() returns (q: Request)
      modifies this
      ensures IsStart(Refresh, old(View()), View(), [q])
      ensures View() == Client(old(conversationsRequestId) + 1, old(conversations), None, false)
    {
      conversationsRequestId := conversationsRequestId + 1;
      conversationsCursor := None;
      conversationsHasMore := false;
      q := Fresh(conversationsRequestId);
    }

    method StartRealtimeMerge() returns (q: Request)
      ensures IsStart(Realtime, View(), View(), [q])
    {
      q := Nudge(conversationsRequestId);
    }

    method StartLoadMore() returns (q: Option<Request>)
      ensures IsStart(LoadMore, View(), View(), if q.Some? then [q.value] else [])
    {
      if !conversationsHasMore || conversationsCursor.None? { return None; }
      q := Some(More(conversationsRequestId, conversationsCursor.value));
    }

    /** The rest of a handler, when its answer arrives. */
    method Finish(q: Request, r: Reply)
      modifies this
      ensures View() == Resolve(old(View()), q, r)
    {
      if r.Failed? { return; }
      if q.gen != conversationsRequestId { return; }
      match q {
        case Fresh(_) =>
          conversations := r.page.data;
          conversationsCursor := r.page.nextCursor;
          conversationsHasMore := r.page.hasMore;
        case Nudge(_) =>
          conversations := MergeFreshPage(conversations, r.page.data);
        case More(_, _) =>
          conversations := AppendPage(conversations, r.page.data);
          conversationsCursor := r.page.nextCursor;
          conversationsHasMore := r.page.hasMore;
      }
    }
  }
}
