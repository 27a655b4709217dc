/**
 * The open conversation's messages: the server walks newest-first and hands out each page reversed, the client
 * prepends older pages and appends what a realtime event or a sent reply makes it refetch.
 */
module InboxMessages {
  import opened Basics
  import opened Keyset
  import opened InboxPagination

  const NEWEST_FIRST: Order := Single(Desc)

  /** The whole conversation, oldest message first. */
  ghost function History(t: set<Row>): (h: seq<Row>)
    requires UniqueIds(t)
    ensures h == Reverse(Sorted(NEWEST_FIRST, t))
  {
    AscendingIsReversedDescending(NEWEST_FIRST, t);
    Sorted(Single(Asc), t)
  }

  /** GET messages: the page queried newest-first, its rows reversed to chronological order. */
  ghost function MessagesPage(t: set<Row>, cursor: Option<Cursor>, limit: nat): Page
    requires UniqueIds(t)
  {
    var p := List(NEWEST_FIRST, t, cursor, limit);
    p.(data := Reverse(p.data))
  }

  lemma HistoryDistinct(t: set<Row>)
    requires UniqueIds(t)
    ensures DistinctIds(History(t)) && |History(t)| == |t| == |Sorted(NEWEST_FIRST, t)|
    ensures forall r :: r in History(t) <==> r in t
  {
    SortedDistinct(Single(Asc), t);
  }

  /** The cursor of the message at position `x`: none at the very beginning. */
  function CursorBefore(h: seq<Row>, x: nat): Option<Cursor>
    requires x <= |h|
  {
    if 0 < x < |h| then Some(CursorFor(NEWEST_FIRST, h[x])) else None
  }

  /** The page behind the cursor of the message at position `q`, or the newest page for the position past the last. */
  lemma HistoryPage(t: set<Row>, q: nat, limit: nat, x: nat)
    requires UniqueIds(t) && limit >= 1 && q <= |History(t)| && x == Max(0, q - limit)
    ensures var h := History(t);
            var cursor := if q < |h| then Some(CursorFor(NEWEST_FIRST, h[q])) else None;
            MessagesPage(t, cursor, limit) == Page(h[x..q], CursorBefore(h, x), x > 0)
  {
    hide Reverse, List, IsSorted, CursorFor;
    var s, h := Sorted(NEWEST_FIRST, t), History(t);
    var k := |s| - q;
    assert CursorAt(NEWEST_FIRST, s, k) == if q < |h| then Some(CursorFor(NEWEST_FIRST, h[q])) else None;
    PageAt(NEWEST_FIRST, NEWEST_FIRST, t, k, limit);
    ReverseSlice(s, k, Min(k + limit, |s|), x, q);
  }

  // ---------- the protocol ----------

  datatype Selection = Nothing | Conversation(id: int)

  datatype View = View(gen: nat, selected: Selection, list: seq<Row>, cursor: Option<Cursor>, hasMore: bool)

  datatype Request =
    | Open(gen: nat, conversation: int)
    | Older(gen: nat, conversation: int, cursor: Cursor)
    | Live(conversation: int)        // after a realtime event: applied only if that conversation is still open
    | AfterReply(conversation: int)  // after sending a reply: applied unconditionally

  function Resolve(v: View, q: Request, r: Reply): View {
    match q
    case Open(gen, _) =>
      if gen != v.gen then v
      else if r.Failed? then v.(list := [], cursor := None, hasMore := false)
      else v.(list := r.page.data, cursor := r.page.nextCursor, hasMore := r.page.hasMore)
    case Older(gen, _, _) =>
      if r.Failed? || gen != v.gen then v
      else v.(list := MergeOlder(r.page.data, v.list), cursor := r.page.nextCursor, hasMore := r.page.hasMore)
    case Live(c) =>
      if r.Failed? || v.selected != Conversation(c) then v else v.(list := MergeNewest(v.list, r.page.data))
    case AfterReply(_) =>
      if r.Failed? then v else v.(list := MergeNewest(v.list, r.page.data))
  }

  /** `exhausted` records that the current selection has applied a last page. */
  datatype System = System(view: View, inflight: seq<Request>, exhausted: bool)

  /** An answer is a failure, or computed from the conversation's messages as they are at some moment. */
  datatype Event = Select(conversation: int) | LoadOlder | Realtime | Replied | Arrive(i: nat, table: Option<set<Row>>)

  ghost predicate Answerable(e: Event) {
    e.Arrive? && e.table.Some? ==> UniqueIds(e.table.value)
  }

  function RequestCursor(q: Request): Option<Cursor> { if q.Older? then Some(q.cursor) else None }

  ghost function Answer(limit: nat, q: Request, table: Option<set<Row>>): Reply
    requires table.Some? ==> UniqueIds(table.value)
  {
    if table.None? then Failed else Got(MessagesPage(table.value, RequestCursor(q), limit))
  }

  /** The answer is taken in by the view it comes back to. */
  predicate Accepted(v: View, q: Request) {
    match q
    case Open(gen, _) => gen == v.gen
    case Older(gen, _, _) => gen == v.gen
    case Live(c) => v.selected == Conversation(c)
    case AfterReply(_) => true
  }

  ghost function Step(limit: nat, s: System, e: Event): System
    requires Answerable(e)
  {
    var v := s.view;
    match e
    case Select(c) =>
      System(View(v.gen + 1, Conversation(c), [], None, false), s.inflight + [Open(v.gen + 1, c)], false)
    case LoadOlder =>
      if !v.hasMore || v.cursor.None? || v.selected.Nothing? then s
      else s.(inflight := s.inflight + [Older(v.gen, v.selected.id, v.cursor.value)])
    case Realtime => if v.selected.Nothing? then s else s.(inflight := s.inflight + [Live(v.selected.id)])
    case Replied => if v.selected.Nothing? then s else s.(inflight := s.inflight + [AfterReply(v.selected.id)])
    case Arrive(i, table) =>
      if i >= |s.inflight| then s
      else
        var q := s.inflight[i];
        var r := Answer(limit, q, table);
        var last := r.Got? && (q.Open? || q.Older?) && q.gen == v.gen && r.page.nextCursor.None?;
        System(Resolve(v, q, r), Drop(s.inflight, i), s.exhausted || last)
  }

  ghost function Run(limit: nat, s: System, es: seq<Event>): System
    requires forall i :: 0 <= i < |es| ==> Answerable(es[i])
    decreases es
  {
    if es == [] then s else Run(limit, Step(limit, s, es[0]), es[1..])
  }

  function Mounted(): System { System(View(0, Nothing, [], None, false), [], false) }

  lemma DropMember(s: seq<Request>, i: nat, q: Request)
    requires i < |s| && q in Drop(s, i)
    ensures q in s
  {
  }

  // ---------- over conversations that change in any way ----------

  /** The load that opening the conversation started is still out. */
  ghost predicate Opening(s: System) {
    exists q :: q in s.inflight && q.Open? && q.gen == s.view.gen
  }

  lemma AnswerHasDistinctIds(limit: nat, q: Request, table: Option<set<Row>>)
    requires table.Some? && UniqueIds(table.value)
    ensures DistinctIds(Answer(limit, q, table).page.data)
  {
    var eff := EffectiveOrder(NEWEST_FIRST, RequestCursor(q));
    SortedDistinct(eff, Matching(table.value, RequestCursor(q)));
    ReverseDistinct(List(NEWEST_FIRST, table.value, RequestCursor(q), limit).data);
  }

  /**
   * Whatever an answer brings: a load of the current generation replaces the list or, failing, empties it; an older
   * page of it goes before the list, a refetched page behind; of either only messages with new ids are added, in
   * their order. Any other answer, or a failed one, changes nothing.
   */
  lemma AnswerIsApplied(v: View, q: Request, r: Reply)
    ensures var d := Resolve(v, q, r);
            && d.gen == v.gen && d.selected == v.selected
            && (!Accepted(v, q) || (r.Failed? && !q.Open?) ==> d == v)
            && (Accepted(v, q) && r.Failed? && q.Open? ==> d.list == [] && d.cursor == None && !d.hasMore)
            && (Accepted(v, q) && r.Got? && q.Open? ==> d.list == r.page.data)
            && (Accepted(v, q) && r.Got? && q.Older? ==>
                  var n := |d.list| - |v.list|;
                  n >= 0 && d.list[n..] == v.list && Sifted(d.list[..n], r.page.data, IdsOf(v.list)))
            && (Accepted(v, q) && r.Got? && (q.Open? || q.Older?) ==>
                  d.cursor == r.page.nextCursor && d.hasMore == r.page.hasMore)
            && (Accepted(v, q) && r.Got? && (q.Live? || q.AfterReply?) ==>
                  && v.list <= d.list && Sifted(d.list[|v.list|..], r.page.data, IdsOf(v.list))
                  && d.cursor == v.cursor && d.hasMore == v.hasMore)
  {
    if r.Got? { MergesKeepOrder(v.list, r.page.data); }
    hide Sifted, IdsOf, MergeNewest, MergeOlder;
  }

  /** "Load older" is offered exactly if there is a cursor to load with, over any tables. */
  lemma {:induction false} OfferedIffCursor(limit: nat, s: System, es: seq<Event>)
    requires limit >= 1 && (s.view.hasMore <==> s.view.cursor.Some?)
    requires forall i :: 0 <= i < |es| ==> Answerable(es[i])
    ensures var v := Run(limit, s, es).view; v.hasMore <==> v.cursor.Some?
    decreases es
  {
    if es == [] {
    } else {
      hide Sorted, IsSorted, MergeNewest, MergeOlder, Reverse;
      OfferedIffCursor(limit, Step(limit, s, es[0]), es[1..]);
    }
  }

  /** Which holds from the start, and opening a conversation withdraws the offer until it is answered. */
  lemma OfferStarts(limit: nat, s: System, c: int)
    ensures !Mounted().view.hasMore && Mounted().view.cursor.None?
    ensures Step(limit, s, Select(c)).view == View(s.view.gen + 1, Conversation(c), [], None, false)
  {
  }

  lemma ReverseDistinct(rows: seq<Row>)
    requires DistinctIds(rows)
    ensures DistinctIds(Reverse(rows))
  {
    var back := Reverse(rows);
    forall i, j | 0 <= i < j < |back| ensures back[i].id != back[j].id {
      assert rows[|rows| - 1 - j].id != rows[|rows| - 1 - i].id;
    }
  }

  /** Only opening a conversation takes messages away; no event puts one in twice. */
  lemma StepKeepsIds(limit: nat, s: System, e: Event)
    requires Answerable(e) && DistinctIds(s.view.list)
    ensures var u := Step(limit, s, e);
            && DistinctIds(u.view.list)
            && (!Opening(s) && !e.Select? ==> IdsOf(s.view.list) <= IdsOf(u.view.list))
  {
    if e.Arrive? && e.i < |s.inflight| {
      hide MergeNewest, MergeOlder, DistinctIds, IdsOf, MessagesPage;
      var q := s.inflight[e.i];
      assert q in s.inflight;
      if e.table.Some? {
        AnswerHasDistinctIds(limit, q, e.table);
        MergesKeepIds(s.view.list, Answer(limit, q, e.table).page.data);
      }
      ResolveKeepsIds(s.view, q, Answer(limit, q, e.table));
    }
  }

  lemma ResolveKeepsIds(v: View, q: Request, r: Reply)
    requires DistinctIds(v.list)
    requires r.Got? ==>
      && DistinctIds(r.page.data)
      && DistinctIds(MergeNewest(v.list, r.page.data)) && IdsOf(v.list) <= IdsOf(MergeNewest(v.list, r.page.data))
      && DistinctIds(MergeOlder(r.page.data, v.list)) && IdsOf(v.list) <= IdsOf(MergeOlder(r.page.data, v.list))
    ensures DistinctIds(Resolve(v, q, r).list)
    ensures !(q.Open? && q.gen == v.gen) ==> IdsOf(v.list) <= IdsOf(Resolve(v, q, r).list)
  {
    hide MergeNewest, MergeOlder, IdsOf;
  }

  lemma StepKeepsOpened(limit: nat, s: System, e: Event)
    requires Answerable(e) && !e.Select?
    ensures Step(limit, s, e).view.gen == s.view.gen && (Opening(Step(limit, s, e)) ==> Opening(s))
  {
    var u := Step(limit, s, e);
    if Opening(u) && e.Arrive? && e.i < |s.inflight| {
      var q :| q in u.inflight && q.Open? && q.gen == u.view.gen;
      DropMember(s.inflight, e.i, q);
    }
  }

  lemma {:induction false} RunKeepsIds(limit: nat, s: System, es: seq<Event>)
    requires forall i :: 0 <= i < |es| ==> Answerable(es[i])
    requires DistinctIds(s.view.list)
    ensures var u := Run(limit, s, es);
            && DistinctIds(u.view.list) && s.view.gen <= u.view.gen
            && (u.view.gen == s.view.gen && !Opening(s) ==> IdsOf(s.view.list) <= IdsOf(u.view.list))
    decreases es
  {
    if es == [] {
    } else {
      hide Opening, DistinctIds, IdsOf;
      var m := Step(limit, s, es[0]);
      StepKeepsIds(limit, s, es[0]);
      if !es[0].Select? { StepKeepsOpened(limit, s, es[0]); }
      RunKeepsIds(limit, m, es[1..]);
    }
  }

  /**
   * Whatever happens to the conversations meanwhile, and even if a reply's refetch comes back to another one, the
   * list never holds a message twice; and from any moment at which the open conversation has loaded, no message is
   * lost until the next one is opened.
   */
  lemma NoDuplicateNoLoss(limit: nat, before: seq<Event>, after: seq<Event>)
    requires forall i :: 0 <= i < |before| ==> Answerable(before[i])
    requires forall i :: 0 <= i < |after| ==> Answerable(after[i])
    ensures var s := Run(limit, Mounted(), before);
            var u := Run(limit, s, after);
            && DistinctIds(s.view.list) && DistinctIds(u.view.list)
            && (u.view.gen == s.view.gen && !Opening(s) ==> IdsOf(s.view.list) <= IdsOf(u.view.list))
  {
    RunKeepsIds(limit, Mounted(), before);
    RunKeepsIds(limit, Run(limit, Mounted(), before), after);
  }

  // ---------- over conversations that grow ----------

  /** What each conversation has become in the end. */
  type World = map<int, set<Row>>

  ghost predicate Readable(w: World) {
    forall c :: c in w ==> UniqueIds(w[c])
  }

  ghost function Full(w: World, c: int): (h: seq<Row>)
    requires Readable(w)
  {
    if c in w then History(w[c]) else []
  }

  ghost function OpenHistory(w: World, v: View): seq<Row>
    requires Readable(w)
  {
    if v.selected.Conversation? then Full(w, v.selected.id) else []
  }

  lemma FullDistinct(w: World, c: int)
    requires Readable(w)
    ensures DistinctIds(Full(w, c))
  {
    if c in w { HistoryDistinct(w[c]); }
  }

  ghost predicate HasCursor(rows: seq<Row>, c: Cursor) {
    exists r :: r in rows && CursorFor(NEWEST_FIRST, r) == c
  }

  /**
   * The table a request is answered from: an earlier state of its conversation, as new messages only come in at
   * the end, and one that still has the message an older-page cursor stands at, as messages are not removed.
   */
  ghost predicate Grown(w: World, q: Request, t: set<Row>)
    requires Readable(w)
  {
    UniqueIds(t) && History(t) <= Full(w, q.conversation) && (q.Older? ==> HasCursor(History(t), q.cursor))
  }

  ghost predicate AnswersFrom(w: World, s: System, e: Event)
    requires Readable(w)
  {
    e.Arrive? && e.i < |s.inflight| && e.table.Some? ==> Grown(w, s.inflight[e.i], e.table.value)
  }

  /** The list is the stretch p..n of the history, and holds at least one page of it unless it is empty. */
  ghost predicate Shows(h: seq<Row>, limit: nat, list: seq<Row>, p: nat, n: nat) {
    IsStretch(h, list, p, n) && (p == n || p <= Max(0, n - limit))
  }

  /** A page that starts at position `x` starts inside the list, or right behind it. */
  ghost predicate Meets(h: seq<Row>, list: seq<Row>, x: nat) {
    exists p: nat, n: nat :: IsStretch(h, list, p, n) && p <= x <= n
  }

  /**
   * If the event brings a refetched page, it is for the open conversation and meets the list. To an empty list any
   * page may come, but only one from the very beginning once the conversation counts as loaded to its beginning.
   */
  ghost predicate Fits(w: World, limit: nat, s: System, e: Event)
    requires Readable(w)
  {
    e.Arrive? && e.i < |s.inflight| && e.table.Some? && e.table.value != {}
    && (s.inflight[e.i].Live? || s.inflight[e.i].AfterReply?) && Accepted(s.view, s.inflight[e.i]) ==>
      var x := Max(0, |e.table.value| - limit);
      && s.view.selected == Conversation(s.inflight[e.i].conversation)
      && if s.view.list == [] then s.exhausted ==> x == 0 else Meets(OpenHistory(w, s.view), s.view.list, x)
  }

  /** Requests of the current generation are for the open conversation, and its load is alone. */
  ghost predicate OpenIsAlone(s: System) {
    var v := s.view;
    && (forall q :: q in s.inflight && (q.Open? || q.Older?) ==> q.gen <= v.gen)
    && (forall q :: q in s.inflight && (q.Open? || q.Older?) && q.gen == v.gen ==>
          v.selected == Conversation(q.conversation))
    && (forall q :: q in s.inflight && q.Open? && q.gen == v.gen ==>
          v.cursor.None? && !s.exhausted && forall p :: p in s.inflight && p.Older? ==> p.gen != v.gen)
    && (forall i, j :: 0 <= i < j < |s.inflight| && s.inflight[i].Open? && s.inflight[i].gen == v.gen ==>
          !(s.inflight[j].Open? && s.inflight[j].gen == v.gen))
  }

  ghost predicate Listed(h: seq<Row>, limit: nat, s: System) {
    && (exists p: nat, n: nat :: Shows(h, limit, s.view.list, p, n))
    && (s.exhausted ==> s.view.list <= h)
  }

  ghost predicate CursorsListed(s: System) {
    && (s.view.cursor.Some? ==> HasCursor(s.view.list, s.view.cursor.value))
    && (forall q :: q in s.inflight && q.Older? && q.gen == s.view.gen ==> HasCursor(s.view.list, q.cursor))
  }

  ghost predicate Faithful(w: World, limit: nat, s: System)
    requires Readable(w)
  {
    OpenIsAlone(s) && Listed(OpenHistory(w, s.view), limit, s) && CursorsListed(s)
  }

  // ---------- taking in a page ----------

  lemma CursorInLonger(short: seq<Row>, long: seq<Row>, c: Cursor)
    requires HasCursor(short, c) && forall r :: r in short ==> r in long
    ensures HasCursor(long, c)
  {
  }

  /** What the newest page of an earlier state is in the full history. */
  lemma NewestPage(t: set<Row>, h: seq<Row>, limit: nat)
    requires UniqueIds(t) && limit >= 1 && History(t) <= h
    ensures var y := |t|;
            var x := Max(0, y - limit);
            && y <= |h|
            && MessagesPage(t, None, limit) == Page(h[x..y], CursorBefore(h, x), x > 0)
  {
    hide MessagesPage, IsSorted, Sorted, Reverse;
    HistoryDistinct(t);
    HistoryPage(t, |t|, limit, Max(0, |t| - limit));
    assert h[..|t|] == History(t);
  }

  /** The page behind a message that an earlier state already had. */
  lemma OlderPage(t: set<Row>, h: seq<Row>, limit: nat, q: nat)
    requires UniqueIds(t) && limit >= 1 && History(t) <= h && DistinctIds(h) && q < |h|
    requires HasCursor(History(t), CursorFor(NEWEST_FIRST, h[q]))
    ensures var x := Max(0, q - limit);
            MessagesPage(t, Some(CursorFor(NEWEST_FIRST, h[q])), limit) ==
              Page(h[x..q], CursorBefore(h, x), x > 0)
  {
    hide MessagesPage, IsSorted, Sorted, Reverse;
    var r :| r in History(t) && CursorFor(NEWEST_FIRST, r) == CursorFor(NEWEST_FIRST, h[q]);
    var j :| 0 <= j < |History(t)| && History(t)[j] == r;
    assert h[j].id == h[q].id;
    assert j == q;
    HistoryPage(t, q, limit, Max(0, q - limit));
  }

  lemma CursorInStretch(h: seq<Row>, a: nat, b: nat, x: nat)
    requires a <= x < b <= |h|
    ensures HasCursor(h[a..b], CursorFor(NEWEST_FIRST, h[x]))
  {
    assert h[a..b][x - a] == h[x];
    assert h[x] in h[a..b];
  }

  lemma LongerStretch(h: seq<Row>, list: seq<Row>, p: nat, n: nat, a: nat, b: nat)
    requires IsStretch(h, list, p, n) && a <= p && n <= b <= |h|
    ensures forall r :: r in list ==> r in h[a..b]
  {
    assert h[a..b] == h[a..p] + list + h[n..b];
  }

  lemma OlderTaken(h: seq<Row>, p: nat, n: nat, x: nat, q: nat)
    requires DistinctIds(h) && p <= q < n <= |h| && x <= q
    ensures MergeOlder(h[x..q], h[p..n]) == h[Min(p, x)..n]
  {
    var cut := h[..n];
    assert cut[x..q] == h[x..q] && cut[p..] == h[p..n] && cut[Min(p, x)..] == h[Min(p, x)..n];
    hide MergeOlder;
    OlderExtends(cut, p, x, q);
  }

  lemma StretchIsUnique(h: seq<Row>, list: seq<Row>, p: nat, n: nat, a: nat, b: nat)
    requires DistinctIds(h) && IsStretch(h, list, p, n) && IsStretch(h, list, a, b) && list != []
    ensures p == a && n == b
  {
    assert list[0] == h[p] == h[a];
  }

  lemma CursorPosition(h: seq<Row>, list: seq<Row>, p: nat, n: nat, c: Cursor) returns (q: nat)
    requires IsStretch(h, list, p, n) && HasCursor(list, c)
    ensures p <= q < n && CursorFor(NEWEST_FIRST, h[q]) == c
  {
    var r :| r in list && CursorFor(NEWEST_FIRST, r) == c;
    var j :| 0 <= j < |list| && list[j] == r;
    q := p + j;
    assert h[p + j] == list[j];
  }

  /** The first load: the list is the newest page, with the cursor at its older end. */
  lemma OpenTaken(h: seq<Row>, limit: nat, v: View, gen: nat, c: int, t: set<Row>)
    requires UniqueIds(t) && limit >= 1 && History(t) <= h && gen == v.gen
    ensures var u := Resolve(v, Open(gen, c), Got(MessagesPage(t, None, limit)));
            var y := |t|;
            var x := Max(0, y - limit);
            && y <= |h| && u == View(v.gen, v.selected, h[x..y], CursorBefore(h, x), x > 0)
            && Shows(h, limit, u.list, x, y)
            && (u.cursor.Some? ==> HasCursor(u.list, u.cursor.value))
            && (u.cursor.None? ==> u.list <= h)
  {
    NewestPage(t, h, limit);
    hide MessagesPage;
    var y := |t|;
    var x := Max(0, y - limit);
    assert h[0..y] <= h;
    if 0 < x { CursorInStretch(h, x, y, x); }
  }

  /** What the handler makes of the page behind the k-th message of the history. */
  lemma OlderPageAt(h: seq<Row>, limit: nat, v: View, q: Request, t: set<Row>, p: nat, n: nat, k: nat)
    requires UniqueIds(t) && limit >= 1 && History(t) <= h && DistinctIds(h) && q.Older? && q.gen == v.gen
    requires p <= k < n <= |h| && v.list == h[p..n] && q.cursor == CursorFor(NEWEST_FIRST, h[k])
    requires HasCursor(History(t), q.cursor)
    ensures var x := Max(0, k - limit);
            Resolve(v, q, Got(MessagesPage(t, Some(q.cursor), limit)))
              == View(v.gen, v.selected, h[Min(p, x)..n], CursorBefore(h, x), x > 0)
  {
    hide MessagesPage, DistinctIds, CursorFor, MergeOlder, HasCursor, History;
    OlderPage(t, h, limit, k);
    OlderTaken(h, p, n, Max(0, k - limit), k);
  }

  /**
   * An older page: the list reaches further back by what lies before its cursor, and to the beginning with the last;
   * the cursor moves to the page's older end.
   */
  lemma OlderPageTaken(h: seq<Row>, limit: nat, v: View, q: Request, t: set<Row>, p: nat, n: nat) returns (k: nat)
    requires UniqueIds(t) && limit >= 1 && History(t) <= h && DistinctIds(h) && q.Older? && q.gen == v.gen
    requires Shows(h, limit, v.list, p, n) && HasCursor(v.list, q.cursor) && HasCursor(History(t), q.cursor)
    ensures p <= k < n && CursorFor(NEWEST_FIRST, h[k]) == q.cursor
    ensures var u := Resolve(v, q, Got(MessagesPage(t, Some(q.cursor), limit)));
            var x := Max(0, k - limit);
            && u == View(v.gen, v.selected, h[Min(p, x)..n], CursorBefore(h, x), x > 0)
            && (k == p > 0 ==> |u.list| > |v.list|)
            && Shows(h, limit, u.list, Min(p, x), n)
            && (forall r :: r in v.list ==> r in u.list)
            && (u.cursor.Some? ==> HasCursor(u.list, u.cursor.value))
            && (v.list <= h || u.cursor.None? ==> u.list <= h)
  {
    hide MessagesPage, DistinctIds, CursorFor, MergeOlder, HasCursor;
    k := CursorPosition(h, v.list, p, n, q.cursor);
    OlderPageAt(h, limit, v, q, t, p, n, k);
    var x := Max(0, k - limit);
    var a := Min(p, x);
    LongerStretch(h, v.list, p, n, a, n);
    if 0 < x { CursorInStretch(h, a, n, x); }
    if v.list <= h { PrefixStartsAtZero(h, v.list, p, n); }
    assert a == 0 ==> h[a..n] <= h;
  }

  lemma PrefixStartsAtZero(h: seq<Row>, list: seq<Row>, p: nat, n: nat)
    requires DistinctIds(h) && IsStretch(h, list, p, n) && list <= h && list != []
    ensures p == 0
  {
    assert list[0] == h[0] == h[p];
  }

  /** A refetched page that fits: the list reaches further on, as far as the answer knew. */
  lemma RefetchTaken(h: seq<Row>, limit: nat, v: View, q: Request, t: set<Row>, p: nat, n: nat)
    requires UniqueIds(t) && limit >= 1 && History(t) <= h && DistinctIds(h)
    requires (q.Live? || q.AfterReply?) && Accepted(v, q) && Shows(h, limit, v.list, p, n)
    requires v.list == [] || p <= Max(0, |t| - limit) <= n
    ensures var u := Resolve(v, q, Got(MessagesPage(t, None, limit)));
            var x := Max(0, |t| - limit);
            && u.list == (if v.list == [] then h[x..|t|] else h[p..Max(n, |t|)])
            && (exists a: nat, b: nat :: Shows(h, limit, u.list, a, b))
            && (forall r :: r in v.list ==> r in u.list)
  {
    hide MessagesPage, DistinctIds, MergeNewest;
    NewestPage(t, h, limit);
    var y := |t|;
    var x := Max(0, y - limit);
    RefetchExtends(h, p, n, x, y);
    var a, b := if p == n then x else p, if p == n then y else Max(n, y);
    assert Shows(h, limit, h[a..b], a, b);
    if p < n { LongerStretch(h, v.list, p, n, a, b); }
  }

  // ---------- every step ----------

  lemma StepKeepsOpenAlone(limit: nat, s: System, e: Event)
    requires Answerable(e) && OpenIsAlone(s)
    ensures OpenIsAlone(Step(limit, s, e))
  {
    if e.Arrive? && e.i < |s.inflight| {
      var u := Step(limit, s, e);
      var q := s.inflight[e.i];
      assert u.view.gen == s.view.gen && u.view.selected == s.view.selected;
      forall r | r in u.inflight ensures r in s.inflight { DropMember(s.inflight, e.i, r); }
      forall j | 0 <= j < |u.inflight| ensures u.inflight[j] == s.inflight[if j < e.i then j else j + 1] { }
    }
  }

  lemma NothingAhead(s: System)
    requires OpenIsAlone(s)
    ensures forall q :: q in s.inflight && q.Older? ==> q.gen != s.view.gen + 1
  {
  }

  lemma StartKeepsFaithful(w: World, limit: nat, s: System, e: Event)
    requires Readable(w) && Faithful(w, limit, s) && !e.Arrive?
    ensures var u := Step(limit, s, e);
            Listed(OpenHistory(w, u.view), limit, u) && CursorsListed(u)
  {
    hide Full, Readable, HasCursor;
    NothingAhead(s);
    hide OpenIsAlone;
    if e.Select? {
      var u := Step(limit, s, e);
      assert Shows(OpenHistory(w, u.view), limit, [], 0, 0);
    }
  }

  /** What the order of the requests in flight says about the one that is answered. */
  lemma AnsweredRequest(s: System, i: nat)
    requires OpenIsAlone(s) && i < |s.inflight|
    ensures var q, v := s.inflight[i], s.view;
            Accepted(v, q) && (q.Open? || q.Older?) ==>
              && v.selected == Conversation(q.conversation)
              && (q.Open? ==>
                    !s.exhausted && v.cursor.None? && forall o :: o in s.inflight && o.Older? ==> o.gen != v.gen)
  {
    assert s.inflight[i] in s.inflight;
  }

  /** An answer that is late or lost. */
  lemma OtherAnswerKeepsFaithful(w: World, limit: nat, s: System, e: Event)
    requires Readable(w) && Answerable(e) && Faithful(w, limit, s) && e.Arrive? && e.i < |s.inflight|
    requires e.table.None? || !Accepted(s.view, s.inflight[e.i])
    ensures var u := Step(limit, s, e);
            Listed(OpenHistory(w, u.view), limit, u) && CursorsListed(u)
  {
    hide MessagesPage, Full, MergeNewest, MergeOlder, HasCursor, Readable;
    AnsweredRequest(s, e.i);
    hide OpenIsAlone;
    var u := Step(limit, s, e);
    assert Shows(OpenHistory(w, u.view), limit, [], 0, 0);
    forall o | o in u.inflight ensures o in s.inflight { DropMember(s.inflight, e.i, o); }
  }

  /** An answer that has come through, spelled out. */
  lemma AnsweredStep(limit: nat, s: System, e: Event)
    requires Answerable(e) && e.Arrive? && e.i < |s.inflight| && e.table.Some?
    ensures var q, v := s.inflight[e.i], s.view;
            var page := MessagesPage(e.table.value, RequestCursor(q), limit);
            && Step(limit, s, e).view == Resolve(v, q, Got(page))
            && Step(limit, s, e).inflight == Drop(s.inflight, e.i)
            && (q.Open? || q.Older? ==>
                  Step(limit, s, e).exhausted == (s.exhausted || (q.gen == v.gen && page.nextCursor.None?)))
            && (q.Live? || q.AfterReply? ==> Step(limit, s, e).exhausted == s.exhausted)
            && Step(limit, s, e).view.gen == v.gen && Step(limit, s, e).view.selected == v.selected
  {
    hide MessagesPage, MergeNewest, MergeOlder;
  }

  lemma RemainingCursors(s: System, u: System, i: nat)
    requires CursorsListed(s) && i < |s.inflight| && u.inflight == Drop(s.inflight, i) && u.view.gen == s.view.gen
    requires forall r :: r in s.view.list ==> r in u.view.list
    ensures forall o :: o in u.inflight && o.Older? && o.gen == u.view.gen ==> HasCursor(u.view.list, o.cursor)
    ensures s.view.cursor.Some? ==> HasCursor(u.view.list, s.view.cursor.value)
  {
    hide HasCursor;
    forall o | o in u.inflight && o.Older? && o.gen == u.view.gen ensures HasCursor(u.view.list, o.cursor) {
      DropMember(s.inflight, i, o);
      CursorInLonger(s.view.list, u.view.list, o.cursor);
    }
    if s.view.cursor.Some? { CursorInLonger(s.view.list, u.view.list, s.view.cursor.value); }
  }

  lemma OpenAnswerKeepsFaithful(w: World, limit: nat, s: System, e: Event)
    requires Readable(w) && Answerable(e) && limit >= 1 && Faithful(w, limit, s) && AnswersFrom(w, s, e)
    requires e.Arrive? && e.i < |s.inflight| && e.table.Some?
    requires s.inflight[e.i].Open? && Accepted(s.view, s.inflight[e.i])
    ensures var u := Step(limit, s, e);
            Listed(OpenHistory(w, u.view), limit, u) && CursorsListed(u)
  {
    hide MessagesPage, Full, HasCursor, Readable, Shows, Step;
    AnsweredRequest(s, e.i);
    AnsweredStep(limit, s, e);
    hide OpenIsAlone;
    var q := s.inflight[e.i];
    OpenTaken(Full(w, q.conversation), limit, s.view, q.gen, q.conversation, e.table.value);
    var u := Step(limit, s, e);
    forall o | o in u.inflight ensures o in s.inflight { DropMember(s.inflight, e.i, o); }
  }

  lemma OlderAnswerKeepsFaithful(w: World, limit: nat, s: System, e: Event)
    requires Readable(w) && Answerable(e) && limit >= 1 && Faithful(w, limit, s) && AnswersFrom(w, s, e)
    requires e.Arrive? && e.i < |s.inflight| && e.table.Some?
    requires s.inflight[e.i].Older? && Accepted(s.view, s.inflight[e.i])
    ensures var u := Step(limit, s, e);
            Listed(OpenHistory(w, u.view), limit, u) && CursorsListed(u)
  {
    hide MessagesPage, Full, HasCursor, Readable, Shows, MergeOlder, Step, DistinctIds;
    AnsweredRequest(s, e.i);
    AnsweredStep(limit, s, e);
    hide OpenIsAlone;
    var q := s.inflight[e.i];
    var h := Full(w, q.conversation);
    assert q in s.inflight;
    FullDistinct(w, q.conversation);
    var p: nat, n: nat :| Shows(h, limit, s.view.list, p, n);
    var k := OlderPageTaken(h, limit, s.view, q, e.table.value, p, n);
    var u := Step(limit, s, e);
    RemainingCursors(s, u, e.i);
  }

  /** To an empty refetched page the list stays as it is. */
  lemma EmptyRefetch(limit: nat, v: View, q: Request)
    requires q.Live? || q.AfterReply?
    ensures Resolve(v, q, Got(MessagesPage({}, None, limit))) == v
  {
    assert MessagesPage({}, None, limit).data == [] by { assert Sorted(NEWEST_FIRST, {}) == []; }
    assert v.list + [] == v.list;
  }

  lemma RefetchKeepsListed(h: seq<Row>, limit: nat, s: System, q: Request, t: set<Row>)
    requires UniqueIds(t) && limit >= 1 && History(t) <= h && DistinctIds(h) && Listed(h, limit, s)
    requires (q.Live? || q.AfterReply?) && Accepted(s.view, q)
    requires if s.view.list == [] then s.exhausted ==> Max(0, |t| - limit) == 0
             else Meets(h, s.view.list, Max(0, |t| - limit))
    ensures var u := Resolve(s.view, q, Got(MessagesPage(t, None, limit)));
            && (exists a: nat, b: nat :: Shows(h, limit, u.list, a, b))
            && (s.exhausted ==> u.list <= h)
            && (forall r :: r in s.view.list ==> r in u.list)
  {
    hide MessagesPage, DistinctIds, MergeNewest;
    var v := s.view;
    var p: nat, n: nat :| Shows(h, limit, v.list, p, n);
    if v.list != [] {
      var a: nat, b: nat :| IsStretch(h, v.list, a, b) && a <= Max(0, |t| - limit) <= b;
      StretchIsUnique(h, v.list, p, n, a, b);
      if s.exhausted { PrefixStartsAtZero(h, v.list, p, n); }
    }
    HistoryDistinct(t);
    RefetchTaken(h, limit, v, q, t, p, n);
  }

  lemma RefetchKeepsFaithful(w: World, limit: nat, s: System, e: Event)
    requires Readable(w) && Answerable(e) && limit >= 1 && Faithful(w, limit, s) && AnswersFrom(w, s, e)
    requires Fits(w, limit, s, e) && e.Arrive? && e.i < |s.inflight| && e.table.Some?
    requires (s.inflight[e.i].Live? || s.inflight[e.i].AfterReply?) && Accepted(s.view, s.inflight[e.i])
    ensures var u := Step(limit, s, e);
            Listed(OpenHistory(w, u.view), limit, u) && CursorsListed(u)
  {
    hide MessagesPage, Full, HasCursor, Readable, Shows, MergeNewest, OpenIsAlone, Meets, Step, DistinctIds;
    AnsweredStep(limit, s, e);
    var q, t := s.inflight[e.i], e.table.value;
    var u := Step(limit, s, e);
    if t == {} {
      EmptyRefetch(limit, s.view, q);
    } else {
      FullDistinct(w, q.conversation);
      RefetchKeepsListed(Full(w, q.conversation), limit, s, q, t);
    }
    RemainingCursors(s, u, e.i);
  }

  lemma StepKeepsFaithful(w: World, limit: nat, s: System, e: Event)
    requires Readable(w) && Answerable(e) && limit >= 1 && Faithful(w, limit, s)
    requires AnswersFrom(w, s, e) && Fits(w, limit, s, e)
    ensures Faithful(w, limit, Step(limit, s, e))
  {
    StepKeepsOpenAlone(limit, s, e);
    hide OpenIsAlone, Listed, CursorsListed, Readable, Fits, AnswersFrom, OpenHistory, Resolve, Answer;
    if !e.Arrive? {
      StartKeepsFaithful(w, limit, s, e);
    } else if e.i < |s.inflight| {
      var q := s.inflight[e.i];
      if e.table.None? || !Accepted(s.view, q) {
        OtherAnswerKeepsFaithful(w, limit, s, e);
      } else if q.Open? {
        OpenAnswerKeepsFaithful(w, limit, s, e);
      } else if q.Older? {
        OlderAnswerKeepsFaithful(w, limit, s, e);
      } else {
        RefetchKeepsFaithful(w, limit, s, e);
      }
    }
  }

  /** Every answer comes from a growing conversation, and every refetched page fits where it comes in. */
  ghost predicate RunFits(w: World, limit: nat, s: System, es: seq<Event>)
    requires Readable(w)
    decreases es
  {
    es != [] ==>
      Answerable(es[0]) && AnswersFrom(w, s, es[0]) && Fits(w, limit, s, es[0])
      && RunFits(w, limit, Step(limit, s, es[0]), es[1..])
  }

  lemma {:induction false} RunFitsAnswerable(w: World, limit: nat, s: System, es: seq<Event>)
    requires Readable(w) && RunFits(w, limit, s, es)
    ensures forall i :: 0 <= i < |es| ==> Answerable(es[i])
    decreases es
  {
    if es == [] {
    } else {
      RunFitsAnswerable(w, limit, Step(limit, s, es[0]), es[1..]);
      assert forall i :: 0 < i < |es| ==> es[i] == es[1..][i - 1];
    }
  }

  lemma {:induction false} RunKeepsFaithful(w: World, limit: nat, s: System, es: seq<Event>)
    requires Readable(w) && limit >= 1 && Faithful(w, limit, s) && RunFits(w, limit, s, es)
    requires forall i :: 0 <= i < |es| ==> Answerable(es[i])
    ensures Faithful(w, limit, Run(limit, s, es))
    decreases es
  {
    if es == [] {
    } else {
      StepKeepsFaithful(w, limit, s, es[0]);
      hide Faithful, Step, Answerable, AnswersFrom, Fits;
      RunKeepsFaithful(w, limit, Step(limit, s, es[0]), es[1..]);
    }
  }

  /**
   * Over conversations that grow, whatever is opened in between and whatever answers are late, lost or overtaken:
   * as long as the refetched pages fit, the list is a stretch of the open conversation's history in chronological
   * order, at least one page long unless it is empty, and from its very beginning once the last page is applied.
   */
  lemma HistoryRebuilt(w: World, limit: nat, es: seq<Event>)
    requires Readable(w) && limit >= 1 && RunFits(w, limit, Mounted(), es)
    requires forall i :: 0 <= i < |es| ==> Answerable(es[i])
    ensures var s := Run(limit, Mounted(), es);
            var h := OpenHistory(w, s.view);
            && (exists p: nat, n: nat :: Shows(h, limit, s.view.list, p, n))
            && (s.exhausted ==> s.view.list <= h)
  {
    assert Shows(OpenHistory(w, Mounted().view), limit, [], 0, 0);
    RunKeepsFaithful(w, limit, Mounted(), es);
  }

  // ---------- loading to the beginning ----------

  /** "Load older" and its answer, `n` times. */
  function Rounds(t: set<Row>, n: nat): seq<Event> {
    if n == 0 then [] else Rounds(t, n - 1) + [LoadOlder, Arrive(0, Some(t))]
  }

  lemma {:induction false} RunConcat(limit: nat, s: System, a: seq<Event>, b: seq<Event>)
    requires forall i :: 0 <= i < |a| ==> Answerable(a[i])
    requires forall i :: 0 <= i < |b| ==> Answerable(b[i])
    ensures Run(limit, s, a + b) == Run(limit, Run(limit, s, a), b)
    decreases a
  {
    hide Step;
    if a == [] {
      assert a + b == b;
    } else {
      assert (a + b)[0] == a[0] && (a + b)[1..] == a[1..] + b;
      RunConcat(limit, Step(limit, s, a[0]), a[1..], b);
    }
  }

  lemma TwoSteps(limit: nat, s: System, e: Event, f: Event)
    requires Answerable(e) && Answerable(f)
    ensures Run(limit, s, [e, f]) == Step(limit, Step(limit, s, e), f)
  {
    hide Step;
    assert [e, f][1..] == [f] && [f][1..] == [];
    var m := Step(limit, s, e);
    assert Run(limit, m, [f]) == Run(limit, Step(limit, m, f), []);
  }

  lemma RoundsAnswerable(t: set<Row>, n: nat)
    requires UniqueIds(t)
    ensures forall i :: 0 <= i < |Rounds(t, n)| ==> Answerable(Rounds(t, n)[i])
  {
  }

  /** Nothing is in flight, and the list is the history from the x-th message on. */
  ghost predicate ShowsFrom(t: set<Row>, c: int, s: System, x: nat)
    requires UniqueIds(t)
  {
    var h := History(t);
    && x <= |h| && s.inflight == []
    && s.view == View(s.view.gen, Conversation(c), h[x..|h|], CursorBefore(h, x), x > 0)
    && s.exhausted == (x == 0)
  }

  lemma FirstRound(limit: nat, c: int, t: set<Row>, s: System)
    requires UniqueIds(t) && limit >= 1 && s.inflight == []
    ensures var u := Step(limit, Step(limit, s, Select(c)), Arrive(0, Some(t)));
            ShowsFrom(t, c, u, Max(0, |t| - limit))
  {
    var m := Step(limit, s, Select(c));
    assert m.inflight == [Open(m.view.gen, c)];
    HistoryDistinct(t);
    OpenTaken(History(t), limit, m.view, m.view.gen, c, t);
    AnsweredStep(limit, m, Arrive(0, Some(t)));
    hide MessagesPage, IsSorted, Shows;
  }

  lemma NextRound(limit: nat, c: int, t: set<Row>, s: System, x: nat)
    requires UniqueIds(t) && limit >= 1 && ShowsFrom(t, c, s, x) && (x == 0 || x <= |t| - limit)
    ensures var u := Step(limit, Step(limit, s, LoadOlder), Arrive(0, Some(t)));
            ShowsFrom(t, c, u, Max(0, x - limit))
  {
    hide MessagesPage, IsSorted, CursorFor, MergeOlder, MergeNewest, HasCursor, Sorted, Reverse;
    var h := History(t);
    HistoryDistinct(t);
    if x > 0 {
      var m := Step(limit, s, LoadOlder);
      var q := m.inflight[0];
      assert m.inflight == [q] && q.Older? && q.cursor == CursorFor(NEWEST_FIRST, h[x]);
      assert Drop(m.inflight, 0) == [];
      AnsweredStep(limit, m, Arrive(0, Some(t)));
      hide Step, History, DistinctIds;
      OlderRound(h, limit, m.view, q, t, x);
    }
  }

  lemma OlderRound(h: seq<Row>, limit: nat, v: View, q: Request, t: set<Row>, x: nat)
    requires UniqueIds(t) && limit >= 1 && h == History(t) && DistinctIds(h) && q.Older? && q.gen == v.gen
    requires 0 < x < |h| && x <= |h| - limit && v.list == h[x..|h|] && q.cursor == CursorFor(NEWEST_FIRST, h[x])
    ensures var a := Max(0, x - limit);
            Resolve(v, q, Got(MessagesPage(t, Some(q.cursor), limit)))
              == View(v.gen, v.selected, h[a..|h|], CursorBefore(h, a), a > 0)
  {
    hide MessagesPage, MergeOlder, HasCursor, History, Resolve, CursorBefore, CursorFor, DistinctIds, UniqueIds;
    WholeHasCursor(h, x);
    OlderPageAt(h, limit, v, q, t, x, |h|, x);
  }

  lemma WholeHasCursor(h: seq<Row>, x: nat)
    requires x < |h|
    ensures HasCursor(h, CursorFor(NEWEST_FIRST, h[x]))
  {
    assert h[x] in h;
  }

  /** Opening a conversation and loading older pages `n` times shows its newest n + 1 pages, in the end all of it. */
  lemma {:induction false} LoadingOlderReachesTheBeginning(limit: nat, c: int, t: set<Row>, s: System, n: nat)
    requires UniqueIds(t) && limit >= 1 && s.inflight == []
    requires var es := [Select(c), Arrive(0, Some(t))] + Rounds(t, n); forall i :: 0 <= i < |es| ==> Answerable(es[i])
    ensures var u := Run(limit, s, [Select(c), Arrive(0, Some(t))] + Rounds(t, n));
            && ShowsFrom(t, c, u, Max(0, |t| - (n + 1) * limit))
            && (|t| <= (n + 1) * limit ==> u.view.list == History(t) && !u.view.hasMore)
  {
    hide Step, History, ShowsFrom, UniqueIds, Run;
    var first := [Select(c), Arrive(0, Some(t))];
    RoundsAnswerable(t, n);
    if n == 0 {
      assert first + Rounds(t, n) == first;
      TwoSteps(limit, s, first[0], first[1]);
      FirstRound(limit, c, t, s);
    } else {
      RoundsAnswerable(t, n - 1);
      LoadingOlderReachesTheBeginning(limit, c, t, s, n - 1);
      var again := [LoadOlder, Arrive(0, Some(t))];
      assert first + Rounds(t, n) == (first + Rounds(t, n - 1)) + again;
      RunConcat(limit, s, first + Rounds(t, n - 1), again);
      var m := Run(limit, s, first + Rounds(t, n - 1));
      TwoSteps(limit, m, again[0], again[1]);
      OneMorePage(n, limit);
      NextRound(limit, c, t, m, Max(0, |t| - n * limit));
    }
    var u := Run(limit, s, first + Rounds(t, n));
    if |t| <= (n + 1) * limit { WholeHistoryShown(t, c, u); }
  }

  lemma OneMorePage(n: nat, limit: nat)
    requires n > 0
    ensures (n + 1) * limit == n * limit + limit && n * limit >= limit
  {
  }

  lemma WholeHistoryShown(t: set<Row>, c: int, s: System)
    requires UniqueIds(t) && ShowsFrom(t, c, s, 0)
    ensures s.view.list == History(t) && !s.view.hasMore
  {
    assert History(t)[0..|History(t)|] == History(t);
  }

  // ---------- exactly when a refetch fits ----------

  /** No message id occurs in two conversations. */
  ghost predicate DisjointIds(w: World) {
    forall c, d, a, b :: c in w && d in w && c != d && a in w[c] && b in w[d] ==> a.id != b.id
  }

  lemma FullMember(w: World, c: int, r: Row)
    requires Readable(w)
    ensures r in Full(w, c) <==> c in w && r in w[c]
  {
    if c in w { HistoryDistinct(w[c]); }
  }

  /** The newest message of another conversation ends up in the list. */
  lemma ForeignRow(w: World, limit: nat, v: View, c: int, t: set<Row>, p: nat, n: nat)
    requires Readable(w) && DisjointIds(w) && limit >= 1 && Grown(w, AfterReply(c), t) && t != {}
    requires v.selected != Conversation(c) && IsStretch(OpenHistory(w, v), v.list, p, n)
    ensures exists r :: r in MergeNewest(v.list, MessagesPage(t, None, limit).data) && r !in OpenHistory(w, v)
  {
    hide MessagesPage, DistinctIds, History, MergeNewest;
    var mine, h := Full(w, c), OpenHistory(w, v);
    var y := |t|;
    NewestPage(t, mine, limit);
    var row := mine[y - 1];
    var page := mine[Max(0, y - limit)..y];
    assert page[|page| - 1] == row;
    FullMember(w, c, row);
    forall r | r in h ensures r.id != row.id { FullMember(w, v.selected.id, r); }
    hide Full, OpenHistory, DisjointIds, Readable;
    NewRowGoesIn(h, v.list, p, n, page, row);
  }

  lemma NewRowGoesIn(h: seq<Row>, list: seq<Row>, p: nat, n: nat, page: seq<Row>, row: Row)
    requires IsStretch(h, list, p, n) && row in page && forall r :: r in h ==> r.id != row.id
    ensures row in MergeNewest(list, page) && row !in h
  {
    assert forall r :: r in list ==> r in h;
    assert row.id !in IdsOf(list);
    WithoutMember(page, IdsOf(list), row);
  }

  ghost predicate Ordered(h: seq<Row>, list: seq<Row>) {
    exists a: nat, b: nat :: IsStretch(h, list, a, b)
  }

  /**
   * A refetched page with messages in it leaves the list in order exactly if it is for the open conversation and
   * the list is empty, or the page starts inside the list or right behind it.
   */
  lemma RefetchFitsIff(w: World, limit: nat, v: View, q: Request, t: set<Row>, p: nat, n: nat)
    requires Readable(w) && DisjointIds(w) && limit >= 1 && Grown(w, q, t) && t != {}
    requires (q.Live? || q.AfterReply?) && Accepted(v, q) && Shows(OpenHistory(w, v), limit, v.list, p, n)
    ensures Ordered(OpenHistory(w, v), Resolve(v, q, Got(MessagesPage(t, None, limit))).list)
       <==> v.selected == Conversation(q.conversation) && (v.list == [] || p <= Max(0, |t| - limit) <= n)
  {
    hide MessagesPage, Full, DisjointIds, MergeNewest, DistinctIds, History;
    var h := OpenHistory(w, v);
    var u := Resolve(v, q, Got(MessagesPage(t, None, limit)));
    if v.selected != Conversation(q.conversation) {
      ForeignRow(w, limit, v, q.conversation, t, p, n);
    } else {
      FullDistinct(w, q.conversation);
      if v.list == [] || p <= Max(0, |t| - limit) <= n {
        RefetchTaken(h, limit, v, q, t, p, n);
      } else {
        NewestPage(t, h, limit);
        RefetchBreaks(h, p, n, Max(0, |t| - limit), |t|);
      }
    }
  }

  ghost predicate IsSuffix(h: seq<Row>, list: seq<Row>) {
    exists a: nat :: IsStretch(h, list, a, |h|)
  }

  /**
   * After a reply: when the refetch shows the conversation as it is, the list ends up as its newest part exactly if
   * that conversation is still open and no more than one page of messages has come in behind the list.
   */
  lemma ReplyRefetchIff(w: World, limit: nat, v: View, c: int, p: nat, n: nat)
    requires Readable(w) && DisjointIds(w) && limit >= 1 && c in w && w[c] != {}
    requires Shows(OpenHistory(w, v), limit, v.list, p, n)
    ensures IsSuffix(OpenHistory(w, v), Resolve(v, AfterReply(c), Got(MessagesPage(w[c], None, limit))).list)
       <==> v.selected == Conversation(c) && (v.list == [] || |OpenHistory(w, v)| <= n + limit)
  {
    hide MessagesPage, DisjointIds, MergeNewest, DistinctIds, History, Resolve, Ordered, IsSuffix, Full;
    var h, q := OpenHistory(w, v), AfterReply(c);
    HistoryDistinct(w[c]);
    FullIs(w, c);
    RefetchFitsIff(w, limit, v, q, w[c], p, n);
    SuffixIsOrdered(h, Resolve(v, q, Got(MessagesPage(w[c], None, limit))).list);
    if v.selected == Conversation(c) && (v.list == [] || |h| <= n + limit) {
      FullDistinct(w, c);
      SuffixAfterRefetch(h, limit, v, q, w[c], p, n);
    }
  }

  lemma FullIs(w: World, c: int)
    requires Readable(w) && c in w
    ensures Full(w, c) == History(w[c])
  {
  }

  lemma SuffixIsOrdered(h: seq<Row>, list: seq<Row>)
    ensures IsSuffix(h, list) ==> Ordered(h, list)
  {
  }

  lemma SuffixAfterRefetch(h: seq<Row>, limit: nat, v: View, q: Request, t: set<Row>, p: nat, n: nat)
    requires UniqueIds(t) && limit >= 1 && h == History(t) && |h| == |t| && DistinctIds(h) && q.AfterReply?
    requires Shows(h, limit, v.list, p, n) && (v.list == [] || |h| <= n + limit)
    ensures IsSuffix(h, Resolve(v, q, Got(MessagesPage(t, None, limit))).list)
  {
    hide MessagesPage, History, DistinctIds, MergeNewest;
    RefetchTaken(h, limit, v, q, t, p, n);
    var u := Resolve(v, q, Got(MessagesPage(t, None, limit)));
    assert IsStretch(h, u.list, if v.list == [] then Max(0, |h| - limit) else p, |h|);
  }

  /**
   * A conversation shown from some message on has grown by at most a page when a realtime event or a reply makes the
   * client refetch: answered before anything else happens, the list goes on to the new end.
   */
  lemma RefetchRound(limit: nat, c: int, t: set<Row>, s: System, x: nat, e: Event, u: set<Row>)
    requires UniqueIds(t) && UniqueIds(u) && limit >= 1 && ShowsFrom(t, c, s, x) && (x == 0 || x <= |t| - limit)
    requires (e.Realtime? || e.Replied?) && History(t) <= History(u) && |u| <= |t| + limit && t != {}
    ensures var d := Step(limit, Step(limit, s, e), Arrive(0, Some(u)));
            && d.inflight == [] && d.view.list == History(u)[x..|u|]
            && d.view.gen == s.view.gen && d.view.cursor == s.view.cursor && d.view.hasMore == s.view.hasMore
  {
    hide MessagesPage, IsSorted, Sorted, Reverse, MergeNewest, MergeOlder, CursorFor;
    HistoryDistinct(t);
    HistoryDistinct(u);
    var m := Step(limit, s, e);
    var q := m.inflight[0];
    assert m.inflight == [q] && (q.Live? || q.AfterReply?) && q.conversation == c && Drop(m.inflight, 0) == [];
    AnsweredStep(limit, m, Arrive(0, Some(u)));
    hide Step;
    var h := History(u);
    StretchOfLonger(History(t), h, x);
    hide History, DistinctIds;
    RefetchTaken(h, limit, m.view, q, u, x, |t|);
    AnswerIsApplied(m.view, q, Got(MessagesPage(u, None, limit)));
  }

  lemma StretchOfLonger(short: seq<Row>, long: seq<Row>, x: nat)
    requires short <= long && x <= |short|
    ensures short[x..|short|] == long[x..|short|]
  {
  }

  // ---------- the component ----------

  /** Whatever else is in flight, the event takes the view from `before` to `after` and sends these requests. */
  ghost predicate IsStart(e: Event, before: View, after: View, sent: seq<Request>)
    requires !e.Arrive?
  {
    forall limit, inflight, exhausted ::
      Step(limit, System(before, inflight, exhausted), e) == System(after, inflight + sent, exhausted && !e.Select?)
  }

  /** The refs and state of the open conversation; each handler is split where it awaits its answer. */
  class OpenThread {
    var messagesRequestId: nat
    var selectedId: Selection
    var messages: seq<Row>
    var messagesCursor: Option<Cursor>
    var messagesHasMore: bool

    ghost function State(): View
      reads this
    {
      View(messagesRequestId, selectedId, messages, messagesCursor, messagesHasMore)
    }

    constructor ()
      ensures State() == Mounted().view
    {
      messagesRequestId, selectedId, messages, messagesCursor, messagesHasMore := 0, Nothing, [], None, false;
    }

    method SelectConversation(conversation: int) returns (q: Request)
      modifies this
      ensures IsStart(Select(conversation), old(State()), State(), [q])
      ensures State() == View(old(messagesRequestId) + 1, Conversation(conversation), [], None, false)
    {
      selectedId := Conversation(conversation);
      messages := [];
      messagesCursor := None;
      messagesHasMore := false;
      messagesRequestId := messagesRequestId + 1;
      q := Open(messagesRequestId, conversation);
    }

    method StartLoadOlder() returns (q: Option<Request>)
      ensures IsStart(LoadOlder, State(), State(), if q.Some? then [q.value] else [])
    {
      if !messagesHasMore || messagesCursor.None? || selectedId.Nothing? { return None; }
      q := Some(Older(messagesRequestId, selectedId.id, messagesCursor.value));
    }

    /** The rest of a handler, when its answer arrives. */
    method Finish(q: Request, r: Reply)
      modifies this
      ensures State() == Resolve(old(State()), q, r)
    {
      match q {
        case Open(gen, _) =>
          if gen != messagesRequestId { return; }
          messages := if r.Got? then r.page.data else [];
          messagesCursor := if r.Got? then r.page.nextCursor else None;
          messagesHasMore := r.Got? && r.page.hasMore;
        case Older(gen, _, _) =>
          if r.Failed? || gen != messagesRequestId { return; }
          messages := MergeOlder(r.page.data, messages);
          messagesCursor := r.page.nextCursor;
          messagesHasMore := r.page.hasMore;
        case Live(conversation) =>
          if r.Failed? || selectedId != Conversation(conversation) { return; }
          messages := MergeNewest(messages, r.page.data);
        case AfterReply(_) =>
          if r.Failed? { return; }
          messages := MergeNewest(messages, r.page.data);
      }
    }
  }
}
