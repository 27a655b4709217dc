/**
 * Keyset pagination: the ORDER BY of each list endpoint, the WHERE clause its cursor turns into,
 * and the page cut out of the result.
 */
module Keyset {
  import opened Basics

  datatype Direction = Asc | Desc

  /**
   * A row of any listed table, reduced to the columns lists sort and filter on. `value` is a column
   * that is never null (createdAt, receivedAt, name, ...), `stamp` the nullable lastMessageAt, `rank`
   * the integer priority, and `shown` whether the row passes the filter applied after the query.
   * Dates and strings are represented by their rank in the column's order.
   */
  datatype Row = Row(id: int, rank: int, value: int, stamp: Option<int>, shown: bool)

  datatype Order =
    | Single(dir: Direction)      // keysetOr: one non-null field, then id
    | Nullable(dir: Direction)    // lastMessageAtKeyset: nulls first when descending, last when ascending
    | Ranked                      // conversations by default: rank, stamp, id, all descending
    | RankedDated                 // rules by default: rank, value, id, all descending

  /** The decoded cursor. It names the order it was minted for and holds the last row's sort columns. */
  datatype Cursor = Cursor(order: Order, rank: int, value: int, stamp: Option<int>, id: int)

  datatype Page = Page(data: seq<Row>, nextCursor: Option<Cursor>, hasMore: bool)

  // ---------- limits ----------

  const DEFAULT_PAGE_LIMIT: nat := 50
  const MAX_PAGE_LIMIT: nat := 200

  /** `Number(raw)`: NaN and the infinities are the values `Number.isFinite` rejects. */
  datatype Num = NotFinite | Finite(v: real)

  function ParseLimit(n: Num): (limit: nat)
    ensures limit <= MAX_PAGE_LIMIT
  {
    if n.NotFinite? || n.v <= 0.0 then DEFAULT_PAGE_LIMIT
    else if n.v.Floor <= MAX_PAGE_LIMIT then n.v.Floor else MAX_PAGE_LIMIT
  }

  /** A limit of zero comes out exactly for the fractions in (0, 1): the floor is taken after the sign check. */
  lemma ParseLimitZero(n: Num)
    ensures ParseLimit(n) == 0 <==> n.Finite? && 0.0 < n.v < 1.0
  {
  }

  /** A positive limit is rounded down and capped, anything else is the default; whole limits in range are kept. */
  lemma ParseLimitMeaning(n: Num, k: nat)
    ensures n.Finite? && 0.0 < n.v && k as real <= n.v < (k + 1) as real ==> ParseLimit(n) == Min(k, 200)
    ensures n.NotFinite? || n.v <= 0.0 ==> ParseLimit(n) == 50
    ensures 1 <= k <= 200 ==> ParseLimit(Finite(k as real)) == k
  {
    if n.Finite? && k as real <= n.v < (k + 1) as real { assert n.v.Floor == k; }
    assert (k as real).Floor == k;
  }

  // ---------- ORDER BY ----------

  predicate Earlier(dir: Direction, x: int, y: int) {
    if dir == Desc then x > y else x < y
  }

  /** SQL's order on a nullable column, nulls first when descending and last when ascending. */
  predicate StampEarlier(dir: Direction, x: Option<int>, y: Option<int>) {
    match (x, y)
    case (None, None) => false
    case (None, Some(_)) => dir == Desc
    case (Some(_), None) => dir == Asc
    case (Some(u), Some(v)) => Earlier(dir, u, v)
  }

  /** Row `a` is returned before row `b`. */
  predicate Before(o: Order, a: Row, b: Row) {
    match o
    case Single(dir) => Earlier(dir, a.value, b.value) || (a.value == b.value && Earlier(dir, a.id, b.id))
    case Nullable(dir) => StampEarlier(dir, a.stamp, b.stamp) || (a.stamp == b.stamp && Earlier(dir, a.id, b.id))
    case Ranked =>
      a.rank > b.rank
      || (a.rank == b.rank && (StampEarlier(Desc, a.stamp, b.stamp) || (a.stamp == b.stamp && a.id > b.id)))
    case RankedDated =>
      a.rank > b.rank
      || (a.rank == b.rank && (a.value > b.value || (a.value == b.value && a.id > b.id)))
  }

  /** A column as a sort key: larger first when descending, nulls before everything then and after it otherwise. */
  function ColumnKey(dir: Direction, x: Option<int>): (key: seq<int>)
    ensures |key| == 2
  {
    match (dir, x)
    case (Desc, None) => [0, 0]
    case (Desc, Some(v)) => [1, -v]
    case (Asc, Some(v)) => [0, v]
    case (Asc, None) => [1, 0]
  }

  /** The columns of each ORDER BY, most significant first. */
  function SortKey(o: Order, r: Row): seq<int> {
    match o
    case Single(dir) => ColumnKey(dir, Some(r.value)) + ColumnKey(dir, Some(r.id))
    case Nullable(dir) => ColumnKey(dir, r.stamp) + ColumnKey(dir, Some(r.id))
    case Ranked => ColumnKey(Desc, Some(r.rank)) + ColumnKey(Desc, r.stamp) + ColumnKey(Desc, Some(r.id))
    case RankedDated => ColumnKey(Desc, Some(r.rank)) + ColumnKey(Desc, Some(r.value)) + ColumnKey(Desc, Some(r.id))
  }

  predicate LexLess(a: seq<int>, b: seq<int>)
    requires |a| == |b|
  {
    a != [] && (a[0] < b[0] || (a[0] == b[0] && LexLess(a[1..], b[1..])))
  }

  lemma LexColumn(dir: Direction, x: Option<int>, y: Option<int>, a: seq<int>, b: seq<int>)
    requires |a| == |b|
    ensures LexLess(ColumnKey(dir, x) + a, ColumnKey(dir, y) + b) <==>
              StampEarlier(dir, x, y) || (x == y && LexLess(a, b))
  {
    var p, q := ColumnKey(dir, x) + a, ColumnKey(dir, y) + b;
    assert p[1..][1..] == a && q[1..][1..] == b;
    assert LexLess(p[1..], q[1..]) <==> p[1] < q[1] || (p[1] == q[1] && LexLess(a, b));
  }

  /** Each order is the lexicographic one of its columns. */
  lemma BeforeIsLexicographic(o: Order, a: Row, b: Row)
    ensures Before(o, a, b) <==> LexLess(SortKey(o, a), SortKey(o, b))
  {
    var dir := if o.Single? || o.Nullable? then o.dir else Desc;
    var ia, ib := ColumnKey(dir, Some(a.id)), ColumnKey(dir, Some(b.id));
    LexColumn(dir, Some(a.id), Some(b.id), [], []);
    assert ia + [] == ia && ib + [] == ib;
    hide LexLess, ColumnKey;
    match o
    case Single(_) => LexColumn(dir, Some(a.value), Some(b.value), ia, ib);
    case Nullable(_) => LexColumn(dir, a.stamp, b.stamp, ia, ib);
    case Ranked =>
      LexColumn(Desc, a.stamp, b.stamp, ia, ib);
      LexTwo(a.rank, b.rank, ColumnKey(Desc, a.stamp), ColumnKey(Desc, b.stamp), ia, ib);
    case RankedDated =>
      LexColumn(Desc, Some(a.value), Some(b.value), ia, ib);
      LexTwo(a.rank, b.rank, ColumnKey(Desc, Some(a.value)), ColumnKey(Desc, Some(b.value)), ia, ib);
  }

  lemma LexTwo(x: int, y: int, a: seq<int>, b: seq<int>, c: seq<int>, d: seq<int>)
    requires |a| == |b| && |c| == |d|
    ensures LexLess(ColumnKey(Desc, Some(x)) + a + c, ColumnKey(Desc, Some(y)) + b + d) <==>
              x > y || (x == y && LexLess(a + c, b + d))
  {
    hide LexLess, ColumnKey;
    LexColumn(Desc, Some(x), Some(y), a + c, b + d);
    assert ColumnKey(Desc, Some(x)) + a + c == ColumnKey(Desc, Some(x)) + (a + c);
    assert ColumnKey(Desc, Some(y)) + b + d == ColumnKey(Desc, Some(y)) + (b + d);
  }

  // ---------- WHERE ----------

  /** A comparison with SQL null is never true. */
  predicate SqlCmp(dir: Direction, x: Option<int>, v: int) {
    x.Some? && (if dir == Desc then x.value < v else x.value > v)
  }

  predicate IdCmp(dir: Direction, x: int, v: int) {
    if dir == Desc then x < v else x > v
  }

  /** The WHERE clause built from a cursor, branch by branch. */
  predicate Past(c: Cursor, r: Row) {
    match c.order
    case Single(dir) =>
      SqlCmp(dir, Some(r.value), c.value) || (r.value == c.value && IdCmp(dir, r.id, c.id))
    case Nullable(Desc) =>
      if c.stamp.None? then (r.stamp.None? && r.id < c.id) || r.stamp.Some?
      else SqlCmp(Desc, r.stamp, c.stamp.value) || (r.stamp == c.stamp && r.id < c.id)
    case Nullable(Asc) =>
      if c.stamp.None? then r.stamp.None? && r.id > c.id
      else SqlCmp(Asc, r.stamp, c.stamp.value) || (r.stamp == c.stamp && r.id > c.id) || r.stamp.None?
    case Ranked =>
      r.rank < c.rank
      || (r.rank == c.rank
          && if c.stamp.Some?
             then SqlCmp(Desc, r.stamp, c.stamp.value) || (r.stamp == c.stamp && r.id < c.id)
             else r.stamp.None? && r.id < c.id)
    case RankedDated =>
      r.rank < c.rank
      || (r.rank == c.rank && r.value < c.value)
      || (r.rank == c.rank && r.value == c.value && r.id < c.id)
  }

  /** The cursor minted from a page's last row. */
  function CursorFor(o: Order, r: Row): Cursor {
    match o
    case Single(_) => Cursor(o, 0, r.value, None, r.id)
    case Nullable(_) => Cursor(o, 0, 0, r.stamp, r.id)
    case Ranked => Cursor(o, r.rank, 0, r.stamp, r.id)
    case RankedDated => Cursor(o, r.rank, r.value, None, r.id)
  }

  /** The pair on which the default conversation order and its WHERE clause disagree. */
  predicate NullBoundary(o: Order, last: Row, r: Row) {
    o.Ranked? && last.stamp.None? && r.stamp.Some? && r.rank == last.rank
  }

  /** The clause is "strictly after the cursor's row" in the list's own order, except at a null boundary. */
  lemma PastIsStrictlyAfter(o: Order, last: Row, r: Row)
    ensures (Past(CursorFor(o, last), r) <==> Before(o, last, r)) <==> !NullBoundary(o, last, r)
  {
  }

  /** What a list shows after a page ending in `last` is the true remainder exactly when no null boundary follows. */
  lemma NextPageIsRemainder(o: Order, t: set<Row>, last: Row)
    ensures (set r | r in t && Past(CursorFor(o, last), r)) == (set r | r in t && Before(o, last, r))
       <==> CleanCut(o, t, last)
  {
    var got, due := set r | r in t && Past(CursorFor(o, last), r), set r | r in t && Before(o, last, r);
    forall r | r in t
      ensures (r in got <==> r in due) <==> !NullBoundary(o, last, r)
    {
      PastIsStrictlyAfter(o, last, r);
    }
    assert got == due <==> forall r :: r in t ==> (r in got <==> r in due);
  }

  /** A conversation without messages ends the page and the dated one of equal rank is never reached. */
  lemma NullBoundarySkipsARow()
    ensures var empty, dated := Row(2, 10, 0, None, true), Row(1, 10, 0, Some(5), true);
            Before(Ranked, empty, dated) && !Past(CursorFor(Ranked, empty), dated)
  {
  }

  // ---------- the sorted table ----------

  ghost predicate UniqueIds(t: set<Row>) {
    forall a, b :: a in t && b in t && a.id == b.id ==> a == b
  }

  /** Every row the default conversation order meets is dated; the other orders ask nothing. */
  ghost predicate Dated(o: Order, t: set<Row>) {
    o.Ranked? ==> forall r :: r in t ==> r.stamp.Some?
  }

  /** No row of the table is at a null boundary behind `last`. */
  ghost predicate CleanCut(o: Order, t: set<Row>, last: Row) {
    forall r :: r in t ==> !NullBoundary(o, last, r)
  }

  ghost predicate Increasing(o: Order, s: seq<Row>) {
    forall i, j :: 0 <= i < j < |s| ==> Before(o, s[i], s[j])
  }

  ghost predicate Lists(s: seq<Row>, t: set<Row>) {
    forall r :: r in s <==> r in t
  }

  /** The order is a strict total order on rows with distinct ids. */
  lemma BeforeIsTotal(o: Order, a: Row, b: Row)
    ensures !(Before(o, a, b) && Before(o, b, a))
    ensures a.id != b.id ==> Before(o, a, b) || Before(o, b, a)
  {
  }

  lemma BeforeIsTransitive(o: Order, a: Row, b: Row, c: Row)
    requires Before(o, a, b) && Before(o, b, c)
    ensures Before(o, a, c)
  {
  }

  ghost function Least(o: Order, t: set<Row>): (m: Row)
    requires t != {} && UniqueIds(t)
    ensures m in t && forall r :: r in t && r != m ==> Before(o, m, r)
  {
    var x :| x in t;
    if t == {x} then x
    else
      var m := Least(o, t - {x});
      assert Before(o, x, m) || Before(o, m, x) by { BeforeIsTotal(o, x, m); }
      assert forall r :: r in t ==> r == x || r in t - {x};
      assert Before(o, x, m) ==> forall r :: r in t && r != x ==> Before(o, x, r) by {
        forall r | Before(o, x, m) && r in t && r != x && r != m ensures Before(o, x, r) {
          BeforeIsTransitive(o, x, m, r);
        }
      }
      if Before(o, x, m) then x else m
  }

  ghost predicate IsSorted(o: Order, t: set<Row>, s: seq<Row>) {
    Lists(s, t) && |s| == |t| && Increasing(o, s)
  }

  lemma SortedExists(o: Order, t: set<Row>)
    requires UniqueIds(t)
    ensures exists s :: IsSorted(o, t, s)
  {
    if t == {} {
      assert IsSorted(o, t, []);
    } else {
      var m := Least(o, t);
      SortedExists(o, t - {m});
      var rest :| IsSorted(o, t - {m}, rest);
      assert IsSorted(o, t, [m] + rest);
    }
  }

  /** `ORDER BY` over the whole table. */
  ghost function Sorted(o: Order, t: set<Row>): (s: seq<Row>)
    requires UniqueIds(t)
    ensures IsSorted(o, t, s)
  {
    SortedExists(o, t);
    var s :| IsSorted(o, t, s);
    s
  }

  /** An increasing list splits at its head. */
  lemma TailMembers(o: Order, a: seq<Row>, r: Row)
    requires Increasing(o, a) && a != []
    ensures r in a[1..] <==> r in a && r != a[0]
    ensures Increasing(o, a[1..])
    ensures r in a && r != a[0] ==> Before(o, a[0], r)
  {
    if r in a && r != a[0] {
      var k :| 1 <= k < |a| && a[k] == r;
      assert a[1..][k - 1] == r;
    }
    if r in a[1..] {
      var k :| 1 <= k < |a| && a[k] == r;
      BeforeIsTotal(o, a[0], a[k]);
    }
  }

  lemma HasMember(s: seq<Row>)
    ensures s == [] || exists r :: r in s
  {
    if s != [] { assert s[0] in s; }
  }

  /** There is only one way to list a set in increasing order. */
  lemma {:induction false} IncreasingIsUnique(o: Order, a: seq<Row>, b: seq<Row>)
    requires Increasing(o, a) && Increasing(o, b)
    requires forall r :: r in a <==> r in b
    ensures a == b
  {
    if a == [] || b == [] {
      HasMember(a);
      HasMember(b);
    } else {
      TailMembers(o, a, b[0]);
      TailMembers(o, b, a[0]);
      assert a[0] in b && b[0] in a;
      BeforeIsTotal(o, a[0], b[0]);
      forall r ensures r in a[1..] <==> r in b[1..] {
        TailMembers(o, a, r);
        TailMembers(o, b, r);
      }
      IncreasingIsUnique(o, a[1..], b[1..]);
      assert a == [a[0]] + a[1..] && b == [b[0]] + b[1..];
    }
  }

  function Flip(o: Order): Order {
    match o
    case Single(dir) => Single(if dir == Asc then Desc else Asc)
    case Nullable(dir) => Nullable(if dir == Asc then Desc else Asc)
    case _ => o
  }

  lemma FlippedBefore(o: Order, a: Row, b: Row)
    requires o.Single? || o.Nullable?
    ensures Before(Flip(o), b, a) <==> Before(o, a, b)
  {
  }

  lemma ReverseIncreasing(o: Order, s: seq<Row>)
    requires Increasing(o, s) && (o.Single? || o.Nullable?)
    ensures Increasing(Flip(o), Reverse(s))
  {
    forall i, j | 0 <= i < j < |s|
      ensures Before(Flip(o), Reverse(s)[i], Reverse(s)[j])
    {
      FlippedBefore(o, s[|s| - 1 - j], s[|s| - 1 - i]);
    }
  }

  /** `rows.slice().reverse()` */
  function Reverse(rows: seq<Row>): (r: seq<Row>)
    ensures |r| == |rows|
    ensures forall i :: 0 <= i < |rows| ==> r[i] == rows[|rows| - 1 - i]
  {
    if rows == [] then [] else Reverse(rows[1..]) + [rows[0]]
  }

  lemma {:induction false} ReverseMember(rows: seq<Row>, r: Row)
    ensures r in Reverse(rows) <==> r in rows
  {
    if rows == [] {
    } else {
      ReverseMember(rows[1..], r);
    }
  }

  lemma {:induction false} ReverseConcat(a: seq<Row>, b: seq<Row>)
    ensures Reverse(a + b) == Reverse(b) + Reverse(a)
  {
    if a == [] {
      assert a + b == b;
    } else {
      assert (a + b)[1..] == a[1..] + b;
      ReverseConcat(a[1..], b);
    }
  }

  lemma MiddlePart(a: seq<Row>, b: seq<Row>, c: seq<Row>, x: nat, y: nat)
    requires x == |a| && y == |a| + |b|
    ensures (a + (b + c))[x..y] == b
  {
  }

  lemma ReverseParts(s: seq<Row>, a: seq<Row>, b: seq<Row>, c: seq<Row>, x: nat, y: nat)
    requires s == a + b + c && x == |c| && y == |c| + |b|
    ensures Reverse(b) == Reverse(s)[x..y]
  {
    hide Reverse;
    ReverseConcat(a + b, c);
    ReverseConcat(a, b);
    MiddlePart(Reverse(c), Reverse(b), Reverse(a), x, y);
  }

  /** A reversed slice is a slice of the reversed list. */
  lemma ReverseSlice(s: seq<Row>, k: nat, e: nat, x: nat, y: nat)
    requires k <= e <= |s| && x == |s| - e && y == |s| - k
    ensures Reverse(s[k..e]) == Reverse(s)[x..y]
  {
    hide Reverse;
    var a, b, c := s[..k], s[k..e], s[e..];
    assert s == a + b + c;
    assert |a| == k && |b| == e - k && |c| == |s| - e;
    ReverseParts(s, a, b, c, x, y);
  }

  /** Reversing a single-column sort direction, nullable or not, reverses the list. */
  lemma AscendingIsReversedDescending(o: Order, t: set<Row>)
    requires UniqueIds(t) && (o.Single? || o.Nullable?)
    ensures Sorted(Flip(o), t) == Reverse(Sorted(o, t))
  {
    ReverseIncreasing(o, Sorted(o, t));
    forall r ensures r in Reverse(Sorted(o, t)) <==> r in t { ReverseMember(Sorted(o, t), r); }
    IncreasingIsUnique(Flip(o), Sorted(Flip(o), t), Reverse(Sorted(o, t)));
  }

  // ---------- one request ----------

  ghost function Matching(t: set<Row>, cursor: Option<Cursor>): (m: set<Row>)
    ensures m <= t
  {
    if cursor.None? then t else set r | r in t && Past(cursor.value, r)
  }

  function Take(s: seq<Row>, n: nat): seq<Row> { if |s| <= n then s else s[..n] }

  /** `buildPage`: one row more than the limit was fetched, and is cut off again. */
  function BuildPage(o: Order, rows: seq<Row>, limit: nat): Page {
    var hasMore := |rows| > limit;
    var data := if hasMore then rows[..limit] else rows;
    var next := if hasMore && data != [] then Some(CursorFor(o, data[|data| - 1])) else None;
    Page(data, next, hasMore)
  }

  /** "There is more" comes with a cursor to reach it by, unless the limit was floored to zero. */
  lemma HasMoreIsReachable(o: Order, rows: seq<Row>, limit: nat)
    ensures var p := BuildPage(o, rows, limit);
            (p.hasMore <==> p.nextCursor.Some?) <==> limit > 0 || rows == []
  {
  }

  /** A cursor, once present, overrides the order asked for in the query. */
  function EffectiveOrder(query: Order, cursor: Option<Cursor>): Order {
    if cursor.Some? then cursor.value.order else query
  }

  /** `findMany({where, orderBy, take: limit + 1})`, then the page. */
  ghost function List(query: Order, t: set<Row>, cursor: Option<Cursor>, limit: nat): Page
    requires UniqueIds(t)
  {
    var o := EffectiveOrder(query, cursor);
    BuildPage(o, Take(Sorted(o, Matching(t, cursor)), limit + 1), limit)
  }

  /** `.filter(...)` on the VIP and unread flags. */
  function Shown(rows: seq<Row>): (r: seq<Row>)
    ensures |r| <= |rows|
  {
    if rows == [] then [] else (if rows[0].shown then [rows[0]] else []) + Shown(rows[1..])
  }

  lemma {:induction false} ShownConcat(a: seq<Row>, b: seq<Row>)
    ensures Shown(a + b) == Shown(a) + Shown(b)
  {
    if a == [] {
      assert a + b == b;
    } else {
      assert (a + b)[0] == a[0] && (a + b)[1..] == a[1..] + b;
      ShownConcat(a[1..], b);
    }
  }

  lemma {:induction false} ShownMember(rows: seq<Row>, r: Row)
    ensures r in Shown(rows) <==> r in rows && r.shown
  {
    if rows == [] {
    } else {
      ShownMember(rows[1..], r);
    }
  }

  /** The conversation list filters VIP and unread after the query and keeps the unfiltered pagination. */
  ghost function ListShown(query: Order, t: set<Row>, cursor: Option<Cursor>, limit: nat): Page
    requires UniqueIds(t)
  {
    var p := List(query, t, cursor, limit);
    p.(data := Shown(p.data))
  }

  /** The cursor left behind by the first k rows of a listing. */
  function CursorAt(o: Order, s: seq<Row>, k: nat): Option<Cursor>
    requires k <= |s|
  {
    if k == 0 then None else Some(CursorFor(o, s[k - 1]))
  }

  /** The rows from k on are those after the one at k - 1. */
  lemma SuffixMembers(o: Order, s: seq<Row>, k: nat, r: Row)
    requires Increasing(o, s) && 0 < k <= |s|
    ensures r in s[k..] <==> r in s && Before(o, s[k - 1], r)
  {
    if r in s[k..] {
      var j :| k <= j < |s| && s[j] == r;
    }
    if r in s && Before(o, s[k - 1], r) {
      var i :| 0 <= i < |s| && s[i] == r;
      BeforeIsTotal(o, s[k - 1], r);
      assert i >= k;
      assert s[k..][i - k] == r;
    }
  }

  /** With the cursor after k rows the database returns exactly the rows from k on. */
  lemma MatchingAt(o: Order, t: set<Row>, k: nat)
    requires UniqueIds(t) && k <= |Sorted(o, t)|
    requires k > 0 ==> CleanCut(o, t, Sorted(o, t)[k - 1])
    ensures Sorted(o, Matching(t, CursorAt(o, Sorted(o, t), k))) == Sorted(o, t)[k..]
  {
    var s := Sorted(o, t);
    if k > 0 {
      assert s[k - 1] in s;
      var m := Matching(t, CursorAt(o, s, k));
      forall r ensures r in s[k..] <==> r in Sorted(o, m) {
        SuffixMembers(o, s, k, r);
        PastIsStrictlyAfter(o, s[k - 1], r);
      }
      IncreasingIsUnique(o, Sorted(o, m), s[k..]);
    }
  }

  /** Cutting a page out of the rows that follow position k. */
  lemma CutPage(o: Order, s: seq<Row>, k: nat, limit: nat)
    requires k <= |s| && limit >= 1
    ensures var e := Min(k + limit, |s|);
            BuildPage(o, Take(s[k..], limit + 1), limit) ==
              Page(s[k..e], if e < |s| then CursorAt(o, s, e) else None, e < |s|)
  {
    var rows := Take(s[k..], limit + 1);
    if k + limit < |s| {
      assert rows[..limit] == s[k..k + limit];
    } else {
      assert rows == s[k..];
    }
  }

  /** The page served after k rows, with the cursor it hands out. */
  lemma PageAt(o: Order, query: Order, t: set<Row>, k: nat, limit: nat)
    requires UniqueIds(t) && k <= |Sorted(o, t)| && limit >= 1
    requires k > 0 ==> CleanCut(o, t, Sorted(o, t)[k - 1])
    requires k == 0 ==> query == o
    ensures var s := Sorted(o, t);
            var e := Min(k + limit, |s|);
            List(query, t, CursorAt(o, s, k), limit) ==
              Page(s[k..e], if e < |s| then CursorAt(o, s, e) else None, e < |s|)
  {
    MatchingAt(o, t, k);
    CutPage(o, Sorted(o, t), k, limit);
  }
}
