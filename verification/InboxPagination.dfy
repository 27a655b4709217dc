/** The client's four page-merging functions, and what they make of pages that come from one list. */
module InboxPagination {
  import opened Basics
  import opened Keyset

  /** A request fails, or brings a page. */
  datatype Reply = Failed | Got(page: Page)

  function Drop<T>(s: seq<T>, i: nat): seq<T>
    requires i < |s|
  {
    s[..i] + s[i + 1..]
  }

  function IdsOf(rows: seq<Row>): set<int> { set r | r in rows :: r.id }

  /** `rows.filter((c) => !ids.has(c.id))` */
  function Without(rows: seq<Row>, ids: set<int>): (r: seq<Row>)
    ensures |r| <= |rows|
  {
    if rows == [] then [] else (if rows[0].id in ids then [] else [rows[0]]) + Without(rows[1..], ids)
  }

  function MergeFreshPage(prev: seq<Row>, top: seq<Row>): seq<Row> {
    top + Without(prev, IdsOf(top))
  }

  function AppendPage(prev: seq<Row>, next: seq<Row>): seq<Row> {
    prev + Without(next, IdsOf(prev))
  }

  function MergeNewest(prev: seq<Row>, top: seq<Row>): seq<Row> {
    prev + Without(top, IdsOf(prev))
  }

  function MergeOlder(older: seq<Row>, prev: seq<Row>): seq<Row> {
    Without(older, IdsOf(prev)) + prev
  }

  ghost predicate DistinctIds(rows: seq<Row>) {
    forall i, j :: 0 <= i < j < |rows| ==> rows[i].id != rows[j].id
  }

  lemma {:induction false} WithoutMember(rows: seq<Row>, ids: set<int>, r: Row)
    ensures r in Without(rows, ids) <==> r in rows && r.id !in ids
  {
    if rows == [] {
    } else {
      WithoutMember(rows[1..], ids, r);
    }
  }

  lemma {:induction false} WithoutDistinct(rows: seq<Row>, ids: set<int>)
    requires DistinctIds(rows)
    ensures DistinctIds(Without(rows, ids))
  {
    if rows == [] {
    } else {
      var rest := Without(rows[1..], ids);
      WithoutDistinct(rows[1..], ids);
      forall j | 0 <= j < |rest| ensures rest[j].id != rows[0].id {
        WithoutMember(rows[1..], ids, rest[j]);
        assert rest[j] in rest;
      }
    }
  }

  lemma ConcatDistinct(a: seq<Row>, b: seq<Row>)
    requires DistinctIds(a) && DistinctIds(b) && IdsOf(a) !! IdsOf(b)
    ensures DistinctIds(a + b)
  {
    forall i, j | 0 <= i < j < |a + b| ensures (a + b)[i].id != (a + b)[j].id {
      if i < |a| <= j {
        assert a[i] in a && b[j - |a|] in b;
        assert a[i].id in IdsOf(a) && b[j - |a|].id in IdsOf(b);
      }
    }
  }

  lemma WithoutIds(a: seq<Row>, b: seq<Row>)
    ensures IdsOf(Without(b, IdsOf(a))) == IdsOf(b) - IdsOf(a)
  {
    var w := Without(b, IdsOf(a));
    forall r: Row ensures r in w <==> r in b && r.id !in IdsOf(a) {
      WithoutMember(b, IdsOf(a), r);
    }
  }

  lemma IdsConcat(a: seq<Row>, b: seq<Row>)
    ensures IdsOf(a + b) == IdsOf(a) + IdsOf(b)
  {
    forall i ensures i in IdsOf(a + b) <==> i in IdsOf(a) + IdsOf(b) {
      assert forall r :: r in a + b <==> r in a || r in b;
    }
  }

  /** The list of what is held, with what is new of the other list on either side. */
  lemma NewOnEitherSide(held: seq<Row>, other: seq<Row>)
    requires DistinctIds(held) && DistinctIds(other)
    ensures var added := Without(other, IdsOf(held));
            && DistinctIds(held + added) && IdsOf(held + added) == IdsOf(held) + IdsOf(other)
            && DistinctIds(added + held) && IdsOf(added + held) == IdsOf(held) + IdsOf(other)
  {
    var added := Without(other, IdsOf(held));
    WithoutDistinct(other, IdsOf(held));
    WithoutIds(held, other);
    ConcatDistinct(held, added);
    ConcatDistinct(added, held);
    IdsConcat(held, added);
    IdsConcat(added, held);
  }

  /** All four merges keep ids distinct and hold exactly the ids of both lists. */
  lemma MergesKeepIds(prev: seq<Row>, page: seq<Row>)
    requires DistinctIds(prev) && DistinctIds(page)
    ensures DistinctIds(MergeFreshPage(prev, page)) && IdsOf(MergeFreshPage(prev, page)) == IdsOf(prev) + IdsOf(page)
    ensures DistinctIds(AppendPage(prev, page)) && IdsOf(AppendPage(prev, page)) == IdsOf(prev) + IdsOf(page)
    ensures DistinctIds(MergeNewest(prev, page)) && IdsOf(MergeNewest(prev, page)) == IdsOf(prev) + IdsOf(page)
    ensures DistinctIds(MergeOlder(page, prev)) && IdsOf(MergeOlder(page, prev)) == IdsOf(prev) + IdsOf(page)
  {
    hide DistinctIds, IdsOf, Without;
    NewOnEitherSide(prev, page);
    NewOnEitherSide(page, prev);
  }

  ghost predicate Precedes(s: seq<Row>, a: Row, b: Row) {
    exists x, y :: 0 <= x < y < |s| && s[x] == a && s[y] == b
  }

  /** What is left of `rows` once those with an id in `ids` are gone, in the order it had. */
  ghost predicate Sifted(kept: seq<Row>, rows: seq<Row>, ids: set<int>) {
    && (forall r :: r in kept <==> r in rows && r.id !in ids)
    && (forall i, j :: 0 <= i < j < |rows| && rows[i].id !in ids && rows[j].id !in ids ==>
          Precedes(kept, rows[i], rows[j]))
  }

  lemma {:induction false} WithoutKeepsOrder(rows: seq<Row>, ids: set<int>, i: nat, j: nat)
    requires i < j < |rows| && rows[i].id !in ids && rows[j].id !in ids
    ensures Precedes(Without(rows, ids), rows[i], rows[j])
  {
    var head := if rows[0].id in ids then [] else [rows[0]];
    var rest := Without(rows[1..], ids);
    assert Without(rows, ids) == head + rest;
    hide Without;
    if i == 0 {
      assert rows[1..][j - 1] == rows[j];
      WithoutMember(rows[1..], ids, rows[j]);
      var y :| 0 <= y < |rest| && rest[y] == rows[j];
      assert (head + rest)[0] == rows[0] && (head + rest)[1 + y] == rows[j];
    } else {
      WithoutKeepsOrder(rows[1..], ids, i - 1, j - 1);
      var x, y :| 0 <= x < y < |rest| && rest[x] == rows[i] && rest[y] == rows[j];
      assert (head + rest)[|head| + x] == rows[i] && (head + rest)[|head| + y] == rows[j];
    }
  }

  lemma WithoutSifts(rows: seq<Row>, ids: set<int>)
    ensures Sifted(Without(rows, ids), rows, ids)
  {
    var kept := Without(rows, ids);
    forall r ensures r in kept <==> r in rows && r.id !in ids { WithoutMember(rows, ids, r); }
    hide Without, Precedes;
    forall i, j | 0 <= i < j < |rows| && rows[i].id !in ids && rows[j].id !in ids
      ensures Precedes(kept, rows[i], rows[j])
    {
      WithoutKeepsOrder(rows, ids, i, j);
    }
  }

  /**
   * Where each merge puts things, whatever the two lists are: a fresh page goes first as it was served, the next and
   * the newest page go behind what was there, an older page goes before it; and of the other list only what is not
   * already there is added, in its own order.
   */
  lemma MergesKeepOrder(prev: seq<Row>, page: seq<Row>)
    ensures var m := MergeFreshPage(prev, page); page <= m && Sifted(m[|page|..], prev, IdsOf(page))
    ensures var m := AppendPage(prev, page); prev <= m && Sifted(m[|prev|..], page, IdsOf(prev))
    ensures var m := MergeNewest(prev, page); prev <= m && Sifted(m[|prev|..], page, IdsOf(prev))
    ensures var m := MergeOlder(page, prev);
            var n := |m| - |prev|;
            n >= 0 && m[n..] == prev && Sifted(m[..n], page, IdsOf(prev))
  {
    WithoutSifts(prev, IdsOf(page));
    WithoutSifts(page, IdsOf(prev));
    hide Sifted, Without, IdsOf;
    assert MergeFreshPage(prev, page)[|page|..] == Without(prev, IdsOf(page));
    assert AppendPage(prev, page)[|prev|..] == Without(page, IdsOf(prev));
    var m := MergeOlder(page, prev);
    assert m[..|m| - |prev|] == Without(page, IdsOf(prev));
  }

  lemma {:induction false} WithoutConcat(a: seq<Row>, b: seq<Row>, ids: set<int>)
    ensures Without(a + b, ids) == Without(a, ids) + Without(b, ids)
  {
    if a == [] {
      assert a + b == b;
    } else {
      assert (a + b)[0] == a[0] && (a + b)[1..] == a[1..] + b;
      WithoutConcat(a[1..], b, ids);
    }
  }

  lemma {:induction false} WithoutAll(rows: seq<Row>, ids: set<int>)
    requires forall i :: 0 <= i < |rows| ==> rows[i].id in ids
    ensures Without(rows, ids) == []
  {
    if rows == [] {
    } else {
      WithoutAll(rows[1..], ids);
    }
  }

  lemma {:induction false} WithoutNone(rows: seq<Row>, ids: set<int>)
    requires forall i :: 0 <= i < |rows| ==> rows[i].id !in ids
    ensures Without(rows, ids) == rows
  {
    if rows == [] {
    } else {
      WithoutNone(rows[1..], ids);
      assert rows == [rows[0]] + rows[1..];
    }
  }

  /** In a list of distinct ids, an id is in a slice exactly when its position is. */
  lemma IdInSlice(all: seq<Row>, lo: nat, hi: nat, p: nat)
    requires DistinctIds(all) && lo <= hi <= |all| && p < |all|
    ensures all[p].id in IdsOf(all[lo..hi]) <==> lo <= p < hi
  {
    if lo <= p < hi {
      assert all[lo..hi][p - lo] in all[lo..hi];
    }
    if all[p].id in IdsOf(all[lo..hi]) {
      var r :| r in all[lo..hi] && r.id == all[p].id;
      var j :| 0 <= j < hi - lo && all[lo..hi][j] == r;
      assert all[lo + j] == r;
    }
  }

  /** Filtering a stretch whose one part is all known and whose other part is all new. */
  lemma KeepRight(all: seq<Row>, a: nat, c: nat, b: nat, ids: set<int>)
    requires a <= c <= b <= |all|
    requires forall p :: a <= p < b ==> (all[p].id in ids <==> p < c)
    ensures Without(all[a..b], ids) == all[c..b]
  {
    assert all[a..b] == all[a..c] + all[c..b];
    WithoutConcat(all[a..c], all[c..b], ids);
    WithoutAll(all[a..c], ids);
    WithoutNone(all[c..b], ids);
  }

  lemma KeepLeft(all: seq<Row>, a: nat, c: nat, b: nat, ids: set<int>)
    requires a <= c <= b <= |all|
    requires forall p :: a <= p < b ==> (all[p].id in ids <==> c <= p)
    ensures Without(all[a..b], ids) == all[a..c]
  {
    assert all[a..b] == all[a..c] + all[c..b];
    WithoutConcat(all[a..c], all[c..b], ids);
    WithoutNone(all[a..c], ids);
    WithoutAll(all[c..b], ids);
  }

  /** What a slice of a list does not already hold of another stretch of it that starts or ends inside the slice. */
  lemma WithoutSlice(all: seq<Row>, lo: nat, hi: nat, a: nat, b: nat)
    requires DistinctIds(all) && lo <= hi <= |all| && a <= b <= |all|
    ensures lo <= a <= hi ==> Without(all[a..b], IdsOf(all[lo..hi])) == all[Min(hi, b)..b]
    ensures lo <= b <= hi ==> Without(all[a..b], IdsOf(all[lo..hi])) == all[a..Max(a, lo)]
  {
    var ids := IdsOf(all[lo..hi]);
    forall p | 0 <= p < |all| ensures all[p].id in ids <==> lo <= p < hi { IdInSlice(all, lo, hi, p); }
    hide IdsOf, DistinctIds, Without;
    if lo <= a <= hi { KeepRight(all, a, Min(hi, b), b, ids); }
    if lo <= b <= hi { KeepLeft(all, a, Max(a, lo), b, ids); }
  }

  /** Appending a stretch that starts inside a prefix gives the longer prefix. */
  lemma AppendToPrefix(all: seq<Row>, m: nat, a: nat, b: nat)
    requires DistinctIds(all) && m <= |all| && a <= b <= |all| && a <= m
    ensures AppendPage(all[..m], all[a..b]) == all[..Max(m, b)]
  {
    hide DistinctIds, IdsOf, Without;
    WithoutSlice(all, 0, m, a, b);
    assert all[0..m] == all[..m];
    assert all[..m] + all[Min(m, b)..b] == all[..Max(m, b)];
  }

  /** Merging two prefixes of one list gives the longer one. */
  lemma MergePrefixes(all: seq<Row>, m: nat, b: nat)
    requires DistinctIds(all) && m <= |all| && b <= |all|
    ensures MergeFreshPage(all[..m], all[..b]) == all[..Max(m, b)]
  {
    hide DistinctIds, IdsOf, Without;
    WithoutSlice(all, 0, b, 0, m);
    assert all[0..m] == all[..m] && all[0..b] == all[..b];
    assert all[..b] + all[Min(b, m)..m] == all[..Max(m, b)];
  }

  /** Prepending a stretch that ends inside a suffix gives the longer suffix. */
  lemma OlderExtends(h: seq<Row>, p: nat, x: nat, y: nat)
    requires DistinctIds(h) && x <= y <= |h| && p <= y
    ensures MergeOlder(h[x..y], h[p..]) == h[Min(p, x)..]
  {
    hide DistinctIds, IdsOf, Without;
    WithoutSlice(h, p, |h|, x, y);
    assert h[p..|h|] == h[p..];
    assert h[x..Max(x, p)] + h[p..] == h[Min(p, x)..];
  }

  /** A list that is a stretch of the history. */
  ghost predicate IsStretch(h: seq<Row>, list: seq<Row>, p: nat, n: nat) {
    p <= n <= |h| && list == h[p..n]
  }

  /** A refetched stretch that starts inside the list, or right behind it, extends it as far as it goes. */
  lemma RefetchExtends(h: seq<Row>, p: nat, n: nat, x: nat, y: nat)
    requires DistinctIds(h) && p <= n <= |h| && x <= y <= |h|
    requires p == n || p <= x <= n
    ensures MergeNewest(h[p..n], h[x..y]) == if p == n then h[x..y] else h[p..Max(n, y)]
  {
    hide DistinctIds, Without;
    if p == n {
      assert h[p..n] == [] && IdsOf([]) == {};
      WithoutNone(h[x..y], {});
    } else {
      WithoutSlice(h, p, n, x, y);
      assert h[p..n] + h[Min(n, y)..y] == h[p..Max(n, y)];
    }
  }

  /** Whatever is not in the list yet is put behind it. */
  lemma FirstNewGoesLast(list: seq<Row>, page: seq<Row>)
    requires page != [] && page[0].id !in IdsOf(list)
    ensures |MergeNewest(list, page)| > |list|
    ensures MergeNewest(list, page)[..|list|] == list && MergeNewest(list, page)[|list|] == page[0]
  {
  }

  lemma StretchContinues(h: seq<Row>, list: seq<Row>, a: nat, b: nat, i: nat, p: nat, x: nat)
    requires DistinctIds(h) && IsStretch(h, list, a, b) && i + 1 < |list| && p < |h| && x < |h|
    requires list[i] == h[p] && list[i + 1] == h[x]
    ensures x == p + 1
  {
    assert list[i] == h[a + i] && list[i + 1] == h[a + i + 1];
  }

  /** A refetched stretch that starts anywhere else leaves a gap or puts older rows last: no stretch of the history. */
  lemma RefetchBreaks(h: seq<Row>, p: nat, n: nat, x: nat, y: nat)
    requires DistinctIds(h) && p < n <= |h| && x < y <= |h| && !(p <= x <= n)
    ensures forall a: nat, b: nat :: !IsStretch(h, MergeNewest(h[p..n], h[x..y]), a, b)
  {
    var list, page := h[p..n], h[x..y];
    IdInSlice(h, p, n, x);
    FirstNewGoesLast(list, page);
    var merged := MergeNewest(list, page);
    hide MergeNewest, IdsOf;
    var last: nat, end: nat := |list| - 1, n - 1;
    assert merged[last] == h[end] && merged[last + 1] == h[x] by { assert merged[..|list|][last] == list[last]; }
    forall a: nat, b: nat ensures !IsStretch(h, merged, a, b) {
      if IsStretch(h, merged, a, b) { StretchContinues(h, merged, a, b, last, end, x); }
    }
  }

  lemma SortedDistinct(o: Order, t: set<Row>)
    requires UniqueIds(t)
    ensures DistinctIds(Sorted(o, t))
  {
    var s := Sorted(o, t);
    forall i, j | 0 <= i < j < |s| ensures s[i].id != s[j].id {
      assert s[i] in s && s[j] in s;
      BeforeIsTotal(o, s[i], s[j]);
    }
  }
}
