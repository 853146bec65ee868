/** Keyset pagination over unique sort keys (backend/app/core/pagination.py). */
module Keyset {
  import opened Common

  const MAX_LIMIT: nat := 200

  // ---- the order of the rows ----

  /** A strict total order. */
  ghost predicate Orders<K(!new)>(before: (K, K) -> bool) {
    && (forall a :: !before(a, a))
    && (forall a, b :: a == b || before(a, b) || before(b, a))
    && (forall a, b, c :: before(a, b) && before(b, c) ==> before(a, c))
  }

  /** SQL's comparison of rows of columns: the first difference decides. */
  predicate RowLess<V(==)>(less: (V, V) -> bool, a: seq<V>, b: seq<V>) {
    if b == [] then false
    else if a == [] then true
    else less(a[0], b[0]) || (a[0] == b[0] && RowLess(less, a[1..], b[1..]))
  }

  /** `keys > last` with ORDER BY ascending, or `keys < last` descending. */
  function RowOrder<V(==)>(less: (V, V) -> bool, descending: bool): (seq<V>, seq<V>) -> bool {
    (a: seq<V>, b: seq<V>) => if descending then RowLess(less, b, a) else RowLess(less, a, b)
  }

  lemma {:induction false} RowLessTrichotomy<V(!new)>(less: (V, V) -> bool, a: seq<V>, b: seq<V>)
    requires Orders(less)
    ensures !RowLess(less, a, a)
    ensures a == b || RowLess(less, a, b) || RowLess(less, b, a)
  {
    if a != [] {
      RowLessTrichotomy(less, a[1..], if b == [] then [] else b[1..]);
      if b != [] && a[0] == b[0] && a[1..] == b[1..] { assert a == [a[0]] + a[1..] == b; }
    }
  }

  lemma {:induction false} RowLessTransitive<V(!new)>(less: (V, V) -> bool, a: seq<V>, b: seq<V>, c: seq<V>)
    requires Orders(less) && RowLess(less, a, b) && RowLess(less, b, c)
    ensures RowLess(less, a, c)
  {
    if a != [] && a[0] == b[0] && b[0] == c[0] { RowLessTransitive(less, a[1..], b[1..], c[1..]); }
  }

  /** Several sort columns in one direction order the rows. */
  lemma RowOrderOrders<V(!new)>(less: (V, V) -> bool, descending: bool)
    requires Orders(less)
    ensures Orders(RowOrder(less, descending))
  {
    var before := RowOrder(less, descending);
    forall a, b ensures !before(a, a) && (a == b || before(a, b) || before(b, a)) { RowLessTrichotomy(less, a, b); }
    forall a, b, c | before(a, b) && before(b, c) ensures before(a, c) {
      if descending { RowLessTransitive(less, c, b, a); } else { RowLessTransitive(less, a, b, c); }
    }
  }

  /** The first column that differs decides, the smaller value first or, descending, the greater. */
  lemma {:induction false} RowOrderMeansIt<V(!new)>(less: (V, V) -> bool, descending: bool, a: seq<V>, b: seq<V>)
    requires |a| == |b|
    ensures RowOrder(less, descending)(a, b) <==>
            exists i :: 0 <= i < |a| && a[..i] == b[..i] && if descending then less(b[i], a[i]) else less(a[i], b[i])
  {
    FirstDifference(less, b, a);
    FirstDifference(less, a, b);
    forall i: nat | i < |a| ensures DecidedAt(less, b, a, i) <==> a[..i] == b[..i] && less(b[i], a[i]) {}
    forall i: nat | i < |a| ensures DecidedAt(less, a, b, i) <==> a[..i] == b[..i] && less(a[i], b[i]) {}
    hide DecidedAt;
  }

  predicate DecidedAt<V(==)>(less: (V, V) -> bool, a: seq<V>, b: seq<V>, i: nat)
    requires |a| == |b|
  {
    i < |a| && a[..i] == b[..i] && less(a[i], b[i])
  }

  lemma {:induction false} FirstDifference<V(!new)>(less: (V, V) -> bool, a: seq<V>, b: seq<V>)
    requires |a| == |b|
    ensures RowLess(less, a, b) <==> exists i :: 0 <= i < |a| && DecidedAt(less, a, b, i)
  {
    if a != [] {
      FirstDifference(less, a[1..], b[1..]);
      if i :| 0 <= i < |a| - 1 && a[0] == b[0] && DecidedAt(less, a[1..], b[1..], i) {
        assert a[..i + 1] == [a[0]] + a[1..][..i] && b[..i + 1] == [b[0]] + b[1..][..i];
        assert DecidedAt(less, a, b, i + 1);
      }
      if less(a[0], b[0]) { assert DecidedAt(less, a, b, 0); }
      if i :| 0 < i < |a| && DecidedAt(less, a, b, i) {
        assert a[..i][0] == b[..i][0] && a[1..][..i - 1] == a[..i][1..] && b[1..][..i - 1] == b[..i][1..];
        assert DecidedAt(less, a[1..], b[1..], i - 1);
      }
    }
  }

  ghost predicate Increasing<K(!new)>(before: (K, K) -> bool, s: seq<K>) {
    forall i, j :: 0 <= i < j < |s| ==> before(s[i], s[j])
  }

  lemma {:induction false} HasFirst<K(!new)>(before: (K, K) -> bool, s: set<K>)
    requires Orders(before) && s != {}
    ensures exists m :: m in s && forall x :: x in s && x != m ==> before(m, x)
    decreases |s|
  {
    var e :| e in s;
    var rest := s - {e};
    if rest == {} {
      assert s == {e};
    } else {
      HasFirst(before, rest);
      var m :| m in rest && forall x :: x in rest && x != m ==> before(m, x);
      var first := if before(e, m) then e else m;
      forall x | x in s && x != first ensures before(first, x) {
        assert x == e || x in rest;
      }
    }
  }

  /** ORDER BY */
  ghost function SortBy<K(!new)>(before: (K, K) -> bool, s: set<K>): (r: seq<K>)
    requires Orders(before)
    ensures forall x :: x in r <==> x in s
    ensures Increasing(before, r) && |r| == |s|
    decreases |s|
  {
    if s == {} then [] else
      var m := (HasFirst(before, s); var m :| m in s && forall x :: x in s && x != m ==> before(m, x); m);
      [m] + SortBy(before, s - {m})
  }

  /** An increasing sequence is fixed by its elements. */
  lemma {:induction false} IncreasingIsUnique<K(!new)>(before: (K, K) -> bool, r: seq<K>, q: seq<K>)
    requires Orders(before) && Increasing(before, r) && Increasing(before, q)
    requires forall x :: x in r <==> x in q
    ensures r == q
  {
    assert forall i :: 0 <= i < |r| ==> r[i] in q;
    assert forall i :: 0 <= i < |q| ==> q[i] in r;
    if r != [] && q != [] {
      assert r[0] == q[0];
      forall x ensures x in r[1..] <==> x in q[1..] {
        if x in r[1..] { assert x in r && before(r[0], x); }
        if x in q[1..] { assert x in q && before(q[0], x); }
      }
      IncreasingIsUnique(before, r[1..], q[1..]);
    }
  }

  lemma AfterTheFirst<K(!new)>(before: (K, K) -> bool, s: seq<K>, n: nat)
    requires Orders(before) && Increasing(before, s) && 0 < n <= |s|
    ensures forall x :: x in s[n..] <==> x in s && before(s[n - 1], x)
    ensures forall x :: x in s[..n] <==> x in s && !before(s[n - 1], x)
  {
    forall x | x in s ensures x in s[n..] <==> before(s[n - 1], x) {
      var i :| 0 <= i < |s| && s[i] == x;
      if i >= n { assert x == s[n..][i - n]; }
      if x in s[n..] {
        var j :| n <= j < |s| && s[j] == x;
      }
    }
    forall x | x in s ensures x in s[..n] <==> !before(s[n - 1], x) {
      var i :| 0 <= i < |s| && s[i] == x;
      if i < n { assert x == s[..n][i]; assert i < n - 1 ==> before(x, s[n - 1]); }
    }
  }

  // ---- one page ----

  datatype Page<K> = Page(items: seq<K>, next: Option<K>)

  /** The rows after the cursor. */
  ghost function Beyond<K(!new)>(before: (K, K) -> bool, table: set<K>, cursor: Option<K>): set<K> {
    set k | k in table && (cursor.Some? ==> before(cursor.value, k))
  }

  /** `paginate`, after the query: one row more than the limit was read to see whether there is a next page. */
  function PageOf<K>(sorted: seq<K>, limit: nat): Page<K>
    requires 1 <= limit
  {
    var rows := sorted[..Min(limit + 1, |sorted|)];
    var hasMore := |rows| > limit;
    var items := rows[..Min(limit, |rows|)];
    Page(items, if hasMore then Some(items[|items| - 1]) else None)
  }

  lemma PageOfIs<K>(sorted: seq<K>, limit: nat)
    requires 1 <= limit
    ensures PageOf(sorted, limit) ==
            if |sorted| > limit then Page(sorted[..limit], Some(sorted[limit - 1])) else Page(sorted, None)
  {
    var rows := sorted[..Min(limit + 1, |sorted|)];
    if |sorted| > limit { assert rows[..limit] == sorted[..limit]; } else { assert rows == sorted; }
  }

  ghost function Paginate<K(!new)>(before: (K, K) -> bool, table: set<K>, cursor: Option<K>, limit: nat): Page<K>
    requires Orders(before) && 1 <= limit
  {
    PageOf(SortBy(before, Beyond(before, table, cursor)), limit)
  }

  /** A page holds the first rows after the cursor; the next cursor is the last of them, and is there iff
      rows are left, which are then the ones after it. */
  lemma PageIs<K(!new)>(before: (K, K) -> bool, table: set<K>, cursor: Option<K>, limit: nat)
    requires Orders(before) && 1 <= limit
    ensures var page := Paginate(before, table, cursor, limit);
            var sorted := SortBy(before, Beyond(before, table, cursor));
            if |sorted| > limit
            then page == Page(sorted[..limit], Some(sorted[limit - 1]))
                 && SortBy(before, Beyond(before, table, page.next)) == sorted[limit..]
            else page == Page(sorted, None)
  {
    hide PageOf, SortBy, Orders, Beyond;
    var sorted := SortBy(before, Beyond(before, table, cursor));
    PageOfIs(sorted, limit);
    if |sorted| > limit {
      RowsLeft(before, table, cursor, sorted, limit);
      IncreasingIsUnique(before, SortBy(before, Beyond(before, table, Some(sorted[limit - 1]))), sorted[limit..]);
    }
  }

  lemma RowsLeft<K(!new)>(before: (K, K) -> bool, table: set<K>, cursor: Option<K>, sorted: seq<K>, n: nat)
    requires Orders(before) && Increasing(before, sorted) && 0 < n <= |sorted|
    requires forall x :: x in sorted <==> x in Beyond(before, table, cursor)
    ensures forall x :: x in Beyond(before, table, Some(sorted[n - 1])) <==> x in sorted[n..]
  {
    AfterTheFirst(before, sorted, n);
    assert sorted[n - 1] in sorted;
  }

  // ---- following the pages of a table that stays ----

  ghost function Traverse<K(!new)>(before: (K, K) -> bool, table: set<K>, cursor: Option<K>, limit: nat): seq<K>
    requires Orders(before) && 1 <= limit
    decreases |Beyond(before, table, cursor)|
  {
    var page := Paginate(before, table, cursor, limit);
    PageIs(before, table, cursor, limit);
    if page.next.None? then page.items else page.items + Traverse(before, table, page.next, limit)
  }

  /** Following the next cursors to the end ends, and yields every row beyond the cursor once, in order. */
  lemma {:induction false} TraverseIsComplete<K(!new)>(before: (K, K) -> bool, table: set<K>, cursor: Option<K>,
                                                limit: nat)
    requires Orders(before) && 1 <= limit
    ensures Traverse(before, table, cursor, limit) == SortBy(before, Beyond(before, table, cursor))
    decreases |Beyond(before, table, cursor)|
  {
    hide Paginate, SortBy, Orders;
    var page, sorted := Paginate(before, table, cursor, limit), SortBy(before, Beyond(before, table, cursor));
    PageIs(before, table, cursor, limit);
    if page.next.Some? {
      TraverseIsComplete(before, table, page.next, limit);
      assert sorted == sorted[..limit] + sorted[limit..];
    }
  }

  // ---- following the pages while rows come and go ----

  /** What is seen when page i is read from `tables[i]`, and whether the last page was reached. */
  ghost function Visit<K(!new)>(before: (K, K) -> bool, tables: seq<set<K>>, cursor: Option<K>, limit: nat)
    : (seq<K>, bool)
    requires Orders(before) && 1 <= limit
    decreases |tables|
  {
    if tables == [] then ([], false) else
      var page := Paginate(before, tables[0], cursor, limit);
      if page.next.None? then (page.items, true) else
        var (items, ended) := Visit(before, tables[1..], page.next, limit);
        (page.items + items, ended)
  }

  lemma PageInOrder<K(!new)>(before: (K, K) -> bool, table: set<K>, cursor: Option<K>, limit: nat)
    requires Orders(before) && 1 <= limit
    ensures var page := Paginate(before, table, cursor, limit);
            && Increasing(before, page.items)
            && (forall k :: k in page.items ==> k in table && (cursor.Some? ==> before(cursor.value, k)))
            && (forall k :: k in table && (cursor.Some? ==> before(cursor.value, k)) && k !in page.items ==>
                 page.next.Some? && before(page.next.value, k))
            && (page.next.Some? ==> page.next.value in page.items)
            && (page.next.Some? ==> forall k :: k in page.items ==> k == page.next.value || before(k, page.next.value))
  {
    hide Paginate, SortBy, Orders;
    PageIs(before, table, cursor, limit);
    var sorted := SortBy(before, Beyond(before, table, cursor));
    assert forall k :: k in sorted <==> k in Beyond(before, table, cursor);
    if |sorted| > limit {
      AfterTheFirst(before, sorted, limit);
      LastOfFirst(before, sorted, limit);
      EitherAfter(before, sorted, limit);
    }
  }

  lemma EitherAfter<K(!new)>(before: (K, K) -> bool, s: seq<K>, n: nat)
    requires n <= |s|
    ensures forall k :: k in s <==> k in s[..n] || k in s[n..]
  {
    assert s == s[..n] + s[n..];
  }

  lemma LastOfFirst<K(!new)>(before: (K, K) -> bool, s: seq<K>, n: nat)
    requires Orders(before) && Increasing(before, s) && 0 < n <= |s|
    ensures s[n - 1] in s[..n] && forall k :: k in s[..n] ==> k == s[n - 1] || before(k, s[n - 1])
  {
    assert s[n - 1] == s[..n][n - 1];
  }

  /** Whatever happens between the pages, nothing is seen twice, what is seen comes in order, and once the
      last page is reached every row that was there throughout has been seen. */
  lemma {:induction false} VisitIsFair<K(!new)>(before: (K, K) -> bool, tables: seq<set<K>>, cursor: Option<K>,
                                         limit: nat)
    requires Orders(before) && 1 <= limit
    ensures var (seen, ended) := Visit(before, tables, cursor, limit);
            && Increasing(before, seen)
            && (forall k :: k in seen ==>
                (exists i :: 0 <= i < |tables| && k in tables[i]) && (cursor.Some? ==> before(cursor.value, k)))
            && (ended ==>
                forall k ::
                  (forall i :: 0 <= i < |tables| ==> k in tables[i]) && (cursor.Some? ==> before(cursor.value, k)) ==>
                    k in seen)
    decreases |tables|
  {
    hide Paginate;
    if tables != [] {
      var page := Paginate(before, tables[0], cursor, limit);
      PageInOrder(before, tables[0], cursor, limit);
      if page.next.Some? {
        VisitIsFair(before, tables[1..], page.next, limit);
        var (items, ended) := Visit(before, tables[1..], page.next, limit);
        var seen := page.items + items;
        forall i, j | 0 <= i < j < |seen| ensures before(seen[i], seen[j]) {
          if i < |page.items| <= j {
            assert page.items[i] in page.items && items[j - |page.items|] in items;
          }
        }
        forall k | k in seen ensures exists i :: 0 <= i < |tables| && k in tables[i] {
          if k in items {
            var i :| 0 <= i < |tables| - 1 && k in tables[1..][i];
            assert k in tables[i + 1];
          } else {
            assert k in tables[0];
          }
        }
        forall k | (forall i :: 0 <= i < |tables| ==> k in tables[i]) && (cursor.Some? ==> before(cursor.value, k))
          && ended
          ensures k in seen
        {
          assert k in tables[0];
          forall i | 0 <= i < |tables| - 1 ensures k in tables[1..][i] { assert tables[1..][i] == tables[i + 1]; }
        }
      }
    }
  }
}
