/**
 Cursor pagination. Rows are identified by keys under a strict total order (the
 ORDER BY of each listing); a page is read with one row more than asked for, and
 the cursor is the key of the last row returned.
 */
module Pagination {
  import opened Wrappers

  type Order<!K> = (K, K) -> bool

  ghost predicate StrictTotal<K(!new)>(less: Order<K>) {
    && (forall x :: !less(x, x))
    && (forall x, y, z :: less(x, y) && less(y, z) ==> less(x, z))
    && (forall x, y :: x == y || less(x, y) || less(y, x))
  }

  /** A snapshot lists its keys in order. */
  ghost predicate Sorted<K(!new)>(less: Order<K>, t: seq<K>) { forall i, j :: 0 <= i < j < |t| ==> less(t[i], t[j]) }

  predicate Beyond<K>(less: Order<K>, after: Option<K>, k: K) { after.None? || less(after.value, k) }

  /** The rows beyond the cursor. */
  function Rest<K(!new)>(less: Order<K>, t: seq<K>, after: Option<K>): (r: seq<K>)
    ensures forall k :: k in r <==> k in t && Beyond(less, after, k)
  {
    if t == [] then []
    else
      assert t == [t[0]] + t[1..];
      if Beyond(less, after, t[0]) then [t[0]] + Rest(less, t[1..], after) else Rest(less, t[1..], after)
  }

  lemma {:induction false} RestIsSorted<K(!new)>(less: Order<K>, t: seq<K>, after: Option<K>)
    requires Sorted(less, t)
    ensures Sorted(less, Rest(less, t, after))
  {
    if t != [] {
      RestIsSorted(less, t[1..], after);
      forall k | k in Rest(less, t[1..], after) ensures less(t[0], k) {
        var i :| 0 <= i < |t[1..]| && t[1..][i] == k;
        assert t[i + 1] == k;
      }
    }
  }

  // ---- One page --------------------------------------------------------------------

  datatype Page<K> = Page(items: seq<K>, next: Option<K>)

  const MAX_LIMIT: int := 1000

  /** The limits a request may ask for; one row more is read. */
  predicate ValidLimit(limit: int) { 1 <= limit <= MAX_LIMIT }

  function FirstRows<K>(rows: seq<K>, n: nat): seq<K> { if |rows| <= n then rows else rows[..n] }

  /** The database page: filtered, ordered and limited. */
  function Query<K(!new)>(less: Order<K>, t: seq<K>, after: Option<K>, n: nat): seq<K> {
    FirstRows(Rest(less, t, after), n)
  }

  function Trim<K>(rows: seq<K>, limit: nat): Page<K>
    requires limit > 0
  {
    if |rows| <= limit then Page(rows, None) else Page(rows[..limit], Some(rows[limit - 1]))
  }

  function ReadPage<K(!new)>(less: Order<K>, t: seq<K>, after: Option<K>, limit: nat): Page<K>
    requires limit > 0
  {
    Trim(Query(less, t, after, limit + 1), limit)
  }

  /** Trimming one row more than asked keeps a prefix, with a cursor exactly when rows were left. */
  lemma TrimIsPrefix<K(!new)>(rest: seq<K>, limit: nat)
    requires limit > 0
    ensures var p := Trim(FirstRows(rest, limit + 1), limit);
            && (p.next.Some? <==> |rest| > limit)
            && (if |rest| > limit then p.items == rest[..limit] && p.next == Some(rest[limit - 1]) else p.items == rest)
  {
    if |rest| > limit { assert rest[..limit + 1][..limit] == rest[..limit]; }
  }

  lemma BeyondThePage<K(!new)>(less: Order<K>, rest: seq<K>, limit: nat)
    requires Sorted(less, rest) && 0 < limit < |rest|
    ensures forall k :: k in rest && k !in rest[..limit] ==> less(rest[limit - 1], k)
  {
    assert forall i :: 0 <= i < limit ==> rest[..limit][i] == rest[i];
    forall k | k in rest && k !in rest[..limit] ensures less(rest[limit - 1], k) {
      var i :| 0 <= i < |rest| && rest[i] == k;
    }
  }

  /** A page is a run of the rows beyond the cursor, and the next cursor is given exactly when rows remain beyond it. */
  lemma PageIsPrefix<K(!new)>(less: Order<K>, t: seq<K>, after: Option<K>, limit: nat)
    requires Sorted(less, t) && StrictTotal(less) && limit > 0
    ensures var p, rest := ReadPage(less, t, after, limit), Rest(less, t, after);
            && p.items <= rest && |p.items| == Min(limit, |rest|)
            && (p.next.Some? <==> |rest| > limit)
            && (p.next.Some? ==>
                  p.items != [] && p.next.value == p.items[|p.items| - 1] && Beyond(less, after, p.next.value))
            && (p.next.Some? ==> forall k :: k in rest && k !in p.items ==> less(p.next.value, k))
            && (p.next.None? ==> p.items == rest)
  {
    hide StrictTotal, Sorted, Trim, FirstRows, Rest;
    RestIsSorted(less, t, after);
    var rest := Rest(less, t, after);
    TrimIsPrefix(rest, limit);
    if |rest| > limit {
      BeyondThePage(less, rest, limit);
      assert rest[limit - 1] in rest;
    }
  }

  // ---- Following cursors --------------------------------------------------------------

  /** One request of a walk: the snapshot it saw, its limit, its cursor and its page. */
  datatype Visit<K> = Visit(snapshot: seq<K>, limit: nat, after: Option<K>, page: Page<K>)

  ghost predicate IsVisit<K(!new)>(less: Order<K>, v: Visit<K>) {
    Sorted(less, v.snapshot) && ValidLimit(v.limit) && v.page == ReadPage(less, v.snapshot, v.after, v.limit)
  }

  /** A walk starts without a cursor and follows each page's cursor; the snapshots may differ. */
  ghost predicate Walk<K(!new)>(less: Order<K>, vs: seq<Visit<K>>) {
    && vs != [] && vs[0].after == None
    && (forall i :: 0 <= i < |vs| ==> IsVisit(less, vs[i]))
    && (forall i, j :: 0 <= i && j == i + 1 && j < |vs| ==> Follows(vs[i], vs[j]))
  }

  predicate Follows<K(==)>(v: Visit<K>, w: Visit<K>) { v.page.next.Some? && w.after == v.page.next }

  ghost predicate Finished<K>(vs: seq<Visit<K>>) { vs != [] && vs[|vs| - 1].page.next.None? }

  /** Everything returned so far, in order. */
  function Returned<K>(vs: seq<Visit<K>>): seq<K> {
    if vs == [] then [] else Returned(vs[..|vs| - 1]) + vs[|vs| - 1].page.items
  }

  /** Nothing returned so far lies beyond the cursor. */
  ghost predicate Behind<K(!new)>(less: Order<K>, returned: seq<K>, cursor: Option<K>) {
    forall k :: k in returned ==> !Beyond(less, cursor, k)
  }

  lemma WalkPrefix<K(!new)>(less: Order<K>, vs: seq<Visit<K>>)
    requires Walk(less, vs) && |vs| > 1
    ensures Walk(less, vs[..|vs| - 1]) && vs[|vs| - 2].page.next.Some? && vs[|vs| - 1].after == vs[|vs| - 2].page.next
  {
    hide IsVisit;
    var i, j := |vs| - 2, |vs| - 1;
    assert Follows(vs[i], vs[j]);
    hide Follows;
    var shorter := vs[..j];
    forall k, n | 0 <= k && n == k + 1 && n < |shorter| ensures Follows(shorter[k], shorter[n]) {
      assert Follows(vs[k], vs[n]);
    }
  }

  /** A page continues strictly after everything that is behind its cursor. */
  lemma PageContinues<K(!new)>(less: Order<K>, returned: seq<K>, v: Visit<K>)
    requires StrictTotal(less) && IsVisit(less, v) && Sorted(less, returned) && Behind(less, returned, v.after)
    ensures Sorted(less, returned + v.page.items)
    ensures v.page.next.Some? ==> Behind(less, returned + v.page.items, v.page.next)
  {
    PageIsPrefix(less, v.snapshot, v.after, v.limit);
    RestIsSorted(less, v.snapshot, v.after);
    hide ReadPage, Rest, StrictTotal;
    AppendSorted(less, returned, v.page.items, v.after);
    if v.page.next.Some? { AppendBehind(less, returned, v.page.items, v.after); }
  }

  /** Whatever changed in between, a walk returns keys in strictly ascending order, so none twice. */
  lemma {:induction false} WalkAscends<K(!new)>(less: Order<K>, vs: seq<Visit<K>>)
    requires StrictTotal(less) && Walk(less, vs)
    ensures Sorted(less, Returned(vs))
    ensures vs[|vs| - 1].page.next.Some? ==> Behind(less, Returned(vs), vs[|vs| - 1].page.next)
  {
    hide StrictTotal, Sorted, Behind, IsVisit;
    var last, before := vs[|vs| - 1], Returned(vs[..|vs| - 1]);
    if |vs| == 1 {
      NothingReturned(less, before, last.after);
    } else {
      WalkPrefix(less, vs);
      WalkAscends(less, vs[..|vs| - 1]);
    }
    PageContinues(less, before, last);
  }

  lemma NothingReturned<K(!new)>(less: Order<K>, returned: seq<K>, cursor: Option<K>)
    requires returned == []
    ensures Sorted(less, returned) && Behind(less, returned, cursor)
  {
  }

  lemma ReturnedAppends<K>(vs: seq<Visit<K>>)
    requires vs != []
    ensures Returned(vs) == Returned(vs[..|vs| - 1]) + vs[|vs| - 1].page.items
  {
  }

  lemma AppendSorted<K(!new)>(less: Order<K>, a: seq<K>, b: seq<K>, cursor: Option<K>)
    requires StrictTotal(less) && Sorted(less, a) && Sorted(less, b) && Behind(less, a, cursor)
    requires forall k :: k in b ==> Beyond(less, cursor, k)
    ensures Sorted(less, a + b)
  {
    forall i, j | 0 <= i < |a| && 0 <= j < |b| ensures less(a[i], b[j]) {
      assert !Beyond(less, cursor, a[i]) && Beyond(less, cursor, b[j]);
    }
  }

  lemma AppendBehind<K(!new)>(less: Order<K>, a: seq<K>, b: seq<K>, cursor: Option<K>)
    requires StrictTotal(less) && Behind(less, a, cursor) && Sorted(less, b) && b != []
    requires forall k :: k in b ==> Beyond(less, cursor, k)
    ensures Behind(less, a + b, Some(b[|b| - 1]))
  {
    var last := b[|b| - 1];
    forall k | k in a + b ensures !less(last, k) {
      if k in a {
        assert !Beyond(less, cursor, k) && Beyond(less, cursor, last);
      } else {
        var i :| 0 <= i < |b| && b[i] == k;
      }
    }
  }

  /** A row that every snapshot holds is returned, or still lies beyond the cursor. */
  lemma {:induction false} StableRowIsReached<K(!new)>(less: Order<K>, vs: seq<Visit<K>>, k: K)
    requires StrictTotal(less) && Walk(less, vs)
    requires forall i :: 0 <= i < |vs| ==> k in vs[i].snapshot
    ensures k in Returned(vs) || (vs[|vs| - 1].page.next.Some? && Beyond(less, vs[|vs| - 1].page.next, k))
  {
    var last := vs[|vs| - 1];
    if |vs| > 1 {
      WalkPrefix(less, vs);
      StableRowIsReached(less, vs[..|vs| - 1], k);
    }
    assert IsVisit(less, last) && k in last.snapshot;
    ReturnedAppends(vs);
    hide Walk, Returned;
    PageIsPrefix(less, last.snapshot, last.after, last.limit);
  }

  /** A finished walk returns every row that was there throughout, exactly once. */
  lemma StableRowsOnce<K(!new)>(less: Order<K>, vs: seq<Visit<K>>, k: K)
    requires StrictTotal(less) && Walk(less, vs) && Finished(vs)
    requires forall i :: 0 <= i < |vs| ==> k in vs[i].snapshot
    ensures exists i :: 0 <= i < |Returned(vs)| && Returned(vs)[i] == k
    ensures forall i, j :: 0 <= i < |Returned(vs)| && 0 <= j < |Returned(vs)| ==>
      Returned(vs)[i] == Returned(vs)[j] ==> i == j
  {
    WalkAscends(less, vs);
    StableRowIsReached(less, vs, k);
    hide Walk, Returned;
    var r := Returned(vs);
    forall i, j | 0 <= i < j < |r| ensures r[i] != r[j] { assert less(r[i], r[j]); }
  }

  /** Over a fixed snapshot a finished walk returns the snapshot itself. */
  lemma FixedSnapshotIsReturned<K(!new)>(less: Order<K>, vs: seq<Visit<K>>, t: seq<K>)
    requires StrictTotal(less) && Walk(less, vs) && Finished(vs)
    requires forall i :: 0 <= i < |vs| ==> vs[i].snapshot == t
    ensures Returned(vs) == t
  {
    WalkAscends(less, vs);
    assert IsVisit(less, vs[0]);
    forall k | k in t ensures k in Returned(vs) { StableRowIsReached(less, vs, k); }
    forall k | k in Returned(vs) ensures k in t { ReturnedAreRows(less, vs, t, k); }
    hide Walk, Returned;
    SortedUnique(less, Returned(vs), t);
  }

  lemma {:induction false} ReturnedAreRows<K(!new)>(less: Order<K>, vs: seq<Visit<K>>, t: seq<K>, k: K)
    requires k in Returned(vs) && forall i :: 0 <= i < |vs| ==> vs[i].snapshot == t && IsVisit(less, vs[i])
    ensures k in t
  {
    var last := vs[|vs| - 1];
    if k in last.page.items {
      assert k in Rest(less, t, last.after);
    } else {
      ReturnedAreRows(less, vs[..|vs| - 1], t, k);
    }
  }

  lemma {:induction false} SortedUnique<K(!new)>(less: Order<K>, a: seq<K>, b: seq<K>)
    requires StrictTotal(less) && Sorted(less, a) && Sorted(less, b) && forall k :: k in a <==> k in b
    ensures a == b
  {
    SomeMember(a, b);
    SomeMember(b, a);
    if a != [] {
      assert a[0] in b;
      assert b != [] && b[0] in a;
      var i :| 0 <= i < |b| && b[i] == a[0];
      var j :| 0 <= j < |a| && a[j] == b[0];
      assert a[0] == b[0];
      forall k | k in a[1..] ensures k in b[1..] { TailMember(less, a, b, k); }
      forall k | k in b[1..] ensures k in a[1..] { TailMember(less, b, a, k); }
      SortedUnique(less, a[1..], b[1..]);
      assert a == [a[0]] + a[1..] && b == [b[0]] + b[1..];
    }
  }

  lemma SomeMember<K(!new)>(a: seq<K>, b: seq<K>)
    requires forall k :: k in b ==> k in a
    ensures b != [] ==> a != []
  {
    if b != [] { assert b[0] in b; }
  }

  lemma TailMember<K(!new)>(less: Order<K>, a: seq<K>, b: seq<K>, k: K)
    requires StrictTotal(less) && Sorted(less, a) && a != [] && b != [] && a[0] == b[0] &&
      (forall x :: x in a ==> x in b)
    requires k in a[1..]
    ensures k in b[1..]
  {
    var i :| 0 <= i < |a[1..]| && a[1..][i] == k;
    assert a[i + 1] == k && less(a[0], k) && k in a;
    var j :| 0 <= j < |b| && b[j] == k;
    assert b[1..][j - 1] == k;
  }

  /** In a sorted list the rows after a position are those beyond its key. */
  lemma SuffixIsBeyond<K(!new)>(less: Order<K>, rows: seq<K>, n: nat, k: K)
    requires StrictTotal(less) && Sorted(less, rows) && 0 < n <= |rows|
    ensures k in rows[n..] <==> k in rows && less(rows[n - 1], k)
  {
    assert forall i :: 0 <= i < n - 1 ==> less(rows[i], rows[n - 1]);
    if k in rows[n..] {
      var i :| 0 <= i < |rows[n..]| && rows[n..][i] == k;
      assert rows[i + n] == k && less(rows[n - 1], rows[i + n]);
    }
    if k in rows && less(rows[n - 1], k) {
      var i :| 0 <= i < |rows| && rows[i] == k;
      assert i >= n;
      assert rows[n..][i - n] == k;
    }
  }

  /** The next request over the same snapshot continues where the page stopped. */
  lemma WalkContinues<K(!new)>(less: Order<K>, t: seq<K>, after: Option<K>, limit: nat)
    requires StrictTotal(less) && Sorted(less, t) && limit > 0
    ensures var p, rest := ReadPage(less, t, after, limit), Rest(less, t, after);
            p.next.Some? ==> |rest| > limit && Rest(less, t, p.next) == rest[limit..]
  {
    PageIsPrefix(less, t, after, limit);
    RestIsSorted(less, t, after);
    var p, rest := ReadPage(less, t, after, limit), Rest(less, t, after);
    hide ReadPage, Rest;
    if p.next.Some? {
      RestIsSorted(less, t, p.next);
      assert p.next.value == rest[limit - 1];
      forall k ensures k in Rest(less, t, p.next) <==> k in rest[limit..] {
        SuffixIsBeyond(less, rest, limit, k);
      }
      SortedUnique(less, Rest(less, t, p.next), rest[limit..]);
    }
  }

  /** Every page but the last returned something. */
  lemma {:induction false} PagesReturn<K(!new)>(less: Order<K>, vs: seq<Visit<K>>)
    requires StrictTotal(less) && Walk(less, vs)
    ensures |Returned(vs)| + (if Finished(vs) then 1 else 0) >= |vs|
  {
    var last := vs[|vs| - 1];
    assert IsVisit(less, last);
    if |vs| > 1 {
      WalkPrefix(less, vs);
      PagesReturn(less, vs[..|vs| - 1]);
      assert !Finished(vs[..|vs| - 1]);
    }
    ReturnedAppends(vs);
    hide Walk, Returned, ReadPage, Rest;
    PageIsPrefix(less, last.snapshot, last.after, last.limit);
  }

  /** Strictly ascending rows of a list are no more than the list. */
  lemma {:induction false} SortedIsShorter<K(!new)>(less: Order<K>, rows: seq<K>, t: seq<K>)
    requires StrictTotal(less) && Sorted(less, rows) && forall k :: k in rows ==> k in t
    ensures |rows| <= |t|
  {
    if rows != [] {
      var n := |rows| - 1;
      assert rows[n] in t;
      var i :| 0 <= i < |t| && t[i] == rows[n];
      var others := t[..i] + t[i + 1..];
      forall k | k in rows[..n] ensures k in others {
        var j :| 0 <= j < n && rows[..n][j] == k;
        assert rows[j] == k && less(k, rows[n]) && k in rows;
        var x :| 0 <= x < |t| && t[x] == k;
        assert x != i;
        if x < i { assert others[x] == k; } else { assert others[x - 1] == k; }
      }
      SortedIsShorter(less, rows[..n], others);
    }
  }

  /**
   Over a fixed snapshot no walk has more pages than rows and one, and a walk that long is
   finished: following cursors stops.
   */
  lemma WalkIsBounded<K(!new)>(less: Order<K>, vs: seq<Visit<K>>, t: seq<K>)
    requires StrictTotal(less) && Walk(less, vs) && forall i :: 0 <= i < |vs| ==> vs[i].snapshot == t
    ensures |vs| <= |t| + 1
    ensures |vs| == |t| + 1 ==> Finished(vs)
  {
    WalkAscends(less, vs);
    forall k | k in Returned(vs) ensures k in t { ReturnedAreRows(less, vs, t, k); }
    PagesReturn(less, vs);
    hide Walk, Returned;
    SortedIsShorter(less, Returned(vs), t);
  }

  // ---- Crawl detail ------------------------------------------------------------------------

  predicate Ascends(x: int, y: int) { x < y }

  /** Bounding a crawl's page attempts: drop those up to the cursor, then trim. */
  method BoundedCrawlDetail(sequences: seq<int>, limit: nat, after: int) returns (p: Page<int>)
    requires limit > 0 && Sorted(Ascends, sequences)
    ensures p == Trim(Rest(Ascends, sequences, Some(after)), limit)
  {
    var pages := sequences;
    while pages != [] && pages[0] <= after
      invariant Sorted(Ascends, pages)
      invariant Rest(Ascends, pages, Some(after)) == Rest(Ascends, sequences, Some(after))
    {
      pages := pages[1..];
    }
    AllBeyond(pages, after);
    if |pages| > limit {
      p := Page(pages[..limit], Some(pages[limit - 1]));
    } else {
      p := Page(pages, None);
    }
  }

  lemma {:induction false} AllBeyond(pages: seq<int>, after: int)
    requires Sorted(Ascends, pages) && (pages != [] ==> pages[0] > after)
    ensures Rest(Ascends, pages, Some(after)) == pages
  {
    if pages != [] {
      AllBeyond(pages[1..], after);
      assert pages == [pages[0]] + pages[1..];
    }
  }

  /** Bounding the limited database page gives the same as bounding the full list. */
  lemma BoundedPagesAgree(sequences: seq<int>, limit: nat, after: int)
    requires limit > 0 && Sorted(Ascends, sequences)
    ensures Trim(Rest(Ascends, Query(Ascends, sequences, Some(after), limit + 1), Some(after)), limit)
         == Trim(Rest(Ascends, sequences, Some(after)), limit)
  {
    var rest := Rest(Ascends, sequences, Some(after));
    RestIsSorted(Ascends, sequences, Some(after));
    var page := Query(Ascends, sequences, Some(after), limit + 1);
    assert page != [] ==> page[0] in rest;
    AllBeyond(page, after);
    if |rest| > limit { assert page[..limit] == rest[..limit]; }
  }
}
