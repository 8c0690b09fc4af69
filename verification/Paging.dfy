/** Cursor paging: backend/internal/platform/pagination/pagination.go and the
    listings built on it in billing/store.go, stock/store.go, stock/movement.go
    and billing/stockclient/client.go. */
module Paging {
  import opened Common
  import opened Sorting
  import I = Invoices
  import Ledger

  const DEFAULT_LIMIT := 20
  const MAX_LIMIT := 100
  const CATALOGUE_PAGE_SIZE := 100
  const MAX_CATALOGUE_PRODUCTS := 2000

  function NormalizeLimit(limit: int): (n: nat)
    ensures 1 <= n <= MAX_LIMIT
    ensures 1 <= limit <= MAX_LIMIT ==> n == limit
    ensures limit <= 0 ==> n == 20
    ensures limit > MAX_LIMIT ==> n == 100
  {
    if limit <= 0 then DEFAULT_LIMIT else if limit > MAX_LIMIT then MAX_LIMIT else limit
  }

  /** A listing: the rows it wants, the key it is ordered and cut by, and the
      order of the keys in the direction of reading. */
  datatype Query<!R, !K> = Query(wanted: R -> bool, key: R -> K, less: (K, K) -> bool)

  /** A page and where the next one starts; none when this one is the last. */
  datatype Page<R, K> = Page(items: seq<R>, next: Option<K>)

  ghost predicate StrictTotal<K(!new)>(less: (K, K) -> bool) {
    && (forall a :: !less(a, a))
    && (forall a, b :: less(a, b) || a == b || less(b, a))
    && (forall a, b, c :: less(a, b) && less(b, c) ==> less(a, c))
  }

  // ---- What the database answers -------------------------------------------------

  function Filter<T>(s: seq<T>, p: T -> bool): seq<T> {
    if s == [] then []
    else if p(s[0]) then [s[0]] + Filter(s[1..], p)
    else Filter(s[1..], p)
  }

  function Leq<R, K>(q: Query<R, K>): (R, R) -> bool {
    (a, b) => !q.less(q.key(b), q.key(a))
  }

  /** The WHERE clause: the filters and the cursor. */
  function Beyond<R, K>(q: Query<R, K>, after: Option<K>): R -> bool {
    r => q.wanted(r) && (after.None? || q.less(after.value, q.key(r)))
  }

  function Select<R, K>(q: Query<R, K>, table: seq<R>, after: Option<K>): seq<R> {
    Sort(Filter(table, Beyond(q, after)), Leq(q))
  }

  function Limit<T>(s: seq<T>, n: nat): seq<T> {
    if |s| <= n then s else s[..n]
  }

  /** The whole list the pages are pages of. */
  function Full<R, K>(q: Query<R, K>, table: seq<R>): seq<R> {
    Select(q, table, None)
  }

  /** A page by its meaning: the next rows of the list, and a cursor on the last
      of them exactly when more follow. */
  function PageOf<R, K>(q: Query<R, K>, table: seq<R>, after: Option<K>, limit: nat): Page<R, K>
    requires limit > 0
  {
    var rest := Select(q, table, after);
    if |rest| <= limit then Page(rest, None) else Page(rest[..limit], Some(q.key(rest[limit - 1])))
  }

  /** List: one row more than the page is read, to tell whether there is a next. */
  method List<R, K>(q: Query<R, K>, table: seq<R>, after: Option<K>, limit: int) returns (page: Page<R, K>)
    ensures page == PageOf(q, table, after, NormalizeLimit(limit))
  {
    var n := NormalizeLimit(limit);
    var rows := Limit(Select(q, table, after), n + 1);
    var items: seq<R> := [];
    for i := 0 to |rows|
      invariant items == rows[..i]
    {
      items := items + [rows[i]];
    }
    page := Page(items, None);
    if |items| > n {
      page := Page(items[..n], Some(q.key(items[n - 1])));
    }
  }

  // ---- Filtering and sorting commute ------------------------------------------------

  lemma {:induction false} FilterKeepsMembers<T>(s: seq<T>, p: T -> bool, x: T)
    ensures x in Filter(s, p) <==> x in s && p(x)
  {
    if s != [] {
      FilterKeepsMembers(s[1..], p, x);
    }
  }

  lemma {:induction false} FilterConcat<T>(a: seq<T>, b: seq<T>, p: T -> bool)
    ensures Filter(a + b, p) == Filter(a, p) + Filter(b, p)
  {
    if a == [] {
      assert a + b == b;
    } else {
      FilterConcat(a[1..], b, p);
      assert (a + b)[1..] == a[1..] + b;
    }
  }

  lemma {:induction false} FilterAll<T>(s: seq<T>, p: T -> bool)
    requires forall x :: x in s ==> p(x)
    ensures Filter(s, p) == s
  {
    if s != [] {
      FilterAll(s[1..], p);
    }
  }

  lemma {:induction false} FilterNone<T>(s: seq<T>, p: T -> bool)
    requires forall x :: x in s ==> !p(x)
    ensures Filter(s, p) == []
  {
    if s != [] {
      FilterNone(s[1..], p);
    }
  }

  /** A weaker filter first changes nothing. */
  lemma {:induction false} FilterTwice<T>(s: seq<T>, weak: T -> bool, strong: T -> bool)
    requires forall x :: x in s && strong(x) ==> weak(x)
    ensures Filter(Filter(s, weak), strong) == Filter(s, strong)
  {
    if s != [] {
      FilterTwice(s[1..], weak, strong);
      FilterConcat(if weak(s[0]) then [s[0]] else [], Filter(s[1..], weak), strong);
    }
  }

  lemma {:induction false} InsertFiltered<T(!new)>(x: T, s: seq<T>, leq: (T, T) -> bool, p: T -> bool)
    requires TotalPreorder(leq) && SortedBy(s, leq)
    ensures Filter(Insert(x, s, leq), p)
         == if p(x) then Insert(x, Filter(s, p), leq) else Filter(s, p)
  {
    if s == [] || leq(x, s[0]) {
      assert ([x] + s)[1..] == s;
      if Filter(s, p) != [] {
        FilterKeepsMembers(s, p, Filter(s, p)[0]);
      }
    } else {
      InsertFiltered(x, s[1..], leq, p);
      var rest := Insert(x, s[1..], leq);
      assert ([s[0]] + rest)[1..] == rest;
      if p(s[0]) {
        assert Filter(s, p)[1..] == Filter(s[1..], p);
      }
    }
  }

  /** ORDER BY after WHERE is WHERE after ORDER BY. */
  lemma {:induction false} SortFiltered<T(!new)>(s: seq<T>, leq: (T, T) -> bool, p: T -> bool)
    requires TotalPreorder(leq)
    ensures Sort(Filter(s, p), leq) == Filter(Sort(s, leq), p)
  {
    if s != [] {
      SortFiltered(s[1..], leq, p);
      SortIsSorted(s[1..], leq);
      InsertFiltered(s[0], Sort(s[1..], leq), leq, p);
      if p(s[0]) {
        assert Filter(s, p)[1..] == Filter(s[1..], p);
      }
    }
  }

  // ---- The list ascends -------------------------------------------------------------

  /** The unique index on the key. */
  ghost predicate UniqueKeys<R, K>(q: Query<R, K>, s: seq<R>) {
    forall i, j :: 0 <= i < j < |s| ==> q.key(s[i]) != q.key(s[j])
  }

  ghost predicate Ascending<R, K>(q: Query<R, K>, s: seq<R>) {
    forall i, j :: 0 <= i < j < |s| ==> q.less(q.key(s[i]), q.key(s[j]))
  }

  lemma LeqIsTotalPreorder<R(!new), K(!new)>(q: Query<R, K>)
    requires StrictTotal(q.less)
    ensures TotalPreorder(Leq(q))
  {
  }

  lemma {:induction false} FilterKeepsUnique<R(!new), K(!new)>(q: Query<R, K>, s: seq<R>, p: R -> bool)
    requires UniqueKeys(q, s)
    ensures UniqueKeys(q, Filter(s, p))
  {
    if s != [] {
      FilterKeepsUnique(q, s[1..], p);
      var rest := Filter(s[1..], p);
      forall j | 0 <= j < |rest| ensures q.key(s[0]) != q.key(rest[j]) {
        FilterKeepsMembers(s[1..], p, rest[j]);
      }
    }
  }

  lemma {:induction false} InsertAscends<R(!new), K(!new)>(q: Query<R, K>, x: R, s: seq<R>)
    requires StrictTotal(q.less) && Ascending(q, s) && forall r :: r in s ==> q.key(r) != q.key(x)
    ensures Ascending(q, Insert(x, s, Leq(q)))
  {
    if s != [] && !Leq(q)(x, s[0]) {
      InsertAscends(q, x, s[1..]);
      InsertKeepsElements(x, s[1..], Leq(q));
      var rest := Insert(x, s[1..], Leq(q));
      forall j | 0 <= j < |rest| ensures q.less(q.key(s[0]), q.key(rest[j])) {
        assert rest[j] in multiset(rest);
        assert rest[j] == x || rest[j] in multiset(s[1..]);
      }
    }
  }

  lemma {:induction false} SortAscends<R(!new), K(!new)>(q: Query<R, K>, s: seq<R>)
    requires StrictTotal(q.less) && UniqueKeys(q, s)
    ensures Ascending(q, Sort(s, Leq(q)))
  {
    if s != [] {
      SortAscends(q, s[1..]);
      SortIsPermutation(s[1..], Leq(q));
      forall r | r in Sort(s[1..], Leq(q)) ensures q.key(r) != q.key(s[0]) {
        assert r in multiset(s[1..]);
      }
      InsertAscends(q, s[0], Sort(s[1..], Leq(q)));
    }
  }

  lemma SelectAscends<R(!new), K(!new)>(q: Query<R, K>, table: seq<R>, after: Option<K>)
    requires StrictTotal(q.less) && UniqueKeys(q, table)
    ensures Ascending(q, Select(q, table, after))
  {
    FilterKeepsUnique(q, table, Beyond(q, after));
    SortAscends(q, Filter(table, Beyond(q, after)));
  }

  lemma SelectMembers<R(!new), K(!new)>(q: Query<R, K>, table: seq<R>, after: Option<K>, r: R)
    ensures r in Select(q, table, after) <==> r in table && Beyond(q, after)(r)
  {
    SortIsPermutation(Filter(table, Beyond(q, after)), Leq(q));
    FilterKeepsMembers(table, Beyond(q, after), r);
    assert r in Select(q, table, after) <==> r in multiset(Select(q, table, after));
    assert r in Filter(table, Beyond(q, after)) <==> r in multiset(Filter(table, Beyond(q, after)));
  }

  // ---- A cursor cuts the list ---------------------------------------------------------

  lemma SelectIsFiltered<R(!new), K(!new)>(q: Query<R, K>, table: seq<R>, after: Option<K>)
    requires StrictTotal(q.less)
    ensures Select(q, table, after) == Filter(Full(q, table), Beyond(q, after))
  {
    LeqIsTotalPreorder(q);
    var wanted := Filter(table, Beyond(q, None));
    FilterTwice(table, Beyond(q, None), Beyond(q, after));
    SortFiltered(wanted, Leq(q), Beyond(q, after));
  }

  lemma FilterBeyond<R(!new), K(!new)>(q: Query<R, K>, a: seq<R>, b: seq<R>)
    requires StrictTotal(q.less) && a != [] && Ascending(q, a + b) && forall r :: r in a + b ==> q.wanted(r)
    ensures Filter(a + b, Beyond(q, Some(q.key(a[|a| - 1])))) == b
  {
    var n := |a| - 1;
    var p := Beyond(q, Some(q.key(a[n])));
    forall r | r in a ensures !p(r) {
      var i :| 0 <= i < |a| && a[i] == r;
      if i < n {
        assert q.less(q.key((a + b)[i]), q.key((a + b)[n]));
      }
    }
    forall r | r in b ensures p(r) {
      var i :| 0 <= i < |b| && b[i] == r;
      assert q.less(q.key((a + b)[n]), q.key((a + b)[|a| + i]));
      assert (a + b)[|a| + i] == r;
    }
    FilterNone(a, p);
    FilterAll(b, p);
    FilterConcat(a, b, p);
  }

  /** Where a walk stands once it has read the rows a. */
  function CursorAfter<R, K>(q: Query<R, K>, a: seq<R>): Option<K> {
    if a == [] then None else Some(q.key(a[|a| - 1]))
  }

  /** A cursor on the last of the rows read so far selects exactly the rows after
      it, wherever the reading started. */
  lemma SelectFurther<R(!new), K(!new)>(q: Query<R, K>, table: seq<R>, after: Option<K>, a: seq<R>, b: seq<R>)
    requires StrictTotal(q.less) && UniqueKeys(q, table) && Select(q, table, after) == a + b && a != []
    ensures Select(q, table, CursorAfter(q, a)) == b
  {
    var next, last := CursorAfter(q, a), a[|a| - 1];
    forall r | r in a + b ensures q.wanted(r) {
      SelectMembers(q, table, after, r);
    }
    SelectMembers(q, table, after, last);
    SelectAscends(q, table, after);
    FilterBeyond(q, a, b);
    SelectIsFiltered(q, table, after);
    SelectIsFiltered(q, table, next);
    FilterTwice(Full(q, table), Beyond(q, after), Beyond(q, next));
  }

  /** A cursor on a row of the list selects exactly the rows after it. */
  lemma SelectAfter<R(!new), K(!new)>(q: Query<R, K>, table: seq<R>, a: seq<R>, b: seq<R>)
    requires StrictTotal(q.less) && UniqueKeys(q, table) && Full(q, table) == a + b
    ensures Select(q, table, CursorAfter(q, a)) == b
  {
    if a != [] {
      SelectFurther(q, table, None, a, b);
    } else {
      assert a + b == b;
    }
  }

  /** The rows a page may show: wanted, and beyond the cursor if there is one. */
  ghost predicate Eligible<R, K>(q: Query<R, K>, table: seq<R>, after: Option<K>, r: R) {
    r in table && q.wanted(r) && (after.Some? ==> q.less(after.value, q.key(r)))
  }

  /** A page shows eligible rows only, in order and at most so many; those it leaves
      all come after a full page; and it has a cursor, on its last row, exactly when it
      leaves any. */
  lemma PageHoldsTheNext<R(!new), K(!new)>(q: Query<R, K>, table: seq<R>, after: Option<K>, limit: nat)
    requires StrictTotal(q.less) && UniqueKeys(q, table) && limit > 0
    ensures var page := PageOf(q, table, after, limit);
      && |page.items| <= limit && Ascending(q, page.items)
      && (forall r :: r in page.items ==> Eligible(q, table, after, r))
      && (forall r :: Eligible(q, table, after, r) && r !in page.items ==>
           && |page.items| == limit
           && page.next == Some(q.key(page.items[limit - 1])) && q.less(page.next.value, q.key(r)))
      && (page.next.Some? ==> exists r :: Eligible(q, table, after, r) && r !in page.items)
  {
    var page, rest := PageOf(q, table, after, limit), Select(q, table, after);
    PageAscends(q, table, after, limit);
    forall r ensures r in rest <==> Eligible(q, table, after, r) {
      SelectMembers(q, table, after, r);
    }
    forall r | Eligible(q, table, after, r) && r !in page.items
      ensures page.next.Some? && q.less(page.next.value, q.key(r))
    {
      OnPageOrAhead(q, table, after, limit, r);
    }
    if page.next.Some? {
      LeftOver(q, table, after, limit);
    }
  }

  lemma LeftOver<R(!new), K(!new)>(q: Query<R, K>, table: seq<R>, after: Option<K>, limit: nat)
    requires StrictTotal(q.less) && UniqueKeys(q, table) && limit > 0 && PageOf(q, table, after, limit).next.Some?
    ensures exists r :: Eligible(q, table, after, r) && r !in PageOf(q, table, after, limit).items
  {
    var items, rest := PageOf(q, table, after, limit).items, Select(q, table, after);
    var r := rest[limit];
    SelectAscends(q, table, after);
    SelectMembers(q, table, after, r);
    forall i | 0 <= i < limit ensures items[i] != r {
      assert q.less(q.key(rest[i]), q.key(r));
    }
    assert Eligible(q, table, after, r);
  }

  // ---- Following the cursors -----------------------------------------------------------

  /** The rows a client gathers from page to page while the table may change:
      tables[i] is what page i is read from. */
  function Walk<R, K>(q: Query<R, K>, tables: seq<seq<R>>, after: Option<K>, limit: nat): seq<R>
    requires limit > 0
    decreases |tables|
  {
    if tables == [] then []
    else
      var page := PageOf(q, tables[0], after, limit);
      page.items + if page.next.None? then [] else Walk(q, tables[1..], page.next, limit)
  }

  /** The walk reached a last page. */
  predicate Finishes<R, K>(q: Query<R, K>, tables: seq<seq<R>>, after: Option<K>, limit: nat)
    requires limit > 0
    decreases |tables|
  {
    tables != []
    && var page := PageOf(q, tables[0], after, limit);
      page.next.None? || Finishes(q, tables[1..], page.next, limit)
  }

  ghost predicate AllAre<R>(tables: seq<seq<R>>, table: seq<R>) {
    forall i :: 0 <= i < |tables| ==> tables[i] == table
  }

  ghost predicate AllUnique<R, K>(q: Query<R, K>, tables: seq<seq<R>>) {
    forall i :: 0 <= i < |tables| ==> UniqueKeys(q, tables[i])
  }

  /** What so many pages hold. */
  function Room(pages: nat, limit: nat): nat {
    if pages == 0 then 0 else limit + Room(pages - 1, limit)
  }

  lemma {:induction false} RoomIsProduct(pages: nat, limit: nat)
    ensures Room(pages, limit) == pages * limit
  {
    if pages > 0 {
      RoomIsProduct(pages - 1, limit);
      assert pages * limit == (pages - 1) * limit + limit;
    }
  }

  lemma {:induction false} RoomEnough(pages: nat, limit: nat)
    requires limit > 0
    ensures Room(pages, limit) >= pages
  {
    if pages > 0 {
      RoomEnough(pages - 1, limit);
    }
  }

  /** Over a table that stays, from any cursor, the walk reads all that is left. */
  lemma {:induction false} WalkRest<R(!new), K(!new)>(q: Query<R, K>, table: seq<R>, tables: seq<seq<R>>, after: Option<K>,
                                                     limit: nat)
    requires StrictTotal(q.less) && UniqueKeys(q, table) && limit > 0
    requires tables != [] && AllAre(tables, table) && |Select(q, table, after)| <= Room(|tables|, limit)
    ensures Walk(q, tables, after, limit) == Select(q, table, after) && Finishes(q, tables, after, limit)
    decreases |tables|
  {
    var rest := Select(q, table, after);
    assert tables[0] == table;
    if |rest| > limit {
      var a, b := rest[..limit], rest[limit..];
      assert rest == a + b;
      SelectFurther(q, table, after, a, b);
      WalkRest(q, table, tables[1..], CursorAfter(q, a), limit);
    }
  }

  /** Following the cursors over a table that stays gives the filtered, sorted
      list, every row once, after as many pages as it takes to hold it. */
  lemma PagesAreTheList<R(!new), K(!new)>(q: Query<R, K>, table: seq<R>, tables: seq<seq<R>>, limit: nat)
    requires StrictTotal(q.less) && UniqueKeys(q, table) && limit > 0
    requires tables != [] && AllAre(tables, table) && |Full(q, table)| <= |tables| * limit
    ensures Walk(q, tables, None, limit) == Full(q, table) && Finishes(q, tables, None, limit)
    ensures Ascending(q, Full(q, table))
    ensures forall r :: r in Full(q, table) <==> r in table && q.wanted(r)
  {
    RoomIsProduct(|tables|, limit);
    WalkRest(q, table, tables, None, limit);
    SelectAscends(q, table, None);
    forall r ensures r in Full(q, table) <==> r in table && q.wanted(r) {
      SelectMembers(q, table, None, r);
    }
  }

  /** All of it lies beyond the cursor it starts from. */
  ghost predicate AllBeyond<R, K>(q: Query<R, K>, s: seq<R>, after: Option<K>) {
    after.Some? ==> forall i :: 0 <= i < |s| ==> q.less(after.value, q.key(s[i]))
  }

  lemma PageAscends<R(!new), K(!new)>(q: Query<R, K>, table: seq<R>, after: Option<K>, limit: nat)
    requires StrictTotal(q.less) && UniqueKeys(q, table) && limit > 0
    ensures var page := PageOf(q, table, after, limit);
      && Ascending(q, page.items) && AllBeyond(q, page.items, after)
      && (page.next.Some? ==> |page.items| == limit && page.next == CursorAfter(q, page.items))
  {
    SelectAscends(q, table, after);
    var page, rest := PageOf(q, table, after, limit), Select(q, table, after);
    if after.Some? {
      forall i | 0 <= i < |rest| ensures q.less(after.value, q.key(rest[i])) {
        SelectMembers(q, table, after, rest[i]);
      }
    }
  }

  lemma AscendingJoin<R(!new), K(!new)>(q: Query<R, K>, a: seq<R>, b: seq<R>, after: Option<K>)
    requires StrictTotal(q.less) && Ascending(q, a) && AllBeyond(q, a, after) && a != []
    requires Ascending(q, b) && AllBeyond(q, b, CursorAfter(q, a))
    ensures Ascending(q, a + b) && AllBeyond(q, a + b, after)
  {
    var last := q.key(a[|a| - 1]);
    forall i, j | 0 <= i < |a| && 0 <= j < |b| ensures q.less(q.key(a[i]), q.key(b[j])) {
      assert q.less(last, q.key(b[j]));
    }
  }

  /** Rows inserted, removed or changed between the pages never make a key show
      up twice: the rows gathered ascend strictly. */
  lemma {:induction false} WalkNeverRepeats<R(!new), K(!new)>(q: Query<R, K>, tables: seq<seq<R>>, after: Option<K>,
                                                             limit: nat)
    requires StrictTotal(q.less) && limit > 0 && AllUnique(q, tables)
    ensures Ascending(q, Walk(q, tables, after, limit)) && AllBeyond(q, Walk(q, tables, after, limit), after)
    decreases |tables|
  {
    if tables != [] {
      var page := PageOf(q, tables[0], after, limit);
      PageAscends(q, tables[0], after, limit);
      if page.next.Some? {
        WalkNeverRepeats(q, tables[1..], page.next, limit);
        AscendingJoin(q, page.items, Walk(q, tables[1..], page.next, limit), after);
      }
    }
  }

  /** Some row wanted under this key. */
  ghost predicate Holds<R(!new), K(!new)>(q: Query<R, K>, s: seq<R>, k: K) {
    exists i :: 0 <= i < |s| && q.wanted(s[i]) && q.key(s[i]) == k
  }

  ghost predicate AllHold<R(!new), K(!new)>(q: Query<R, K>, tables: seq<seq<R>>, k: K) {
    forall i :: 0 <= i < |tables| ==> Holds(q, tables[i], k)
  }

  /** A wanted row beyond the cursor is on the page or beyond the next cursor. */
  lemma PageOrLater<R(!new), K(!new)>(q: Query<R, K>, table: seq<R>, after: Option<K>, limit: nat, k: K)
    requires StrictTotal(q.less) && UniqueKeys(q, table) && limit > 0
    requires Holds(q, table, k) && (after.Some? ==> q.less(after.value, k))
    ensures var page := PageOf(q, table, after, limit);
      Holds(q, page.items, k) || (page.next.Some? && q.less(page.next.value, k))
  {
    var i :| 0 <= i < |table| && q.wanted(table[i]) && q.key(table[i]) == k;
    var page, rest := PageOf(q, table, after, limit), Select(q, table, after);
    SelectMembers(q, table, after, table[i]);
    SelectAscends(q, table, after);
    var j :| 0 <= j < |rest| && rest[j] == table[i];
    if j < |page.items| {
      assert page.items[j] == table[i];
    } else {
      assert q.less(q.key(rest[limit - 1]), q.key(rest[j]));
    }
  }

  /** Nor do they hide one: a row that matches throughout is among the rows of a
      finished walk, and by WalkNeverRepeats only once. */
  lemma {:induction false} WalkHidesNothing<R(!new), K(!new)>(q: Query<R, K>, tables: seq<seq<R>>, after: Option<K>,
                                                             limit: nat, k: K)
    requires StrictTotal(q.less) && limit > 0 && AllUnique(q, tables)
    requires Finishes(q, tables, after, limit)
    requires AllHold(q, tables, k) && (after.Some? ==> q.less(after.value, k))
    ensures Holds(q, Walk(q, tables, after, limit), k)
    decreases |tables|
  {
    var page := PageOf(q, tables[0], after, limit);
    PageOrLater(q, tables[0], after, limit, k);
    var rest := if page.next.None? then [] else Walk(q, tables[1..], page.next, limit);
    if !Holds(q, page.items, k) {
      WalkHidesNothing(q, tables[1..], page.next, limit, k);
    }
    HoldsJoin(q, page.items, rest, k);
  }

  lemma HoldsJoin<R(!new), K(!new)>(q: Query<R, K>, a: seq<R>, b: seq<R>, k: K)
    requires Holds(q, a, k) || Holds(q, b, k)
    ensures Holds(q, a + b, k)
  {
    if Holds(q, a, k) {
      var i :| 0 <= i < |a| && q.wanted(a[i]) && q.key(a[i]) == k;
      assert (a + b)[i] == a[i];
    } else {
      var i :| 0 <= i < |b| && q.wanted(b[i]) && q.key(b[i]) == k;
      assert (a + b)[|a| + i] == b[i];
    }
  }

  /** Two lists that ascend and hold the same rows are the same list, so the
      order in which the database keeps its rows does not show. */
  lemma FullIgnoresRowOrder<R(!new), K(!new)>(q: Query<R, K>, a: seq<R>, b: seq<R>)
    requires StrictTotal(q.less) && UniqueKeys(q, a) && UniqueKeys(q, b)
    requires forall r :: r in a <==> r in b
    ensures Full(q, a) == Full(q, b)
  {
    SelectAscends(q, a, None);
    SelectAscends(q, b, None);
    forall r ensures r in Full(q, a) <==> r in Full(q, b) {
      SelectMembers(q, a, None, r);
      SelectMembers(q, b, None, r);
    }
    AscendingIsUnique(q, Full(q, a), Full(q, b));
  }

  lemma {:induction false} AscendingIsUnique<R(!new), K(!new)>(q: Query<R, K>, a: seq<R>, b: seq<R>)
    requires StrictTotal(q.less) && Ascending(q, a) && Ascending(q, b) && forall r :: r in a <==> r in b
    ensures a == b
  {
    EmptyTogether(a, b);
    if a != [] {
      FirstIsLeast(q, a, b[0]);
      FirstIsLeast(q, b, a[0]);
      forall r ensures r in a[1..] <==> r in b[1..] {
        TailMembers(q, a, r);
        TailMembers(q, b, r);
      }
      AscendingIsUnique(q, a[1..], b[1..]);
      assert a == [a[0]] + a[1..] && b == [b[0]] + b[1..];
    }
  }

  lemma EmptyTogether<R(!new)>(a: seq<R>, b: seq<R>)
    requires forall r :: r in a <==> r in b
    ensures a == [] <==> b == []
  {
    if a != [] {
      assert a[0] in a;
    }
    if b != [] {
      assert b[0] in b;
    }
  }

  lemma FirstIsLeast<R(!new), K(!new)>(q: Query<R, K>, s: seq<R>, r: R)
    requires Ascending(q, s) && r in s
    ensures r == s[0] || q.less(q.key(s[0]), q.key(r))
  {
    var i :| 0 <= i < |s| && s[i] == r;
  }

  lemma TailMembers<R(!new), K(!new)>(q: Query<R, K>, s: seq<R>, r: R)
    requires StrictTotal(q.less) && Ascending(q, s) && s != []
    ensures r in s[1..] <==> r in s && r != s[0]
  {
    if r in s[1..] {
      var i :| 0 <= i < |s| - 1 && s[1..][i] == r;
      assert q.less(q.key(s[0]), q.key(s[i + 1]));
    }
    if r in s && r != s[0] {
      var i :| 0 <= i < |s| && s[i] == r;
      assert s[1..][i - 1] == r;
    }
  }

  // ---- Rows whose keys change between the pages --------------------------------------------

  /** The primary key. */
  ghost predicate UniqueIds<R, I>(id: R -> I, s: seq<R>) {
    forall i, j :: 0 <= i < j < |s| ==> id(s[i]) != id(s[j])
  }

  ghost predicate AllUniqueIds<R, I>(id: R -> I, tables: seq<seq<R>>) {
    forall i :: 0 <= i < |tables| ==> UniqueIds(id, tables[i])
  }

  /** A row wanted in both tables lies further on in the second. */
  ghost predicate MovesForward<R(!new), K(!new), I(!new)>(q: Query<R, K>, id: R -> I, a: seq<R>, b: seq<R>) {
    exists r, r' :: r in a && r' in b && SameWanted(q, id, r, r') && q.less(q.key(r), q.key(r'))
  }

  predicate SameWanted<R, K, I(==)>(q: Query<R, K>, id: R -> I, r: R, r': R) {
    q.wanted(r) && q.wanted(r') && id(r) == id(r')
  }

  ghost predicate NoneMovesForward<R(!new), K(!new), I(!new)>(q: Query<R, K>, id: R -> I, tables: seq<seq<R>>) {
    forall i, j :: 0 <= i < j < |tables| ==> !MovesForward(q, id, tables[i], tables[j])
  }

  lemma OneRowPerId<R(!new), I(!new)>(id: R -> I, s: seq<R>, r: R, r': R)
    requires UniqueIds(id, s) && r in s && r' in s && id(r) == id(r')
    ensures r == r'
  {
    var i :| 0 <= i < |s| && s[i] == r;
    var j :| 0 <= j < |s| && s[j] == r';
  }

  lemma PageMembers<R(!new), K(!new)>(q: Query<R, K>, table: seq<R>, after: Option<K>, limit: nat, r: R)
    requires limit > 0 && r in PageOf(q, table, after, limit).items
    ensures r in table && q.wanted(r)
  {
    assert r in Select(q, table, after);
    SelectMembers(q, table, after, r);
  }

  /** What a walk gathers was wanted in the table of some page. */
  lemma {:induction false} WalkMembers<R(!new), K(!new)>(q: Query<R, K>, tables: seq<seq<R>>, after: Option<K>, limit: nat,
                                                        r: R) returns (i: nat)
    requires limit > 0 && r in Walk(q, tables, after, limit)
    ensures i < |tables| && r in tables[i] && q.wanted(r)
    decreases |tables|
  {
    var page := PageOf(q, tables[0], after, limit);
    WalkHas(q, tables, after, limit, r);
    if r in page.items {
      PageMembers(q, tables[0], after, limit, r);
      i := 0;
    } else {
      var k := WalkMembers(q, tables[1..], page.next, limit, r);
      i := k + 1;
    }
  }

  lemma PageHasUniqueIds<R(!new), K(!new), I(!new)>(q: Query<R, K>, id: R -> I, table: seq<R>, after: Option<K>, limit: nat)
    requires StrictTotal(q.less) && UniqueKeys(q, table) && UniqueIds(id, table) && limit > 0
    ensures UniqueIds(id, PageOf(q, table, after, limit).items)
  {
    var items := PageOf(q, table, after, limit).items;
    PageAscends(q, table, after, limit);
    forall i, j | 0 <= i < j < |items| ensures id(items[i]) != id(items[j]) {
      PageMembers(q, table, after, limit, items[i]);
      PageMembers(q, table, after, limit, items[j]);
      if id(items[i]) == id(items[j]) {
        OneRowPerId(id, table, items[i], items[j]);
      }
    }
  }

  /** A row of a page and a row of the walk that goes on from it: the second lies
      further on. */
  lemma PageBeforeRest<R(!new), K(!new)>(q: Query<R, K>, table: seq<R>, tables: seq<seq<R>>, after: Option<K>, limit: nat,
                                         r: R, r': R)
    requires StrictTotal(q.less) && limit > 0 && UniqueKeys(q, table) && AllUnique(q, tables)
    requires var page := PageOf(q, table, after, limit);
      page.next.Some? && r in page.items && r' in Walk(q, tables, page.next, limit)
    ensures q.less(q.key(r), q.key(r'))
  {
    var page := PageOf(q, table, after, limit);
    var rest := Walk(q, tables, page.next, limit);
    PageAscends(q, table, after, limit);
    WalkNeverRepeats(q, tables, page.next, limit);
    var i :| 0 <= i < |page.items| && page.items[i] == r;
    var j :| 0 <= j < |rest| && rest[j] == r';
    assert q.less(page.next.value, q.key(rest[j]));
    assert i == limit - 1 || q.less(q.key(page.items[i]), q.key(page.items[limit - 1]));
  }

  lemma JoinUniqueIds<R(!new), I(!new)>(id: R -> I, a: seq<R>, b: seq<R>)
    requires UniqueIds(id, a) && UniqueIds(id, b) && forall r, r' :: r in a && r' in b ==> id(r) != id(r')
    ensures UniqueIds(id, a + b)
  {
    forall i, j | 0 <= i < |a| && 0 <= j < |b| ensures id(a[i]) != id(b[j]) {
      assert a[i] in a && b[j] in b;
    }
  }

  /** Whatever else happens between the pages: while no wanted row moves forward in
      the order of the listing, no row is returned twice. */
  lemma {:induction false} NoRowTwice<R(!new), K(!new), I(!new)>(q: Query<R, K>, id: R -> I, tables: seq<seq<R>>,
                                                                after: Option<K>, limit: nat)
    requires StrictTotal(q.less) && limit > 0 && AllUnique(q, tables) && AllUniqueIds(id, tables)
    requires NoneMovesForward(q, id, tables)
    ensures UniqueIds(id, Walk(q, tables, after, limit))
    decreases |tables|
  {
    if tables != [] {
      var page := PageOf(q, tables[0], after, limit);
      PageHasUniqueIds(q, id, tables[0], after, limit);
      if page.next.Some? {
        var rest := Walk(q, tables[1..], page.next, limit);
        NoRowTwice(q, id, tables[1..], page.next, limit);
        forall r, r' | r in page.items && r' in rest ensures id(r) != id(r') {
          PageBeforeRest(q, tables[0], tables[1..], after, limit, r, r');
          PageMembers(q, tables[0], after, limit, r);
          var k := WalkMembers(q, tables[1..], page.next, limit, r');
          assert !MovesForward(q, id, tables[0], tables[k + 1]);
          assert id(r) == id(r') ==> SameWanted(q, id, r, r');
        }
        JoinUniqueIds(id, page.items, rest);
      }
    }
  }

  function Same<R>(table: seq<R>, n: nat): seq<seq<R>> {
    seq(n, _ => table)
  }

  /** A first page from one table and as many more as one likes from another. */
  function Reread<R>(a: seq<R>, b: seq<R>, n: nat): seq<seq<R>> {
    [a] + Same(b, n)
  }

  /** Some page size and number of pages return a row twice. */
  ghost predicate CanRepeat<R(!new), K(!new), I(!new)>(q: Query<R, K>, id: R -> I, a: seq<R>, b: seq<R>) {
    exists limit: nat, n: nat :: limit > 0 && !UniqueIds(id, Walk(q, Reread(a, b, n), None, limit))
  }

  /** A wanted row moves forward, and in the first table another wanted row lay
      after it. */
  ghost predicate Overtakes<R(!new), K(!new), I(!new)>(q: Query<R, K>, id: R -> I, a: seq<R>, b: seq<R>) {
    exists r, r', x :: r in a && r' in b && x in a && SameWanted(q, id, r, r') && q.wanted(x)
      && q.less(q.key(r), q.key(r')) && q.less(q.key(r), q.key(x))
  }

  /** Where a row stands in the list. */
  lemma Stands<R(!new), K(!new)>(q: Query<R, K>, table: seq<R>, r: R) returns (i: nat)
    requires r in table && q.wanted(r)
    ensures i < |Full(q, table)| && Full(q, table)[i] == r
  {
    SelectMembers(q, table, None, r);
    i :| 0 <= i < |Full(q, table)| && Full(q, table)[i] == r;
  }

  /** A first page that ends with a row, and the rest of the other table after it. */
  lemma StopAt<R(!new), K(!new)>(q: Query<R, K>, a: seq<R>, b: seq<R>, r: R, x: R) returns (limit: nat, n: nat)
    requires StrictTotal(q.less) && UniqueKeys(q, a) && UniqueKeys(q, b)
    requires r in a && x in a && q.wanted(r) && q.wanted(x) && q.less(q.key(r), q.key(x))
    ensures limit > 0 && n > 0 && Finishes(q, Reread(a, b, n), None, limit)
    ensures var page := PageOf(q, a, None, limit);
      && page.next == Some(q.key(r)) && |page.items| == limit && page.items[limit - 1] == r
      && Walk(q, Reread(a, b, n), None, limit) == page.items + Select(q, b, Some(q.key(r)))
  {
    var i := Stands(q, a, r);
    var j := Stands(q, a, x);
    SelectAscends(q, a, None);
    assert j < i ==> q.less(q.key(x), q.key(r));
    limit, n := i + 1, |Select(q, b, Some(q.key(r)))| + 1;
    RoomEnough(n, limit);
    WalkRest(q, b, Same(b, n), Some(q.key(r)), limit);
    assert Reread(a, b, n)[1..] == Same(b, n);
  }

  /** With one change of the table, after the first page: some walk returns a row
      twice exactly when a wanted row moved forward that was not the last. */
  lemma RepeatsIff<R(!new), K(!new), I(!new)>(q: Query<R, K>, id: R -> I, a: seq<R>, b: seq<R>)
    requires StrictTotal(q.less) && UniqueKeys(q, a) && UniqueKeys(q, b) && UniqueIds(id, a) && UniqueIds(id, b)
    ensures CanRepeat(q, id, a, b) <==> Overtakes(q, id, a, b)
  {
    if Overtakes(q, id, a, b) {
      var r, r', x :| r in a && r' in b && x in a && SameWanted(q, id, r, r') && q.wanted(x)
        && q.less(q.key(r), q.key(r')) && q.less(q.key(r), q.key(x));
      OvertakingRepeats(q, id, a, b, r, r', x);
    }
    if CanRepeat(q, id, a, b) {
      var limit: nat, n: nat :| limit > 0 && !UniqueIds(id, Walk(q, Reread(a, b, n), None, limit));
      RepeatOvertakes(q, id, a, b, limit, n);
    }
  }

  lemma OvertakingRepeats<R(!new), K(!new), I(!new)>(q: Query<R, K>, id: R -> I, a: seq<R>, b: seq<R>, r: R, r': R, x: R)
    requires StrictTotal(q.less) && UniqueKeys(q, a) && UniqueKeys(q, b)
    requires r in a && r' in b && x in a && SameWanted(q, id, r, r') && q.wanted(x)
    requires q.less(q.key(r), q.key(r')) && q.less(q.key(r), q.key(x))
    ensures CanRepeat(q, id, a, b)
  {
    var limit, n := StopAt(q, a, b, r, x);
    var rest := Select(q, b, Some(q.key(r)));
    SelectMembers(q, b, Some(q.key(r)), r');
    var j :| 0 <= j < |rest| && rest[j] == r';
    var all := Walk(q, Reread(a, b, n), None, limit);
    assert all[limit - 1] == r && all[limit + j] == r';
    assert !UniqueIds(id, all);
  }

  lemma SameNeverMoves<R(!new), K(!new), I(!new)>(q: Query<R, K>, id: R -> I, table: seq<R>, n: nat)
    requires StrictTotal(q.less) && UniqueIds(id, table)
    ensures NoneMovesForward(q, id, Same(table, n))
  {
    forall r, r' | r in table && r' in table && id(r) == id(r') ensures r == r' {
      OneRowPerId(id, table, r, r');
    }
  }

  lemma RepeatOvertakes<R(!new), K(!new), I(!new)>(q: Query<R, K>, id: R -> I, a: seq<R>, b: seq<R>, limit: nat, n: nat)
    requires StrictTotal(q.less) && UniqueKeys(q, a) && UniqueKeys(q, b) && UniqueIds(id, a) && UniqueIds(id, b)
    requires limit > 0 && !UniqueIds(id, Walk(q, Reread(a, b, n), None, limit))
    ensures Overtakes(q, id, a, b)
  {
    var page := PageOf(q, a, None, limit);
    assert Reread(a, b, n)[1..] == Same(b, n);
    assert page.items + [] == page.items;
    PageHasUniqueIds(q, id, a, None, limit);
    var rest := Walk(q, Same(b, n), page.next, limit);
    SameNeverMoves(q, id, b, n);
    NoRowTwice(q, id, Same(b, n), page.next, limit);
    if forall r, r' :: r in page.items && r' in rest ==> id(r) != id(r') {
      JoinUniqueIds(id, page.items, rest);
    }
    var r, r' :| r in page.items && r' in rest && id(r) == id(r');
    PageBeforeRest(q, a, Same(b, n), None, limit, r, r');
    PageMembers(q, a, None, limit, r);
    var k := WalkMembers(q, Same(b, n), page.next, limit, r');
    var x := NextRow(q, a, limit, r);
    assert SameWanted(q, id, r, r');
  }

  /** The row that follows a page that has a next one. */
  lemma NextRow<R(!new), K(!new)>(q: Query<R, K>, table: seq<R>, limit: nat, r: R) returns (x: R)
    requires StrictTotal(q.less) && UniqueKeys(q, table) && limit > 0
    requires PageOf(q, table, None, limit).next.Some? && r in PageOf(q, table, None, limit).items
    ensures x in table && q.wanted(x) && q.less(q.key(r), q.key(x))
  {
    var all := Full(q, table);
    x := all[limit];
    SelectAscends(q, table, None);
    SelectMembers(q, table, None, x);
    var i :| 0 <= i < limit && all[i] == r;
  }

  // ---- And the other way: rows that are missed ------------------------------------------------

  /** The row of this id is there and wanted. */
  ghost predicate HoldsId<R(!new), K(!new), I(!new)>(q: Query<R, K>, id: R -> I, s: seq<R>, k: I) {
    exists r :: r in s && q.wanted(r) && id(r) == k
  }

  ghost predicate AllHoldId<R(!new), K(!new), I(!new)>(q: Query<R, K>, id: R -> I, tables: seq<seq<R>>, k: I) {
    forall i :: 0 <= i < |tables| ==> HoldsId(q, id, tables[i], k)
  }

  /** The row of this id never moves back. */
  ghost predicate NeverFallsBack<R(!new), K(!new), I(!new)>(q: Query<R, K>, id: R -> I, tables: seq<seq<R>>, k: I) {
    forall i, j, r, r' :: 0 <= i < j < |tables| && r in tables[i] && r' in tables[j] && SameWanted(q, id, r, r') && id(r) == k
      ==> !q.less(q.key(r'), q.key(r))
  }

  /** All rows of this id lie beyond the cursor. */
  ghost predicate Ahead<R(!new), K(!new), I(!new)>(q: Query<R, K>, id: R -> I, s: seq<R>, k: I, after: Option<K>) {
    after.Some? ==> forall r :: r in s && q.wanted(r) && id(r) == k ==> q.less(after.value, q.key(r))
  }

  lemma {:induction false} FoundFrom<R(!new), K(!new), I(!new)>(q: Query<R, K>, id: R -> I, tables: seq<seq<R>>, n: nat,
                                                               after: Option<K>, limit: nat, k: I) returns (found: R)
    requires StrictTotal(q.less) && limit > 0 && AllUnique(q, tables)
    requires AllHoldId(q, id, tables, k) && NeverFallsBack(q, id, tables, k)
    requires n < |tables| && Finishes(q, tables[n..], after, limit) && Ahead(q, id, tables[n], k, after)
    ensures found in Walk(q, tables[n..], after, limit) && id(found) == k
    decreases |tables| - n
  {
    var page := PageOf(q, tables[n], after, limit);
    var r :| r in tables[n] && q.wanted(r) && id(r) == k;
    OnPageOrAhead(q, tables[n], after, limit, r);
    assert tables[n..][1..] == tables[n + 1..];
    if r in page.items {
      found := r;
    } else {
      StaysAhead(q, id, tables, n, k, r, page.next);
      found := FoundFrom(q, id, tables, n + 1, page.next, limit, k);
    }
    WalkHas(q, tables[n..], after, limit, found);
  }

  /** A row wanted throughout that never moves back is among the rows of a finished
      walk, however its key changes otherwise. */
  lemma NoRowMissed<R(!new), K(!new), I(!new)>(q: Query<R, K>, id: R -> I, tables: seq<seq<R>>, after: Option<K>,
                                               limit: nat, k: I) returns (found: R)
    requires StrictTotal(q.less) && limit > 0 && AllUnique(q, tables)
    requires Finishes(q, tables, after, limit) && AllHoldId(q, id, tables, k) && NeverFallsBack(q, id, tables, k)
    requires Ahead(q, id, tables[0], k, after)
    ensures found in Walk(q, tables, after, limit) && id(found) == k
  {
    assert tables[0..] == tables;
    found := FoundFrom(q, id, tables, 0, after, limit, k);
  }

  lemma WalkHas<R(!new), K(!new)>(q: Query<R, K>, tables: seq<seq<R>>, after: Option<K>, limit: nat, r: R)
    requires limit > 0 && tables != []
    ensures var page := PageOf(q, tables[0], after, limit);
      r in Walk(q, tables, after, limit)
      <==> r in page.items || (page.next.Some? && r in Walk(q, tables[1..], page.next, limit))
  {
    var page := PageOf(q, tables[0], after, limit);
    InConcat(page.items, if page.next.None? then [] else Walk(q, tables[1..], page.next, limit), r);
  }

  lemma InConcat<T>(a: seq<T>, b: seq<T>, x: T)
    ensures x in a + b <==> x in a || x in b
  {
  }

  lemma StaysAhead<R(!new), K(!new), I(!new)>(q: Query<R, K>, id: R -> I, tables: seq<seq<R>>, n: nat, k: I, r: R,
                                              next: Option<K>)
    requires StrictTotal(q.less) && NeverFallsBack(q, id, tables, k)
    requires n < |tables| && r in tables[n] && q.wanted(r) && id(r) == k && next.Some? && q.less(next.value, q.key(r))
    ensures n + 1 < |tables| ==> Ahead(q, id, tables[n + 1], k, next)
  {
    if n + 1 < |tables| {
      forall r' | r' in tables[n + 1] && q.wanted(r') && id(r') == k ensures q.less(next.value, q.key(r')) {
        assert SameWanted(q, id, r, r') && !q.less(q.key(r'), q.key(r));
      }
    }
  }

  lemma OnPageOrAhead<R(!new), K(!new)>(q: Query<R, K>, table: seq<R>, after: Option<K>, limit: nat, r: R)
    requires StrictTotal(q.less) && UniqueKeys(q, table) && limit > 0
    requires r in table && q.wanted(r) && (after.Some? ==> q.less(after.value, q.key(r)))
    ensures var page := PageOf(q, table, after, limit);
      r in page.items || (page.next.Some? && q.less(page.next.value, q.key(r)))
  {
    SelectMembers(q, table, after, r);
    SelectAscends(q, table, after);
    var rest, page := Select(q, table, after), PageOf(q, table, after, limit);
    var i :| 0 <= i < |rest| && rest[i] == r;
    if i < |page.items| {
      assert page.items[i] == r;
    } else {
      assert q.less(q.key(rest[limit - 1]), q.key(rest[i]));
    }
  }

  /** Some page size lets a walk finish without a row that was wanted all along. */
  ghost predicate CanMiss<R(!new), K(!new), I(!new)>(q: Query<R, K>, id: R -> I, a: seq<R>, b: seq<R>, k: I) {
    exists limit: nat, n: nat :: limit > 0 && Finishes(q, Reread(a, b, n), None, limit)
      && forall r :: r in Walk(q, Reread(a, b, n), None, limit) ==> id(r) != k
  }

  /** The row falls back from behind another row of the first table to it or before it. */
  ghost predicate FallsBehind<R(!new), K(!new), I(!new)>(q: Query<R, K>, id: R -> I, a: seq<R>, b: seq<R>, k: I) {
    exists r, r', x :: r in a && r' in b && x in a && SameWanted(q, id, r, r') && id(r) == k && q.wanted(x)
      && q.less(q.key(x), q.key(r)) && !q.less(q.key(x), q.key(r'))
  }

  /** With one change of the table, after the first page: some finished walk misses
      a row wanted in both exactly when the row fell back behind one that was
      before it. */
  lemma MissesIff<R(!new), K(!new), I(!new)>(q: Query<R, K>, id: R -> I, a: seq<R>, b: seq<R>, k: I)
    requires StrictTotal(q.less) && UniqueKeys(q, a) && UniqueKeys(q, b) && UniqueIds(id, a) && UniqueIds(id, b)
    requires HoldsId(q, id, a, k) && HoldsId(q, id, b, k)
    ensures CanMiss(q, id, a, b, k) <==> FallsBehind(q, id, a, b, k)
  {
    var r :| r in a && q.wanted(r) && id(r) == k;
    var r' :| r' in b && q.wanted(r') && id(r') == k;
    forall s | s in a && id(s) == k ensures s == r {
      OneRowPerId(id, a, s, r);
    }
    forall s | s in b && id(s) == k ensures s == r' {
      OneRowPerId(id, b, s, r');
    }
    if FallsBehind(q, id, a, b, k) {
      var x :| x in a && q.wanted(x) && q.less(q.key(x), q.key(r)) && !q.less(q.key(x), q.key(r'));
      FallingMisses(q, id, a, b, r, r', x);
    }
    if CanMiss(q, id, a, b, k) {
      var limit: nat, n: nat :| limit > 0 && Finishes(q, Reread(a, b, n), None, limit)
        && forall s :: s in Walk(q, Reread(a, b, n), None, limit) ==> id(s) != k;
      MissFalls(q, id, a, b, limit, n, r, r');
    }
  }

  lemma FallingMisses<R(!new), K(!new), I(!new)>(q: Query<R, K>, id: R -> I, a: seq<R>, b: seq<R>, r: R, r': R, x: R)
    requires StrictTotal(q.less) && UniqueKeys(q, a) && UniqueKeys(q, b) && UniqueIds(id, a) && UniqueIds(id, b)
    requires r in a && r' in b && x in a && SameWanted(q, id, r, r') && q.wanted(x)
    requires q.less(q.key(x), q.key(r)) && !q.less(q.key(x), q.key(r'))
    ensures CanMiss(q, id, a, b, id(r))
  {
    var limit, n := StopAt(q, a, b, x, r);
    var page, rest := PageOf(q, a, None, limit), Select(q, b, Some(q.key(x)));
    forall s | s in page.items + rest ensures id(s) != id(r) {
      if s in page.items {
        PageMembers(q, a, None, limit, s);
        PageUpToLast(q, a, limit, s);
        if id(s) == id(r) {
          OneRowPerId(id, a, s, r);
        }
      } else {
        SelectMembers(q, b, Some(q.key(x)), s);
        if id(s) == id(r) {
          OneRowPerId(id, b, s, r');
        }
      }
    }
  }

  lemma PageUpToLast<R(!new), K(!new)>(q: Query<R, K>, table: seq<R>, limit: nat, s: R)
    requires StrictTotal(q.less) && UniqueKeys(q, table) && limit > 0
    requires var page := PageOf(q, table, None, limit); page.next.Some? && s in page.items
    ensures !q.less(PageOf(q, table, None, limit).next.value, q.key(s))
  {
    var page := PageOf(q, table, None, limit);
    PageAscends(q, table, None, limit);
    var i :| 0 <= i < limit && page.items[i] == s;
    assert i == limit - 1 || q.less(q.key(page.items[i]), q.key(page.items[limit - 1]));
  }

  lemma MissFalls<R(!new), K(!new), I(!new)>(q: Query<R, K>, id: R -> I, a: seq<R>, b: seq<R>, limit: nat, n: nat,
                                             r: R, r': R)
    requires StrictTotal(q.less) && UniqueKeys(q, a) && UniqueKeys(q, b) && UniqueIds(id, a) && UniqueIds(id, b)
    requires r in a && r' in b && SameWanted(q, id, r, r')
    requires limit > 0 && Finishes(q, Reread(a, b, n), None, limit)
    requires forall s :: s in Walk(q, Reread(a, b, n), None, limit) ==> id(s) != id(r)
    ensures FallsBehind(q, id, a, b, id(r))
  {
    var page := PageOf(q, a, None, limit);
    assert Reread(a, b, n)[1..] == Same(b, n) && Reread(a, b, n)[0] == a;
    OnPageOrAhead(q, a, None, limit, r);
    assert r !in page.items;
    PageAscends(q, a, None, limit);
    var x := page.items[limit - 1];
    PageMembers(q, a, None, limit, x);
    if q.less(q.key(x), q.key(r')) {
      AheadIsFound(q, id, a, b, limit, n, r');
    }
  }

  lemma AheadIsFound<R(!new), K(!new), I(!new)>(q: Query<R, K>, id: R -> I, a: seq<R>, b: seq<R>, limit: nat, n: nat, r: R)
    requires StrictTotal(q.less) && UniqueKeys(q, a) && UniqueKeys(q, b) && UniqueIds(id, b)
    requires r in b && q.wanted(r) && limit > 0 && Finishes(q, Reread(a, b, n), None, limit)
    requires var page := PageOf(q, a, None, limit); page.next.Some? && q.less(page.next.value, q.key(r))
    ensures exists s :: s in Walk(q, Reread(a, b, n), None, limit) && id(s) == id(r)
  {
    var page := PageOf(q, a, None, limit);
    assert Reread(a, b, n)[1..] == Same(b, n);
    forall s | s in b && q.wanted(s) && id(s) == id(r) ensures s == r {
      OneRowPerId(id, b, s, r);
    }
    SameHolds(q, id, b, n, r);
    var found := NoRowMissed(q, id, Same(b, n), page.next, limit, id(r));
    WalkHas(q, Reread(a, b, n), None, limit, found);
  }

  lemma SameHolds<R(!new), K(!new), I(!new)>(q: Query<R, K>, id: R -> I, table: seq<R>, n: nat, r: R)
    requires StrictTotal(q.less) && UniqueIds(id, table) && r in table && q.wanted(r)
    ensures AllHoldId(q, id, Same(table, n), id(r)) && NeverFallsBack(q, id, Same(table, n), id(r))
  {
    forall s, s' | s in table && s' in table && id(s) == id(s') ensures s == s' {
      OneRowPerId(id, table, s, s');
    }
  }

  // ---- The catalogue, whole ---------------------------------------------------------------

  /** A page read after the rows a takes the next rows of the list. */
  lemma NextPage<R(!new), K(!new)>(q: Query<R, K>, table: seq<R>, a: seq<R>, b: seq<R>, limit: nat)
    requires StrictTotal(q.less) && UniqueKeys(q, table) && Full(q, table) == a + b && limit > 0
    ensures var page := PageOf(q, table, CursorAfter(q, a), limit);
      && |page.items| <= |b| && Full(q, table) == (a + page.items) + b[|page.items|..]
      && (if page.next.None? then |page.items| == |b| && |b| <= limit
          else |page.items| == limit < |b| && page.next == CursorAfter(q, a + page.items))
  {
    SelectAfter(q, table, a, b);
    CutTwice(a, b, if |b| <= limit then |b| else limit);
  }

  lemma CutTwice<T>(a: seq<T>, b: seq<T>, n: nat)
    requires n <= |b|
    ensures (a + b[..n]) + b[n..] == a + b
    ensures n == |b| ==> b[..n] == b
    ensures n > 0 ==> (a + b[..n])[|a| + n - 1] == b[n - 1]
  {
  }

  /** ListAll: the first 2000 products in code order, or all there are. */
  method ListAll<R(!new), K(!new)>(q: Query<R, K>, table: seq<R>) returns (products: seq<R>)
    requires StrictTotal(q.less) && UniqueKeys(q, table)
    ensures products == if |Full(q, table)| <= 2000 then Full(q, table) else Full(q, table)[..2000]
  {
    products := [];
    var cursor: Option<K> := None;
    ghost var rest := Full(q, table);
    while true
      invariant Full(q, table) == products + rest && cursor == CursorAfter(q, products)
      invariant |products| % CATALOGUE_PAGE_SIZE == 0 && |products| < MAX_CATALOGUE_PRODUCTS
      decreases |rest|
    {
      var page := List(q, table, cursor, CATALOGUE_PAGE_SIZE);
      NextPage(q, table, products, rest, CATALOGUE_PAGE_SIZE);
      products, rest := products + page.items, rest[|page.items|..];
      if page.next.None? || |products| >= MAX_CATALOGUE_PRODUCTS {
        return;
      }
      cursor := page.next;
    }
  }

  // ---- The orders in use -----------------------------------------------------------------

  datatype Direction = Ascendingly | Descendingly

  /** Reading a listing the other way round. */
  function Directed<K>(less: (K, K) -> bool, order: Direction): (K, K) -> bool {
    if order == Ascendingly then less else (a, b) => less(b, a)
  }

  function Pairwise<A, B>(first: (A, A) -> bool, second: (B, B) -> bool): ((A, B), (A, B)) -> bool {
    (a: (A, B), b: (A, B)) => first(a.0, b.0) || (!first(b.0, a.0) && second(a.1, b.1))
  }

  lemma DirectedIsStrictTotal<K(!new)>(less: (K, K) -> bool, order: Direction)
    requires StrictTotal(less)
    ensures StrictTotal(Directed(less, order))
  {
    if order == Descendingly {
      var reversed := Directed(less, order);
      forall a, b ensures reversed(a, b) == less(b, a) {
      }
    }
  }

  /** A column that repeats and a unique one that breaks its ties. */
  lemma PairwiseIsStrictTotal<A(!new), B(!new)>(first: (A, A) -> bool, second: (B, B) -> bool)
    requires StrictTotal(first) && StrictTotal(second)
    ensures StrictTotal(Pairwise(first, second))
  {
    var less := Pairwise(first, second);
    forall a: (A, B) ensures !less(a, a) {
      assert !first(a.0, a.0) && !second(a.1, a.1);
    }
    forall a: (A, B), b: (A, B) ensures less(a, b) || a == b || less(b, a) {
      assert a == (a.0, a.1) && b == (b.0, b.1);
    }
    forall a: (A, B), b: (A, B), c: (A, B) | less(a, b) && less(b, c) ensures less(a, c) {
      assert first(a.0, b.0) || a.0 == b.0;
      assert first(b.0, c.0) || b.0 == c.0;
    }
  }

  function IntLess(): (int, int) -> bool {
    (a, b) => a < b
  }

  function TextLess(): (string, string) -> bool {
    (a, b) => !StringLeq(b, a)
  }

  lemma IntLessIsStrictTotal()
    ensures StrictTotal(IntLess())
  {
  }

  lemma TextLessIsStrictTotal()
    ensures StrictTotal(TextLess())
  {
    var less := TextLess();
    forall a ensures !less(a, a) {
      StringLeqTotal(a, a);
    }
    forall a, b ensures less(a, b) || a == b || less(b, a) {
      if !less(a, b) && !less(b, a) {
        StringLeqAntisymmetric(a, b);
      }
    }
    forall a, b, c | less(a, b) && less(b, c) ensures less(a, c) {
      StringLeqTotal(b, a);
      if StringLeq(c, a) {
        StringLeqTotal(b, c);
        StringLeqTransitive(b, c, a);
      }
    }
  }

  // ---- The listings ------------------------------------------------------------------------

  datatype InvoiceRow = InvoiceRow(id: Uuid, number: int, failed: bool)

  datatype ProductRow = ProductRow(id: Uuid, code: string, balance: int)

  datatype MovementRow = MovementRow(id: Uuid, product: Uuid, createdAt: Time)

  /** Invoices, by number. */
  function InvoiceList(wanted: InvoiceRow -> bool, order: Direction): Query<InvoiceRow, int> {
    Query(wanted, (r: InvoiceRow) => r.number, Directed(IntLess(), order))
  }

  /** Products, by code ignoring case. */
  function ByCode(wanted: ProductRow -> bool, order: Direction): Query<ProductRow, string> {
    Query(wanted, (r: ProductRow) => Ledger.Upper(r.code), Directed(TextLess(), order))
  }

  /** Products, by balance and then code. */
  function ByBalance(wanted: ProductRow -> bool, order: Direction): Query<ProductRow, (int, string)> {
    Query(wanted, (r: ProductRow) => (r.balance, Ledger.Upper(r.code)), Directed(Pairwise(IntLess(), TextLess()), order))
  }

  /** The movements of one product, newest first. */
  function Movements(product: Uuid): Query<MovementRow, (Time, Uuid)> {
    Query((r: MovementRow) => r.product == product, (r: MovementRow) => (r.createdAt, r.id),
          Directed(Pairwise(IntLess(), (a: Uuid, b: Uuid) => a < b), Descendingly))
  }

  lemma ListingsAreStrictTotal(invoices: InvoiceRow -> bool, products: ProductRow -> bool, order: Direction,
                               product: Uuid)
    ensures StrictTotal(InvoiceList(invoices, order).less)
    ensures StrictTotal(ByCode(products, order).less)
    ensures StrictTotal(ByBalance(products, order).less)
    ensures StrictTotal(Movements(product).less)
  {
    IntLessIsStrictTotal();
    TextLessIsStrictTotal();
    PairwiseIsStrictTotal(IntLess(), TextLess());
    PairwiseIsStrictTotal(IntLess(), (a: Uuid, b: Uuid) => a < b);
    DirectedIsStrictTotal(IntLess(), order);
    DirectedIsStrictTotal(TextLess(), order);
    DirectedIsStrictTotal(Pairwise(IntLess(), TextLess()), order);
    DirectedIsStrictTotal(Pairwise(IntLess(), (a: Uuid, b: Uuid) => a < b), Descendingly);
  }

  /** Invoices go by number, products by code or by balance and then code, each in the
      direction asked for; movements come newest first. */
  lemma ListingsGoBy(wanted: InvoiceRow -> bool, products: ProductRow -> bool, product: Uuid,
                     i: InvoiceRow, j: InvoiceRow, a: ProductRow, b: ProductRow, m: MovementRow, n: MovementRow)
    ensures var up, down := InvoiceList(wanted, Ascendingly), InvoiceList(wanted, Descendingly);
      && (up.less(up.key(i), up.key(j)) <==> i.number < j.number)
      && (down.less(down.key(i), down.key(j)) <==> i.number > j.number)
    ensures var up, down := ByCode(products, Ascendingly), ByCode(products, Descendingly);
      && (up.less(up.key(a), up.key(b)) <==> !StringLeq(Ledger.Upper(b.code), Ledger.Upper(a.code)))
      && (down.less(down.key(a), down.key(b)) <==> !StringLeq(Ledger.Upper(a.code), Ledger.Upper(b.code)))
    ensures var up, down := ByBalance(products, Ascendingly), ByBalance(products, Descendingly);
      && (a.balance != b.balance ==>
           && (up.less(up.key(a), up.key(b)) <==> a.balance < b.balance)
           && (down.less(down.key(a), down.key(b)) <==> a.balance > b.balance))
      && (a.balance == b.balance ==>
           && (up.less(up.key(a), up.key(b)) <==> !StringLeq(Ledger.Upper(b.code), Ledger.Upper(a.code)))
           && (down.less(down.key(a), down.key(b)) <==> !StringLeq(Ledger.Upper(a.code), Ledger.Upper(b.code))))
    ensures var q := Movements(product);
      && (q.wanted(m) <==> m.product == product)
      && (q.less(q.key(m), q.key(n)) <==> m.createdAt > n.createdAt || (m.createdAt == n.createdAt && m.id > n.id))
    ensures InvoiceList(wanted, Ascendingly).wanted == wanted == InvoiceList(wanted, Descendingly).wanted
    ensures ByCode(products, Ascendingly).wanted == products == ByBalance(products, Descendingly).wanted
  {
  }

  function ProductId(): ProductRow -> Uuid {
    (r: ProductRow) => r.id
  }

  /** The two unique indexes of the product table. */
  ghost predicate Indexed(table: seq<ProductRow>) {
    UniqueIds(ProductId(), table) && UniqueKeys(ByCode(_ => true, Ascendingly), table)
  }

  lemma IndexedByBalance(wanted: ProductRow -> bool, order: Direction, table: seq<ProductRow>)
    requires Indexed(table)
    ensures UniqueKeys(ByBalance(wanted, order), table) && StrictTotal(ByBalance(wanted, order).less)
  {
    var byCode, byBalance := ByCode(_ => true, Ascendingly), ByBalance(wanted, order);
    forall i, j | 0 <= i < j < |table| ensures byBalance.key(table[i]) != byBalance.key(table[j]) {
      assert byCode.key(table[i]) != byCode.key(table[j]);
    }
    ListingsAreStrictTotal(_ => true, wanted, order, NIL);
  }

  /** Sorted by balance, over any changes: while no wanted product moves forward, in
      the direction the listing is read in, no product is returned twice. */
  lemma BalancePagesRepeatOnlyWhatMovesForward(wanted: ProductRow -> bool, order: Direction,
                                               tables: seq<seq<ProductRow>>, limit: nat)
    requires limit > 0 && (forall i :: 0 <= i < |tables| ==> Indexed(tables[i]))
    requires NoneMovesForward(ByBalance(wanted, order), ProductId(), tables)
    ensures UniqueIds(ProductId(), Walk(ByBalance(wanted, order), tables, None, limit))
  {
    forall i | 0 <= i < |tables| ensures UniqueKeys(ByBalance(wanted, order), tables[i]) {
      IndexedByBalance(wanted, order, tables[i]);
    }
    ListingsAreStrictTotal(_ => true, wanted, order, NIL);
    NoRowTwice(ByBalance(wanted, order), ProductId(), tables, None, limit);
  }

  /** Sorted by balance, when the balances change once after the first page: some
      page size returns a product twice exactly when a wanted product moves forward
      from a place that was not the last. */
  lemma BalancePagesRepeatIff(wanted: ProductRow -> bool, order: Direction, a: seq<ProductRow>, b: seq<ProductRow>)
    requires Indexed(a) && Indexed(b)
    ensures CanRepeat(ByBalance(wanted, order), ProductId(), a, b)
       <==> Overtakes(ByBalance(wanted, order), ProductId(), a, b)
  {
    IndexedByBalance(wanted, order, a);
    IndexedByBalance(wanted, order, b);
    RepeatsIff(ByBalance(wanted, order), ProductId(), a, b);
  }

  /** And some page size misses a product wanted before and after exactly when it
      falls back to or before another that it was behind. */
  lemma BalancePagesMissIff(wanted: ProductRow -> bool, order: Direction, a: seq<ProductRow>, b: seq<ProductRow>, k: Uuid)
    requires Indexed(a) && Indexed(b)
    requires HoldsId(ByBalance(wanted, order), ProductId(), a, k) && HoldsId(ByBalance(wanted, order), ProductId(), b, k)
    ensures CanMiss(ByBalance(wanted, order), ProductId(), a, b, k)
       <==> FallsBehind(ByBalance(wanted, order), ProductId(), a, b, k)
  {
    IndexedByBalance(wanted, order, a);
    IndexedByBalance(wanted, order, b);
    MissesIff(ByBalance(wanted, order), ProductId(), a, b, k);
  }

  lemma SortOfOne<T>(x: T, leq: (T, T) -> bool)
    ensures Sort([x], leq) == [x]
  {
    assert [x][1..] == [];
  }

  /** Codes and numbers never change, balances do: a product whose balance rises
      between two pages sorted by balance is returned on both. */
  lemma BalancePagesMayRepeat() returns (q: Query<ProductRow, (int, string)>, tables: seq<seq<ProductRow>>)
    ensures q == ByBalance(_ => true, Ascendingly) && AllUnique(q, tables) && Finishes(q, tables, None, 1)
    ensures var read := Walk(q, tables, None, 1);
      |read| == 2 && read[0].id == read[1].id && read[0].balance < read[1].balance
  {
    q := ByBalance(_ => true, Ascendingly);
    var a, b, risen := ProductRow(1, "A", 1), ProductRow(2, "B", 2), ProductRow(1, "A", 3);
    tables := [[b, a], [risen]];
    FilterAll([b, a], Beyond(q, None));
    FilterAll([risen], Beyond(q, Some(q.key(a))));
    SortOfOne(a, Leq(q));
    SortOfOne(risen, Leq(q));
    assert [b, a][1..] == [a] && [a][1..] == [];
    assert !Leq(q)(b, a);
    assert Insert(b, [a], Leq(q)) == [a] + Insert(b, [], Leq(q)) == [a, b];
    assert Sort([b, a], Leq(q)) == [a, b];
    assert Select(q, [b, a], None) == [a, b];
    assert tables[1..] == [[risen]];
    var page := PageOf(q, tables[0], None, 1);
    assert page == Page([a], Some(q.key(a)));
    assert Walk(q, [[risen]], page.next, 1) == [risen];
  }

  // ---- The items of a page of invoices ---------------------------------------------------

  datatype ItemRow = ItemRow(invoice: Uuid, item: I.Item)

  predicate RowLeq(a: ItemRow, b: ItemRow) {
    StringLeq(a.item.code, b.item.code)
  }

  function ItemsFor(rows: seq<ItemRow>, invoice: Uuid): seq<I.Item> {
    if rows == [] then []
    else if rows[0].invoice == invoice then [rows[0].item] + ItemsFor(rows[1..], invoice)
    else ItemsFor(rows[1..], invoice)
  }

  /** The one query for every invoice on a page. */
  function ItemRowsOf(table: seq<ItemRow>, ids: seq<Uuid>): seq<ItemRow> {
    Sort(Filter(table, (r: ItemRow) => r.invoice in ids), RowLeq)
  }

  lemma {:induction false} ItemsForSnoc(rows: seq<ItemRow>, row: ItemRow, invoice: Uuid)
    ensures ItemsFor(rows + [row], invoice)
         == ItemsFor(rows, invoice) + if row.invoice == invoice then [row.item] else []
  {
    if rows == [] {
      assert rows + [row] == [row] && [row][1..] == [];
    } else {
      assert (rows + [row])[1..] == rows[1..] + [row];
      ItemsForSnoc(rows[1..], row, invoice);
    }
  }

  /** The items of an invoice are those of its own rows, each row once, in the order of
      the rows. */
  lemma {:induction false} ItemsForAreItsRows(rows: seq<ItemRow>, invoice: Uuid) returns (at: seq<nat>)
    ensures |at| == |ItemsFor(rows, invoice)|
    ensures forall k :: 0 <= k < |at| ==> at[k] < |rows| && rows[at[k]] == ItemRow(invoice, ItemsFor(rows, invoice)[k])
    ensures forall j, k :: 0 <= j < k < |at| ==> at[j] < at[k]
    ensures forall r: nat :: r < |rows| && rows[r].invoice == invoice ==> r in at
  {
    if rows == [] {
      at := [];
    } else {
      var before, last := rows[..|rows| - 1], rows[|rows| - 1];
      at := ItemsForAreItsRows(before, invoice);
      assert rows == before + [last];
      ItemsForSnoc(before, last, invoice);
      assert forall k :: 0 <= k < |at| ==> before[at[k]] == rows[at[k]];
      if last.invoice == invoice {
        at := at + [|before|];
      }
    }
  }

  /** Hands every row to the invoice it belongs to. */
  method AttachItems(ids: seq<Uuid>, rows: seq<ItemRow>) returns (attached: seq<seq<I.Item>>)
    requires forall i, j :: 0 <= i < j < |ids| ==> ids[i] != ids[j]
    ensures |attached| == |ids|
    ensures forall i :: 0 <= i < |ids| ==> attached[i] == ItemsFor(rows, ids[i])
  {
    var byID: map<Uuid, nat> := map[];
    for index := 0 to |ids|
      invariant forall id :: id in byID ==> byID[id] < index && ids[byID[id]] == id
      invariant forall i :: 0 <= i < index ==> ids[i] in byID
    {
      byID := byID[ids[index] := index];
    }
    attached := seq(|ids|, _ => []);
    for r := 0 to |rows|
      invariant |attached| == |ids|
      invariant forall i :: 0 <= i < |ids| ==> attached[i] == ItemsFor(rows[..r], ids[i])
    {
      assert rows[..r + 1] == rows[..r] + [rows[r]];
      forall i | 0 <= i < |ids| ensures ItemsFor(rows[..r + 1], ids[i])
        == attached[i] + if rows[r].invoice == ids[i] then [rows[r].item] else [] {
        ItemsForSnoc(rows[..r], rows[r], ids[i]);
      }
      if rows[r].invoice in byID {
        var position := byID[rows[r].invoice];
        attached := attached[position := attached[position] + [rows[r].item]];
      }
    }
    assert rows[..|rows|] == rows;
  }

  lemma {:induction false} ItemsForFiltered(table: seq<ItemRow>, p: ItemRow -> bool, invoice: Uuid)
    requires forall r :: r in table && r.invoice == invoice ==> p(r)
    ensures ItemsFor(Filter(table, p), invoice) == ItemsFor(table, invoice)
  {
    if table != [] {
      ItemsForFiltered(table[1..], p, invoice);
      if p(table[0]) {
        assert Filter(table, p)[1..] == Filter(table[1..], p);
      }
    }
  }

  lemma RowLeqIsTotalPreorder()
    ensures TotalPreorder(RowLeq)
  {
    forall a, b ensures RowLeq(a, b) || RowLeq(b, a) {
      StringLeqTotal(a.item.code, b.item.code);
    }
    forall a, b, c | RowLeq(a, b) && RowLeq(b, c) ensures RowLeq(a, c) {
      StringLeqTransitive(a.item.code, b.item.code, c.item.code);
    }
  }

  lemma {:induction false} FirstItem(rows: seq<ItemRow>, invoice: Uuid)
    requires ItemsFor(rows, invoice) != []
    ensures exists r :: r in rows && r.item == ItemsFor(rows, invoice)[0]
  {
    if rows[0].invoice == invoice {
      assert rows[0] in rows;
    } else {
      FirstItem(rows[1..], invoice);
    }
  }

  /** What comes before a sorted list comes before the items in it. */
  lemma LeastItem(x: ItemRow, s: seq<ItemRow>, invoice: Uuid)
    requires SortedBy(s, RowLeq) && s != [] && RowLeq(x, s[0]) && ItemsFor(s, invoice) != []
    ensures I.CodeLeq(x.item, ItemsFor(s, invoice)[0])
  {
    FirstItem(s, invoice);
    var r :| r in s && r.item == ItemsFor(s, invoice)[0];
    var i :| 0 <= i < |s| && s[i] == r;
    if i > 0 {
      assert RowLeq(s[0], s[i]);
      StringLeqTransitive(x.item.code, s[0].item.code, r.item.code);
    }
  }

  lemma {:induction false} ItemsForInserted(x: ItemRow, s: seq<ItemRow>, invoice: Uuid)
    requires SortedBy(s, RowLeq)
    ensures ItemsFor(Insert(x, s, RowLeq), invoice)
         == if x.invoice == invoice then Insert(x.item, ItemsFor(s, invoice), I.CodeLeq) else ItemsFor(s, invoice)
  {
    if s == [] || RowLeq(x, s[0]) {
      assert ([x] + s)[1..] == s;
      if s != [] && ItemsFor(s, invoice) != [] {
        LeastItem(x, s, invoice);
      }
    } else {
      ItemsForInserted(x, s[1..], invoice);
      var rest := Insert(x, s[1..], RowLeq);
      assert ([s[0]] + rest)[1..] == rest;
      if s[0].invoice == invoice {
        assert ItemsFor(s, invoice)[1..] == ItemsFor(s[1..], invoice);
      }
    }
  }

  lemma {:induction false} ItemsForSorted(s: seq<ItemRow>, invoice: Uuid)
    ensures ItemsFor(Sort(s, RowLeq), invoice) == Sort(ItemsFor(s, invoice), I.CodeLeq)
  {
    if s != [] {
      ItemsForSorted(s[1..], invoice);
      RowLeqIsTotalPreorder();
      SortIsSorted(s[1..], RowLeq);
      ItemsForInserted(s[0], Sort(s[1..], RowLeq), invoice);
      if s[0].invoice == invoice {
        assert ItemsFor(s, invoice)[1..] == ItemsFor(s[1..], invoice);
      }
    }
  }

  /** An invoice on a page gets the items, in the order, that reading it alone
      gives it. */
  lemma AttachedAsIfAlone(table: seq<ItemRow>, ids: seq<Uuid>, i: nat)
    requires i < |ids|
    ensures ItemsFor(ItemRowsOf(table, ids), ids[i]) == Sort(ItemsFor(table, ids[i]), I.CodeLeq)
  {
    var p := (r: ItemRow) => r.invoice in ids;
    ItemsForSorted(Filter(table, p), ids[i]);
    ItemsForFiltered(table, p, ids[i]);
  }
}
