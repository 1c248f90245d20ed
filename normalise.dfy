/**
 * How the shim turns the store's reply into what its caller receives: a row
 * or `null`, a list, a count or a thrown error. The lemmas at the end relate
 * each normaliser, applied to the reply the store model gives, to the rows
 * the query admits.
 */
module Normalise {
  import opened Wrappers
  import opened Values
  import opened Builder
  import opened Store

  /** What an operation of the shim does: return a value, or throw the store's error. */
  datatype Outcome<+T> = Returned(value: T) | Thrown(error: StoreError)

  /** A store error other than the no-rows sentinel. */
  predicate Hard(error: Option<StoreError>) {
    error.Some? && error.value.code != NoRowsCode
  }

  /** Single-row lookups: `if (error && error.code !== 'PGRST116') throw error; return data`. */
  function ReadOne(reply: RowReply): (r: Outcome<Option<Row>>)
    ensures r.Thrown? <==> Hard(reply.error)
    ensures r.Thrown? ==> r.error == reply.error.value
    ensures r.Returned? ==> r.value == reply.data
  {
    if Hard(reply.error) then Thrown(reply.error.value) else Returned(reply.data)
  }

  /** Single-row mutations: `if (error) throw error; return data` — the sentinel is thrown too. */
  function WriteOne(reply: RowReply): (r: Outcome<Option<Row>>)
    ensures r.Thrown? <==> reply.error.Some?
    ensures r.Thrown? ==> r.error == reply.error.value
    ensures r.Returned? ==> r.value == reply.data
  {
    if reply.error.Some? then Thrown(reply.error.value) else Returned(reply.data)
  }

  /** `findFirst`: `if (error) throw error; return data?.[0] || null`; a row object is always truthy. */
  function FirstOrNull(reply: RowsReply): (r: Outcome<Option<Row>>)
    ensures r.Thrown? <==> reply.error.Some?
    ensures r.Thrown? ==> r.error == reply.error.value
    ensures r == Returned(None) <==> reply.error.None? && (reply.data.None? || reply.data.value == [])
    ensures r.Returned? && r.value.Some? ==> reply.data.Some? && r.value.value == reply.data.value[0]
  {
    if reply.error.Some? then Thrown(reply.error.value)
    else if reply.data.Some? && |reply.data.value| > 0 then Returned(Some(reply.data.value[0]))
    else Returned(None)
  }

  /** `findMany`: `if (error) throw error; return data || []`. */
  function ListOrEmpty(reply: RowsReply): (r: Outcome<seq<Row>>)
    ensures r.Thrown? <==> reply.error.Some?
    ensures r.Thrown? ==> r.error == reply.error.value
    ensures r.Returned? ==> r.value == reply.data.GetOr([])
  {
    if reply.error.Some? then Thrown(reply.error.value)
    else if reply.data.Some? then Returned(reply.data.value)
    else Returned([])
  }

  /** Bulk mutations: `if (error) throw error; return { count: data?.length || 0 }`. */
  function CountOf(reply: RowsReply): (r: Outcome<nat>)
    ensures r.Thrown? <==> reply.error.Some?
    ensures r.Thrown? ==> r.error == reply.error.value
    ensures r.Returned? ==> r.value == |reply.data.GetOr([])|
  {
    if reply.error.Some? then Thrown(reply.error.value)
    else Returned(if reply.data.Some? && |reply.data.value| != 0 then |reply.data.value| else 0)
  }

  /** `count`: `if (error) throw error; return count || 0`. */
  function CountOrZero(reply: CountReply): (r: Outcome<int>)
    ensures r.Thrown? <==> reply.error.Some?
    ensures r.Thrown? ==> r.error == reply.error.value
    ensures r.Returned? ==> r.value == reply.count.GetOr(0)
  {
    if reply.error.Some? then Thrown(reply.error.value)
    else if reply.count.Some? && reply.count.value != 0 then Returned(reply.count.value)
    else Returned(0)
  }

  /** `delete`: `if (error) throw error; return key` — the reply's rows are not looked at. */
  function Acknowledge<T>(reply: RowsReply, key: T): (r: Outcome<T>)
    ensures r.Thrown? <==> reply.error.Some?
    ensures r.Thrown? ==> r.error == reply.error.value
    ensures r.Returned? ==> r.value == key
  {
    if reply.error.Some? then Thrown(reply.error.value) else Returned(key)
  }

  // ---------------------------------------------------------------------
  // Normalised outcomes of the store model's replies
  // ---------------------------------------------------------------------

  /** A read chain: it starts with a select call and does not mutate. */
  predicate IsRead(chain: seq<Op>) {
    |chain| > 0 && chain[0].Select?
  }

  /**
   * A single-row lookup never throws; it returns the row when exactly one row
   * matches and `null` when none does (and also when several do, since the
   * store reports both with the same code).
   */
  lemma LookupOutcome(db: Db, q: Query)
    requires IsRead(q.chain) && EndsSingle(q.chain) && Unwindowed(q.chain)
    ensures var m := Matching(Table(db, q.table), q.chain);
            ReadOne(RunSingle(db, q)) == Returned(if |m| == 1 then Some(m[0]) else None)
  {
    var m := Matching(Table(db, q.table), q.chain);
    WindowFromUnwindowed(Unbounded, q.chain);
    var o := Ordered(m, q.chain);
    OrderedCount(m, q.chain);
    assert Produced(Table(db, q.table), q.chain) == o;
    if |m| == 1 {
      assert o[0] in multiset(m);
      assert m == [m[0]];
    }
  }

  /**
   * `update(...).select().single()`: with exactly one match it returns that row
   * patched and patches it in the collection; otherwise (none, or several) it
   * throws the no-rows error, and the collection is left as it was.
   */
  lemma UpdateOneOutcome(db: Db, q: Query)
    requires |q.chain| > 0 && q.chain[0].Update? && EndsSingle(q.chain)
    ensures var m := Matching(Table(db, q.table), q.chain);
            var patch := q.chain[0].patch;
            WriteOne(RunSingle(db, q)) == (if |m| == 1 then Returned(Some(m[0] + patch)) else Thrown(NoRows)) &&
            Apply(db, q) == (if |m| == 1 then db[q.table := PatchWhere(Table(db, q.table), q.chain, patch)] else db)
  {
  }

  /** `insert(data).select().single()` returns the row it inserted, appended to the collection. */
  lemma CreateOutcome(db: Db, table: string, data: Row)
    ensures var q := Query(table, [Insert([data]), Select(Wildcard), Single]);
            WriteOne(RunSingle(db, q)) == Returned(Some(data)) && Apply(db, q) == db[table := Table(db, table) + [data]]
  {
  }

  /** A delete keeps exactly the rows its filters do not admit. */
  lemma DeleteOutcome(db: Db, q: Query)
    requires |q.chain| > 0 && q.chain[0].Delete? && !EndsSingle(q.chain)
    ensures forall x :: x in Table(Apply(db, q), q.table) <==> x in Table(db, q.table) && !Admits(q.chain, x)
  {
  }

  /** The first row of the ordered matches is extreme for the order's key. */
  lemma FirstIsExtreme(rows: seq<Row>, field: string, ascending: bool)
    requires rows != []
    ensures var s := SortRows(rows, field, ascending);
            s[0] in rows && forall x :: x in rows ==> Key(s[0], field, ascending) <= Key(x, field, ascending)
  {
    var s := SortRows(rows, field, ascending);
    assert |multiset(s)| == |multiset(rows)|;
    assert s[0] in multiset(rows);
    forall x | x in rows ensures Key(s[0], field, ascending) <= Key(x, field, ascending) {
      assert x in multiset(s);
      var k :| 0 <= k < |s| && s[k] == x;
    }
  }

  /**
   * `... .limit(1)` with `data?.[0] || null`: `null` exactly when nothing matches,
   * otherwise the first of the ordered matches.
   */
  lemma FirstOutcome(db: Db, pre: seq<Op>, table: string)
    requires IsRead(pre) && Unwindowed(pre)
    ensures var m := Matching(Table(db, table), pre);
            FirstOrNull(RunRows(db, Query(table, pre + [Limit(1)]))) ==
              Returned(if m == [] then None else Some(Ordered(m, pre)[0]))
  {
    var chain := pre + [Limit(1)];
    var rows := Table(db, table);
    var m := Matching(rows, pre);
    var s := Ordered(m, pre);
    LimitOneRows(rows, pre);
    assert chain[0] == pre[0];
    RunRowsRead(db, Query(table, chain));
    OrderedCount(m, pre);
  }

  /** Helper for `FirstOutcome`: a trailing `limit(1)` keeps at most the first ordered match. */
  lemma LimitOneRows(rows: seq<Row>, pre: seq<Op>)
    requires Unwindowed(pre)
    ensures ReadRows(rows, pre + [Limit(1)]) == Page(Ordered(Matching(rows, pre), pre), Window(0, Some(1)))
  {
    forall x ensures Admits([Limit(1)], x) { assert Holds(Limit(1), x); }
    assert OrderOf([Limit(1)]) == None;
    ExtendRead(rows, pre, [Limit(1)]);
    WindowFromAppend(Unbounded, pre, [Limit(1)]);
    WindowFromUnwindowed(Unbounded, pre);
  }

  /** `updateMany` and `deleteMany` report the number of rows they touched; none is `{count: 0}`, not an error. */
  lemma CountAffected(db: Db, q: Query)
    requires |q.chain| > 0 && (q.chain[0].Update? || q.chain[0].Delete?) && Select(Wildcard) in q.chain
    ensures CountOf(RunRows(db, q)) == Returned(|Matching(Table(db, q.table), q.chain)|)
  {
  }

  /** `createMany` reports the number of rows it inserted. */
  lemma CountInserted(db: Db, table: string, rows: seq<Row>)
    ensures CountOf(RunRows(db, Query(table, [Insert(rows), Select(Wildcard)]))) == Returned(|rows|)
  {
  }

  /** `count` reports the number of admitted rows. */
  lemma CountHead(db: Db, q: Query)
    ensures CountOrZero(RunCount(db, q)) == Returned(|Matching(Table(db, q.table), q.chain)|)
  {
  }

  /**
   * Pagination: after a chain without window calls, `Paginate(take, skip)` returns
   * the page `PageWindow(take, skip)` of the ordered matches.
   */
  lemma PagedList(db: Db, table: string, pre: seq<Op>, take: Option<int>, skip: Option<int>)
    requires IsRead(pre) && Unwindowed(pre)
    ensures var s := Ordered(Matching(Table(db, table), pre), pre);
            ListOrEmpty(RunRows(db, Query(table, pre + Paginate(take, skip))))
              == Returned(Page(s, PageWindow(take, skip)))
  {
    var chain := pre + Paginate(take, skip);
    var rows := Table(db, table);
    forall x ensures Admits(Paginate(take, skip), x) { PaginateAdmitsAll(take, skip, x); }
    PaginateOrderless(take, skip);
    ExtendRead(rows, pre, Paginate(take, skip));
    PaginateWindow(pre, take, skip);
    assert chain[0] == pre[0];
    RunRowsRead(db, Query(table, chain));
  }

  /** The two pagination examples: take 10 and skip 20 give rows 20..29; skip 20 alone gives rows 20..119. */
  lemma PaginationExamples(s: seq<Row>)
    ensures |s| >= 30 ==> Page(s, PageWindow(Some(10), Some(20))) == s[20..30]
    ensures |s| >= 120 ==> Page(s, PageWindow(None, Some(20))) == s[20..120]
    ensures Page(s, PageWindow(Some(10), None)) == s[..if |s| < 10 then |s| else 10]
  {
    PageSlice(s, 20, 10);
    PageSlice(s, 20, 100);
    PageSlice(s, 0, 10);
  }

  /** The first order call of a chain decides the order, whatever follows it. */
  lemma OrderedByFirst(rows: seq<Row>, pre: seq<Op>, o: Obj, post: seq<Op>)
    requires OrderOf(pre).None? && o != []
    ensures Ordered(rows, pre + OrderBy(Some(o)) + post) == SortRows(rows, o[0].0, o[0].1 != Str("desc"))
  {
    OrderOfAppend(pre, OrderBy(Some(o)));
    OrderOfAppend(pre + OrderBy(Some(o)), post);
  }

  // Helper for `OrderByRule`.
  /** Any window of sorted rows is sorted. */
  lemma PageSorted(rows: seq<Row>, w: Window, field: string, ascending: bool)
    requires SortedBy(rows, field, ascending)
    ensures SortedBy(Page(rows, w), field, ascending)
  {
    var lo := Clamp(w.offset, 0, |rows|);
    var hi := if w.limit.None? then |rows| else Clamp(w.offset + w.limit.value, lo, |rows|);
    SortedSlice(rows, field, ascending, lo, hi);
  }

  /**
   * Ordering: the returned rows are sorted on the first `orderBy` key,
   * descending exactly when its value is `'desc'`, whatever follows in the chain.
   */
  lemma OrderByRule(db: Db, table: string, pre: seq<Op>, o: Obj, post: seq<Op>)
    requires IsRead(pre) && OrderOf(pre).None? && o != []
    ensures var r := ListOrEmpty(RunRows(db, Query(table, pre + OrderBy(Some(o)) + post)));
            r.Returned? && SortedBy(r.value, o[0].0, o[0].1 != Str("desc"))
  {
    var chain := pre + OrderBy(Some(o)) + post;
    var m := Matching(Table(db, table), chain);
    OrderedByFirst(m, pre, o, post);
    PageSorted(Ordered(m, chain), WindowOf(chain), o[0].0, o[0].1 != Str("desc"));
    assert chain[0] == pre[0];
    RunRowsRead(db, Query(table, chain));
  }
}
