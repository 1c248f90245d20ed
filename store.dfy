/**
 * A model of the remote tabular store the shim talks to: how it answers a
 * chain of builder calls over in-memory collections. The shim itself never
 * sees the rows; this module gives its queries a meaning, so that what the
 * shim builds can be related to what a caller gets back.
 */
module Store {
  import opened Wrappers
  import opened Values
  import opened Builder

  /** An error reported by the store, with its machine-readable code. */
  datatype StoreError = StoreError(code: string, message: string)

  /** The code the store uses when a single-row request matched zero or several rows. */
  const NoRowsCode: string := "PGRST116"

  const NoRows: StoreError := StoreError(NoRowsCode, "JSON object requested, multiple (or no) rows returned")

  /** Reply to a chain ending in `.single()`. */
  datatype RowReply = RowReply(data: Option<Row>, error: Option<StoreError>)

  /** Reply to a chain awaited as a list. */
  datatype RowsReply = RowsReply(data: Option<seq<Row>>, error: Option<StoreError>)

  /** Reply to a `head` count request. */
  datatype CountReply = CountReply(count: Option<int>, error: Option<StoreError>)

  /** The collections of the store, by name. */
  type Db = map<string, seq<Row>>

  function Table(db: Db, name: string): seq<Row> {
    if name in db then db[name] else []
  }

  // ---------------------------------------------------------------------
  // Filters
  // ---------------------------------------------------------------------

  /** Whether a row passes one call of the chain; calls that are not filters pass every row. */
  predicate Holds(op: Op, row: Row) {
    var cell := if op.Eq? || op.In? || op.Gt? || op.Gte? || op.Lt? || op.Lte? || op.IsNull?
                then Column(row, op.column) else Null;
    match op
    case Eq(_, v) => v != Null && cell == v          // SQL: `= NULL` is never true
    case In(_, vs) => cell != Null && cell in vs
    case Gt(_, b) => cell.Time? && cell.t > b
    case Gte(_, b) => cell.Time? && cell.t >= b
    case Lt(_, b) => cell.Time? && cell.t < b
    case Lte(_, b) => cell.Time? && cell.t <= b
    case IsNull(_) => cell == Null
    case _ => true
  }

  /** A row is admitted when it passes every filter of the chain: filters combine by conjunction. */
  predicate Admits(chain: seq<Op>, row: Row) {
    forall i :: 0 <= i < |chain| ==> Holds(chain[i], row)
  }

  lemma AdmitsAppend(a: seq<Op>, b: seq<Op>, row: Row)
    ensures Admits(a + b, row) <==> Admits(a, row) && Admits(b, row)
  {
    if Admits(a, row) && Admits(b, row) {
      forall i | 0 <= i < |a + b| ensures Holds((a + b)[i], row) {
        if i >= |a| { assert (a + b)[i] == b[i - |a|]; }
      }
    }
    if Admits(a + b, row) {
      forall i | 0 <= i < |a| ensures Holds(a[i], row) {
        assert (a + b)[i] == a[i];
      }
      forall i | 0 <= i < |b| ensures Holds(b[i], row) {
        assert (a + b)[|a| + i] == b[i];
      }
    }
  }

  /** The rows of `rows` that the chain admits, in stored order. */
  function Matching(rows: seq<Row>, chain: seq<Op>): (r: seq<Row>)
    ensures |r| <= |rows|
    ensures forall x :: x in r <==> x in rows && Admits(chain, x)
    ensures multiset(r) <= multiset(rows)
  {
    if rows == [] then []
    else
      assert rows == [rows[0]] + rows[1..];
      (if Admits(chain, rows[0]) then [rows[0]] else []) + Matching(rows[1..], chain)
  }

  // ---------------------------------------------------------------------
  // Ordering
  // ---------------------------------------------------------------------

  /** The sort key of a cell: numbers and instants by value; every other value ties at 0. */
  function Rank(v: Value): int {
    match v
    case Num(n) => n
    case Time(t) => t
    case _ => 0
  }

  function Key(row: Row, field: string, ascending: bool): int {
    if ascending then Rank(Column(row, field)) else -Rank(Column(row, field))
  }

  predicate SortedBy(rows: seq<Row>, field: string, ascending: bool) {
    forall i, j :: 0 <= i < j < |rows| ==> Key(rows[i], field, ascending) <= Key(rows[j], field, ascending)
  }

  function InsertByKey(x: Row, rows: seq<Row>, field: string, ascending: bool): seq<Row> {
    if rows == [] then [x]
    else if Key(x, field, ascending) <= Key(rows[0], field, ascending) then [x] + rows
    else [rows[0]] + InsertByKey(x, rows[1..], field, ascending)
  }

  lemma {:induction false} InsertByKeyCount(x: Row, rows: seq<Row>, field: string, ascending: bool)
    ensures multiset(InsertByKey(x, rows, field, ascending)) == multiset(rows) + multiset{x}
  {
    if rows != [] && Key(x, field, ascending) > Key(rows[0], field, ascending) {
      InsertByKeyCount(x, rows[1..], field, ascending);
      assert rows == [rows[0]] + rows[1..];
    }
  }

  lemma {:induction false} InsertByKeyBound(x: Row, rows: seq<Row>, field: string, ascending: bool, low: int)
    requires low <= Key(x, field, ascending)
    requires forall i :: 0 <= i < |rows| ==> low <= Key(rows[i], field, ascending)
    ensures forall i :: 0 <= i < |InsertByKey(x, rows, field, ascending)| ==>
      low <= Key(InsertByKey(x, rows, field, ascending)[i], field, ascending)
  {
    if rows != [] && Key(x, field, ascending) > Key(rows[0], field, ascending) {
      InsertByKeyBound(x, rows[1..], field, ascending, low);
    }
  }

  /** Inserting into a sorted list keeps it sorted. */
  lemma {:induction false} InsertByKeySorted(x: Row, rows: seq<Row>, field: string, ascending: bool)
    requires SortedBy(rows, field, ascending)
    ensures SortedBy(InsertByKey(x, rows, field, ascending), field, ascending)
  {
    if rows != [] && Key(x, field, ascending) > Key(rows[0], field, ascending) {
      var tail := InsertByKey(x, rows[1..], field, ascending);
      InsertByKeySorted(x, rows[1..], field, ascending);
      InsertByKeyBound(x, rows[1..], field, ascending, Key(rows[0], field, ascending));
      var r := [rows[0]] + tail;
      assert forall j :: 0 < j < |r| ==> r[j] == tail[j - 1];
    }
  }

  /** The rows reordered by the key of `field`, ascending or descending. */
  function SortRows(rows: seq<Row>, field: string, ascending: bool): (r: seq<Row>)
    ensures SortedBy(r, field, ascending)
    ensures multiset(r) == multiset(rows)
  {
    if rows == [] then []
    else
      var tail := SortRows(rows[1..], field, ascending);
      InsertByKeySorted(rows[0], tail, field, ascending);
      InsertByKeyCount(rows[0], tail, field, ascending);
      assert rows == [rows[0]] + rows[1..];
      InsertByKey(rows[0], tail, field, ascending)
  }

  /** The order directive of a chain: its first `order` call. */
  function OrderOf(chain: seq<Op>): Option<Op> {
    if chain == [] then None
    else if chain[0].Order? then Some(chain[0])
    else OrderOf(chain[1..])
  }

  lemma {:induction false} OrderOfAppend(a: seq<Op>, b: seq<Op>)
    ensures OrderOf(a + b) == if OrderOf(a).Some? then OrderOf(a) else OrderOf(b)
  {
    if a != [] {
      assert (a + b)[0] == a[0] && (a + b)[1..] == a[1..] + b;
      OrderOfAppend(a[1..], b);
    } else {
      assert a + b == b;
    }
  }

  lemma {:induction false} OrderOfIsOrder(chain: seq<Op>)
    ensures OrderOf(chain).Some? ==> OrderOf(chain).value.Order?
  {
    if chain != [] { OrderOfIsOrder(chain[1..]); }
  }

  function Ordered(rows: seq<Row>, chain: seq<Op>): seq<Row> {
    var o := OrderOf(chain);
    if o.Some? && o.value.Order? && o.value.field.Some?
    then SortRows(rows, o.value.field.value, o.value.ascending)
    else rows
  }

  // ---------------------------------------------------------------------
  // Window: limit(n) sets the row limit; range(from, to) sets the offset to
  // `from` and the limit to `to - from + 1`. A later call overrides.
  // ---------------------------------------------------------------------

  datatype Window = Window(offset: int, limit: Option<int>)

  function WindowAfter(w: Window, op: Op): Window {
    match op
    case Limit(n) => w.(limit := Some(n))
    case Range(f, t) => Window(f, Some(t - f + 1))
    case _ => w
  }

  /** The window after applying the calls of `chain`, in order, to `w`. */
  function WindowFrom(w: Window, chain: seq<Op>): Window
    decreases |chain|
  {
    if chain == [] then w else WindowFrom(WindowAfter(w, chain[0]), chain[1..])
  }

  /** No window is requested: every row is returned. */
  const Unbounded: Window := Window(0, None)

  function WindowOf(chain: seq<Op>): Window {
    WindowFrom(Unbounded, chain)
  }

  /** The chain makes no `limit` or `range` call. */
  predicate Unwindowed(chain: seq<Op>) {
    forall i :: 0 <= i < |chain| ==> !chain[i].Limit? && !chain[i].Range?
  }

  lemma UnwindowedAppend(a: seq<Op>, b: seq<Op>)
    ensures Unwindowed(a + b) <==> Unwindowed(a) && Unwindowed(b)
  {
    if Unwindowed(a + b) {
      forall i | 0 <= i < |a| ensures !a[i].Limit? && !a[i].Range? { assert (a + b)[i] == a[i]; }
      forall i | 0 <= i < |b| ensures !b[i].Limit? && !b[i].Range? { assert (a + b)[|a| + i] == b[i]; }
    }
  }

  lemma {:induction false} WindowFromAppend(w: Window, a: seq<Op>, b: seq<Op>)
    ensures WindowFrom(w, a + b) == WindowFrom(WindowFrom(w, a), b)
    decreases |a|
  {
    if a == [] {
      assert a + b == b;
    } else {
      assert (a + b)[0] == a[0] && (a + b)[1..] == a[1..] + b;
      WindowFromAppend(WindowAfter(w, a[0]), a[1..], b);
    }
  }

  lemma {:induction false} WindowFromUnwindowed(w: Window, chain: seq<Op>)
    requires Unwindowed(chain)
    ensures WindowFrom(w, chain) == w
    decreases |chain|
  {
    if chain != [] {
      assert WindowAfter(w, chain[0]) == w;
      WindowFromUnwindowed(w, chain[1..]);
    }
  }

  function Clamp(x: int, lo: int, hi: int): int
    requires lo <= hi
  {
    if x < lo then lo else if x > hi then hi else x
  }

  /** The window's slice of `rows`. */
  function Page(rows: seq<Row>, w: Window): seq<Row> {
    var lo := Clamp(w.offset, 0, |rows|);
    var hi := if w.limit.None? then |rows| else Clamp(w.offset + w.limit.value, lo, |rows|);
    rows[lo..hi]
  }

  lemma OrderedCount(rows: seq<Row>, chain: seq<Op>)
    ensures multiset(Ordered(rows, chain)) == multiset(rows)
    ensures |Ordered(rows, chain)| == |rows|
  {
    assert |multiset(Ordered(rows, chain))| == |Ordered(rows, chain)|;
  }

  /** Two chains that admit the same rows select the same rows. */
  lemma {:induction false} MatchingSame(rows: seq<Row>, a: seq<Op>, b: seq<Op>)
    requires forall x :: Admits(a, x) <==> Admits(b, x)
    ensures Matching(rows, a) == Matching(rows, b)
  {
    if rows != [] { MatchingSame(rows[1..], a, b); }
  }

  /** A chain that admits none of the rows matches nothing. */
  lemma {:induction false} MatchingNone(rows: seq<Row>, chain: seq<Op>)
    requires forall x :: x in rows ==> !Admits(chain, x)
    ensures Matching(rows, chain) == []
  {
    if rows != [] {
      assert rows[0] in rows;
      MatchingNone(rows[1..], chain);
    }
  }

  /** A chain that admits fewer rows matches fewer rows. */
  lemma {:induction false} MatchingMonotone(rows: seq<Row>, a: seq<Op>, b: seq<Op>)
    requires forall x :: Admits(a, x) ==> Admits(b, x)
    ensures multiset(Matching(rows, a)) <= multiset(Matching(rows, b))
    ensures |Matching(rows, a)| <= |Matching(rows, b)|
  {
    if rows != [] {
      MatchingMonotone(rows[1..], a, b);
    }
    assert |multiset(Matching(rows, a))| <= |multiset(Matching(rows, b))|;
  }

  lemma SortedSlice(rows: seq<Row>, field: string, ascending: bool, lo: int, hi: int)
    requires SortedBy(rows, field, ascending) && 0 <= lo <= hi <= |rows|
    ensures SortedBy(rows[lo..hi], field, ascending)
  {
    var s := rows[lo..hi];
    forall i, j | 0 <= i < j < |s| ensures Key(s[i], field, ascending) <= Key(s[j], field, ascending) {
      assert s[i] == rows[lo + i] && s[j] == rows[lo + j];
    }
  }

  /** A window with a non-negative offset and limit returns the rows from `offset` on, at most `limit` of them. */
  lemma PageSlice(rows: seq<Row>, offset: int, limit: int)
    requires 0 <= offset && 0 <= limit
    ensures var lo := if offset < |rows| then offset else |rows|;
            var hi := if offset + limit < |rows| then offset + limit else |rows|;
            Page(rows, Window(offset, Some(limit))) == rows[lo..hi]
    ensures forall i :: 0 <= i < |Page(rows, Window(offset, Some(limit)))| ==>
              Page(rows, Window(offset, Some(limit)))[i] == rows[offset + i]
  {
  }

  /** Appending calls that neither filter nor order leaves the ordered matches unchanged. */
  lemma ExtendRead(rows: seq<Row>, pre: seq<Op>, post: seq<Op>)
    requires forall x :: Admits(post, x)
    requires OrderOf(post).None?
    ensures Ordered(Matching(rows, pre + post), pre + post) == Ordered(Matching(rows, pre), pre)
  {
    forall x ensures Admits(pre + post, x) <==> Admits(pre, x) { AdmitsAppend(pre, post, x); }
    MatchingSame(rows, pre + post, pre);
    OrderOfAppend(pre, post);
  }

  /** What a read chain returns: the admitted rows, ordered, then windowed. */
  function ReadRows(rows: seq<Row>, chain: seq<Op>): seq<Row> {
    Page(Ordered(Matching(rows, chain), chain), WindowOf(chain))
  }

  /** The window that `Paginate(take, skip)` requests after a chain without window calls. */
  function PageWindow(take: Option<int>, skip: Option<int>): Window {
    if TruthyInt(skip) then Window(skip.value, Some(IntOr(take, FallbackPageSize)))
    else if TruthyInt(take) then Window(0, Some(take.value))
    else Unbounded
  }

  /** `range` overrides an earlier `limit`: the page is `skip .. skip + (take || 100) - 1`. */
  lemma PaginateWindow(pre: seq<Op>, take: Option<int>, skip: Option<int>)
    requires Unwindowed(pre)
    ensures WindowOf(pre + Paginate(take, skip)) == PageWindow(take, skip)
  {
    var p := Paginate(take, skip);
    WindowFromAppend(Unbounded, pre, p);
    WindowFromUnwindowed(Unbounded, pre);
    if p != [] {
      var w1 := WindowAfter(Unbounded, p[0]);
      assert WindowFrom(Unbounded, p) == WindowFrom(w1, p[1..]);
      if |p| == 2 {
        assert WindowFrom(w1, p[1..]) == WindowFrom(WindowAfter(w1, p[1]), []);
      }
    }
  }

  /** The pagination calls set no order. */
  lemma PaginateOrderless(take: Option<int>, skip: Option<int>)
    ensures OrderOf(Paginate(take, skip)) == None
  {
    var a := if TruthyInt(take) then [Limit(take.value)] else [];
    var b := if TruthyInt(skip) then [Range(skip.value, skip.value + IntOr(take, FallbackPageSize) - 1)] else [];
    assert Paginate(take, skip) == a + b;
    OrderOfAppend(a, b);
    if a != [] { assert a[1..] == []; }
    if b != [] { assert b[1..] == []; }
  }

  /** The pagination calls filter nothing. */
  lemma PaginateAdmitsAll(take: Option<int>, skip: Option<int>, row: Row)
    ensures Admits(Paginate(take, skip), row)
  {
  }

  /** In the store model, an equality filter on `undefined` admits no stored row. */
  lemma EqUndefinedAdmitsNothing(chain: seq<Op>, column: string, row: Row)
    requires Eq(column, Undefined) in chain && StoredRow(row)
    ensures !Admits(chain, row)
  {
    var i :| 0 <= i < |chain| && chain[i] == Eq(column, Undefined);
    assert !Holds(chain[i], row);
  }

  // ---------------------------------------------------------------------
  // What the conditional filters admit
  // ---------------------------------------------------------------------

  /** The row carries `v` in `column`, when `v` is truthy. */
  predicate AgreesWhen(row: Row, column: string, v: Value) {
    Truthy(v) ==> Column(row, column) == v
  }

  /** The row carries `v` in `column`, unless `v` is `undefined`; `null` matches no row. */
  predicate AgreesUnlessUndefined(row: Row, column: string, v: Value) {
    v != Undefined ==> v != Null && Column(row, column) == v
  }

  /** The instant in `column` lies strictly after the bound, when there is one. */
  predicate After(row: Row, column: string, bound: Option<int>) {
    bound.Some? ==> Column(row, column).Time? && Column(row, column).t > bound.value
  }

  predicate AtOrAfter(row: Row, column: string, bound: Option<int>) {
    bound.Some? ==> Column(row, column).Time? && Column(row, column).t >= bound.value
  }

  predicate Before(row: Row, column: string, bound: Option<int>) {
    bound.Some? ==> Column(row, column).Time? && Column(row, column).t < bound.value
  }

  predicate AtOrBefore(row: Row, column: string, bound: Option<int>) {
    bound.Some? ==> Column(row, column).Time? && Column(row, column).t <= bound.value
  }

  /** The row's value in `column` is one of `values`, when a list is given; `null` is never in a list. */
  predicate WithinWhen(row: Row, column: string, values: Option<seq<Value>>) {
    values.Some? ==> Column(row, column) != Null && Column(row, column) in values.value
  }

  /** The row has no value in `column`, when `v` is `null`. */
  predicate NullWhen(row: Row, column: string, v: Value) {
    v == Null ==> Column(row, column) == Null
  }

  lemma AdmitsEqWhen(column: string, v: Value, row: Row)
    ensures Admits(EqWhen(column, v), row) <==> AgreesWhen(row, column, v)
  {
    if Truthy(v) { assert EqWhen(column, v)[0] == Eq(column, v); }
  }

  lemma AdmitsEqUnlessUndefined(column: string, v: Value, row: Row)
    ensures Admits(EqUnlessUndefined(column, v), row) <==> AgreesUnlessUndefined(row, column, v)
  {
    if v != Undefined { assert EqUnlessUndefined(column, v)[0] == Eq(column, v); }
  }

  lemma AdmitsSingleton(op: Op, row: Row)
    ensures Admits([op], row) <==> Holds(op, row)
  {
    assert [op][0] == op;
  }

  lemma AdmitsInWhen(column: string, values: Option<seq<Value>>, row: Row)
    ensures Admits(InWhen(column, values), row) <==> WithinWhen(row, column, values)
  {
    if values.Some? { assert InWhen(column, values)[0] == In(column, values.value); }
  }

  lemma AdmitsIsNullWhen(column: string, v: Value, row: Row)
    ensures Admits(IsNullWhen(column, v), row) <==> NullWhen(row, column, v)
  {
    if v == Null { assert IsNullWhen(column, v)[0] == IsNull(column); }
  }

  lemma AdmitsBounds(column: string, bound: Option<int>, row: Row)
    ensures Admits(GtWhen(column, bound), row) <==> After(row, column, bound)
    ensures Admits(GteWhen(column, bound), row) <==> AtOrAfter(row, column, bound)
    ensures Admits(LtWhen(column, bound), row) <==> Before(row, column, bound)
    ensures Admits(LteWhen(column, bound), row) <==> AtOrBefore(row, column, bound)
  {
    if bound.Some? {
      assert GtWhen(column, bound)[0] == Gt(column, bound.value);
      assert GteWhen(column, bound)[0] == Gte(column, bound.value);
      assert LtWhen(column, bound)[0] == Lt(column, bound.value);
      assert LteWhen(column, bound)[0] == Lte(column, bound.value);
    }
  }

  /** Ordering never filters. */
  lemma AdmitsOrderBy(orderBy: Option<Obj>, row: Row)
    ensures Admits(OrderBy(orderBy), row)
  {
    if orderBy.Some? { AdmitsSingleton(OrderBy(orderBy)[0], row); }
  }

  /** AdmitsAppend for every split at once, so that a chain built from several pieces can be taken apart piece by piece. */
  lemma AdmitsAppendAll()
    ensures forall a: seq<Op>, b: seq<Op>, row: Row {:trigger Admits(a + b, row)} ::
      Admits(a + b, row) <==> Admits(a, row) && Admits(b, row)
  {
    forall a: seq<Op>, b: seq<Op>, row: Row ensures Admits(a + b, row) <==> Admits(a, row) && Admits(b, row) {
      AdmitsAppend(a, b, row);
    }
  }

  /** A chain admits every row when none of its calls is a filter. */
  predicate FilterFree(chain: seq<Op>) {
    forall i :: 0 <= i < |chain| ==>
      !chain[i].Eq? && !chain[i].In? && !chain[i].Gt? && !chain[i].Gte? &&
      !chain[i].Lt? && !chain[i].Lte? && !chain[i].IsNull?
  }

  lemma FilterFreeAdmits(chain: seq<Op>, row: Row)
    requires FilterFree(chain)
    ensures Admits(chain, row)
  {
    forall i | 0 <= i < |chain| ensures Holds(chain[i], row) {
      match chain[i]
      case _ =>
    }
  }

  // ---------------------------------------------------------------------
  // Executing a query
  // ---------------------------------------------------------------------

  predicate HasOp(chain: seq<Op>, op: Op) {
    op in chain
  }

  predicate EndsSingle(chain: seq<Op>) {
    |chain| > 0 && chain[|chain| - 1] == Single
  }

  /** The rows a chain produces: read rows for a select, affected rows for a mutation. */
  function Produced(rows: seq<Row>, chain: seq<Op>): seq<Row> {
    if chain == [] then []
    else match chain[0]
      case Insert(new_) => new_
      case Update(patch) => Patched(Matching(rows, chain), patch)
      case Delete => Matching(rows, chain)
      case _ => ReadRows(rows, chain)
  }

  function Patched(rows: seq<Row>, patch: Row): (r: seq<Row>)
    ensures |r| == |rows|
    ensures forall i :: 0 <= i < |rows| ==> r[i] == rows[i] + patch
  {
    if rows == [] then [] else [rows[0] + patch] + Patched(rows[1..], patch)
  }

  predicate IsMutation(chain: seq<Op>) {
    |chain| > 0 && (chain[0].Insert? || chain[0].Update? || chain[0].Delete?)
  }

  /** The reply to a chain awaited as a list; a mutation returns rows only when `.select()` follows. */
  function RunRows(db: Db, q: Query): RowsReply {
    var rows := Produced(Table(db, q.table), q.chain);
    if IsMutation(q.chain) && Select(Wildcard) !in q.chain then RowsReply(None, None)
    else RowsReply(Some(rows), None)
  }

  lemma RunRowsRead(db: Db, q: Query)
    requires |q.chain| > 0 && q.chain[0].Select?
    ensures RunRows(db, q) == RowsReply(Some(ReadRows(Table(db, q.table), q.chain)), None)
  {
  }

  /** The reply to a chain ending in `.single()`: the one row produced, or the no-rows error. */
  function RunSingle(db: Db, q: Query): RowReply {
    var rows := Produced(Table(db, q.table), q.chain);
    if |rows| == 1 then RowReply(Some(rows[0]), None) else RowReply(None, Some(NoRows))
  }

  /** The reply to a `head` count request: the number of admitted rows. */
  function RunCount(db: Db, q: Query): CountReply {
    CountReply(Some(|Matching(Table(db, q.table), q.chain)|), None)
  }

  /** The collection after a mutation; a `.single()` mutation that did not touch exactly one row is rolled back. */
  function Apply(db: Db, q: Query): Db {
    var rows := Table(db, q.table);
    if !IsMutation(q.chain) || (EndsSingle(q.chain) && |Produced(rows, q.chain)| != 1) then db
    else match q.chain[0]
      case Insert(new_) => db[q.table := rows + new_]
      case Update(patch) => db[q.table := PatchWhere(rows, q.chain, patch)]
      case Delete => db[q.table := Remaining(rows, q.chain)]
      case _ => db
  }

  function PatchWhere(rows: seq<Row>, chain: seq<Op>, patch: Row): (r: seq<Row>)
    ensures |r| == |rows|
    ensures forall i :: 0 <= i < |rows| ==> r[i] == if Admits(chain, rows[i]) then rows[i] + patch else rows[i]
  {
    if rows == [] then []
    else [if Admits(chain, rows[0]) then rows[0] + patch else rows[0]] + PatchWhere(rows[1..], chain, patch)
  }

  function Remaining(rows: seq<Row>, chain: seq<Op>): (r: seq<Row>)
    ensures forall x :: x in r <==> x in rows && !Admits(chain, x)
  {
    if rows == [] then []
    else (if Admits(chain, rows[0]) then [] else [rows[0]]) + Remaining(rows[1..], chain)
  }
}
