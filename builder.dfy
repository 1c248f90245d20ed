/**
 * The chain of builder calls the shim issues against the store's query
 * builder (`from(table).select(...).eq(...)...`), and the rules the shim
 * uses to produce its pieces: the column list, the conditional filters,
 * the order directive and the pagination calls.
 */
module Builder {
  import opened Wrappers
  import opened Values

  /** One builder call. Range bounds are instants; their ISO-8601 rendering is not modelled. */
  datatype Op =
    | Select(columns: string)          // .select(columns); .select() is Select("*")
    | SelectCount(columns: string)     // .select(columns, { count: 'exact', head: true })
    | Insert(rows: seq<Row>)           // .insert(data)
    | Update(patch: Row)               // .update(data)
    | Delete                           // .delete()
    | Eq(column: string, value: Value)
    | In(column: string, values: seq<Value>)
    | Gt(column: string, bound: int)
    | Gte(column: string, bound: int)
    | Lt(column: string, bound: int)
    | Lte(column: string, bound: int)
    | IsNull(column: string)           // .is(column, null)
    | Order(field: Option<string>, ascending: bool)
    | Limit(count: int)
    | Range(from: int, to: int)
    | Single

  /** `from(table)` followed by the chain of calls, in the order they are made. */
  datatype Query = Query(table: string, chain: seq<Op>)

  const Wildcard: string := "*"

  /** The page size assumed for `skip` when `take` is falsy. */
  const FallbackPageSize: int := 100

  // ---------------------------------------------------------------------
  // Projection: Object.keys(select).filter(k => select[k]).join(',')
  // ---------------------------------------------------------------------

  /** The keys among `ks` whose value in `sel` is truthy, in the order of `ks`. */
  function KeepTruthy(ks: seq<string>, sel: Obj): (r: seq<string>)
    ensures |r| <= |ks|
    ensures forall k :: k in r <==> k in ks && Truthy(Get(sel, k))
  {
    if ks == [] then []
    else (if Truthy(Get(sel, ks[0])) then [ks[0]] else []) + KeepTruthy(ks[1..], sel)
  }

  /** `Object.keys(sel).filter(k => sel[k])`. */
  function SelectedKeys(sel: Obj): seq<string> {
    KeepTruthy(Keys(sel), sel)
  }

  /** `parts.join(sep)`. */
  function Join(parts: seq<string>, sep: string): string {
    if parts == [] then ""
    else if |parts| == 1 then parts[0]
    else parts[0] + sep + Join(parts[1..], sep)
  }

  /** `s.split(sep)` for a one-character separator: never empty, `""` splits to `[""]`. */
  function Split(s: string, sep: char): (parts: seq<string>)
    ensures |parts| > 0
  {
    if s == [] then [""]
    else
      var rest := Split(s[1..], sep);
      if s[0] == sep then [""] + rest else [[s[0]] + rest[0]] + rest[1..]
  }

  /** The column list sent with `.select(...)`: `'*'` when `select` is absent. */
  function Columns(select: Option<Obj>): string {
    if select.Some? then Join(SelectedKeys(select.value), ",") else Wildcard
  }

  /** Filtering works key by key, so it keeps the keys' relative order. */
  lemma {:induction false} KeepTruthyAppend(a: seq<string>, b: seq<string>, sel: Obj)
    ensures KeepTruthy(a + b, sel) == KeepTruthy(a, sel) + KeepTruthy(b, sel)
  {
    if a == [] {
      assert a + b == b;
    } else {
      var head := if Truthy(Get(sel, a[0])) then [a[0]] else [];
      assert (a + b)[0] == a[0] && (a + b)[1..] == a[1..] + b;
      KeepTruthyAppend(a[1..], b, sel);
      assert head + (KeepTruthy(a[1..], sel) + KeepTruthy(b, sel)) == (head + KeepTruthy(a[1..], sel)) + KeepTruthy(b, sel);
    }
  }

  /**
   * The column list of a `select` object lists its truthy keys, in key order:
   * splitting it at the commas gives them back, when there is at least one
   * and no key holds a comma.
   */
  lemma ColumnsRoundTrip(sel: Obj)
    requires SelectedKeys(sel) != [] && NoSeparator(SelectedKeys(sel), ',')
    ensures Split(Columns(Some(sel)), ',') == SelectedKeys(sel)
  {
    SplitJoin(SelectedKeys(sel), ',');
  }

  /** Appending an embedding clause to a column list. */
  function WithEmbed(columns: string, embed: string): (r: string)
    ensures |r| == |columns| + 2 + |embed|
    ensures r[..|columns|] == columns && r[|columns| + 2..] == embed
    ensures r[|columns|..|columns| + 2] == ", "
  {
    columns + ", " + embed
  }

  predicate NoSeparator(parts: seq<string>, sep: char) {
    forall i :: 0 <= i < |parts| ==> sep !in parts[i]
  }

  lemma {:induction false} SplitPlain(p: string, sep: char)
    requires sep !in p
    ensures Split(p, sep) == [p]
  {
    if p != [] {
      SplitPlain(p[1..], sep);
      assert [p[0]] + p[1..] == p;
    }
  }

  lemma {:induction false} SplitAfter(p: string, sep: char, t: string)
    requires sep !in p
    ensures Split(p + [sep] + t, sep) == [p] + Split(t, sep)
  {
    if p == [] {
      assert p + [sep] + t == [sep] + t;
      assert ([sep] + t)[1..] == t;
    } else {
      var s := p + [sep] + t;
      assert s[0] == p[0] && s[1..] == p[1..] + [sep] + t;
      SplitAfter(p[1..], sep, t);
      assert [p[0]] + p[1..] == p;
    }
  }

  /** Splitting a joined list gives the list back, when no part holds the separator. */
  lemma {:induction false} SplitJoin(parts: seq<string>, sep: char)
    requires |parts| > 0 && NoSeparator(parts, sep)
    ensures Split(Join(parts, [sep]), sep) == parts
  {
    if |parts| == 1 {
      SplitPlain(parts[0], sep);
    } else {
      SplitJoin(parts[1..], sep);
      SplitAfter(parts[0], sep, Join(parts[1..], [sep]));
      assert [parts[0]] + parts[1..] == parts;
    }
  }

  // ---------------------------------------------------------------------
  // Conditional filters
  // ---------------------------------------------------------------------

  /** `if (v) query = query.eq(column, v)`. */
  function EqWhen(column: string, v: Value): seq<Op> {
    if Truthy(v) then [Eq(column, v)] else []
  }

  /** `if (v !== undefined) query = query.eq(column, v)`: emitted for `false` and `null` too. */
  function EqUnlessUndefined(column: string, v: Value): seq<Op> {
    if v != Undefined then [Eq(column, v)] else []
  }

  /** `if (values) query = query.in(column, values)`; an array, even an empty one, is truthy. */
  function InWhen(column: string, values: Option<seq<Value>>): seq<Op> {
    if values.Some? then [In(column, values.value)] else []
  }

  /** `if (v === null) query = query.is(column, null)`: only an explicit `null` filters. */
  function IsNullWhen(column: string, v: Value): seq<Op> {
    if v == Null then [IsNull(column)] else []
  }

  /** `if (bound) query = query.gt(column, bound)`; a Date is always truthy. */
  function GtWhen(column: string, bound: Option<int>): seq<Op> {
    if bound.Some? then [Gt(column, bound.value)] else []
  }

  function GteWhen(column: string, bound: Option<int>): seq<Op> {
    if bound.Some? then [Gte(column, bound.value)] else []
  }

  function LtWhen(column: string, bound: Option<int>): seq<Op> {
    if bound.Some? then [Lt(column, bound.value)] else []
  }

  function LteWhen(column: string, bound: Option<int>): seq<Op> {
    if bound.Some? then [Lte(column, bound.value)] else []
  }

  // ---------------------------------------------------------------------
  // Ordering and pagination
  // ---------------------------------------------------------------------

  /**
   * `field = Object.keys(orderBy)[0]; order(field, { ascending: orderBy[field] !== 'desc' })`.
   * An empty object yields an `undefined` field.
   */
  function OrderBy(orderBy: Option<Obj>): seq<Op> {
    if orderBy.None? then []
    else if orderBy.value == [] then [Order(None, true)]
    else [Order(Some(orderBy.value[0].0), orderBy.value[0].1 != Str("desc"))]
  }

  /**
   * `if (take) limit(take); if (skip) range(skip, skip + (take || 100) - 1)`.
   */
  function Paginate(take: Option<int>, skip: Option<int>): seq<Op> {
    (if TruthyInt(take) then [Limit(take.value)] else [])
    + (if TruthyInt(skip) then [Range(skip.value, skip.value + IntOr(take, FallbackPageSize) - 1)] else [])
  }

  /** The column list of a chain: the argument of its first select call. */
  function ColumnsOf(chain: seq<Op>): Option<string> {
    if chain == [] then None
    else if chain[0].Select? then Some(chain[0].columns)
    else if chain[0].SelectCount? then Some(chain[0].columns)
    else ColumnsOf(chain[1..])
  }
}
