/**
 * The JavaScript values the query shim inspects: descriptor fields, filter
 * operands and the cells of stored rows. Truthiness is written out, because the
 * shim decides almost every branch with a bare `if (x)` or `x || fallback`.
 */
module Values {
  import opened Wrappers

  /** A JavaScript value as far as the shim distinguishes them; numbers are integers. */
  datatype Value =
    | Undefined
    | Null
    | Bool(b: bool)
    | Num(n: int)
    | Str(s: string)
    | Time(t: int)            // a Date object, as an instant
    | List(items: seq<Value>)

  /** JavaScript truthiness: `undefined`, `null`, `false`, `0` and `""` are falsy; objects never are. */
  predicate Truthy(v: Value) {
    match v
    case Undefined => false
    case Null => false
    case Bool(b) => b
    case Num(n) => n != 0
    case Str(s) => s != ""
    case Time(_) => true
    case List(_) => true
  }

  /** Truthiness of an optional number such as `take` or `skip`: absent and `0` are falsy. */
  predicate TruthyInt(o: Option<int>) {
    o.Some? && o.value != 0
  }

  /** `n || fallback` for an optional number. */
  function IntOr(o: Option<int>, fallback: int): (r: int)
    ensures TruthyInt(o) ==> r == o.value
    ensures !TruthyInt(o) ==> r == fallback
  {
    if TruthyInt(o) then o.value else fallback
  }

  /**
   * A plain JavaScript object: its own properties in `Object.keys` order.
   * Keys are taken to be distinct, as in a JavaScript object; the type does not
   * rule out a repeated key, and `Get` then reads the first.
   */
  type Obj = seq<(string, Value)>

  /** Property access `o[k]`: the value of the first property named `k`, or `undefined`. */
  function Get(o: Obj, k: string): (v: Value)
    ensures v != Undefined ==> exists i :: 0 <= i < |o| && o[i] == (k, v)
  {
    if o == [] then Undefined
    else if o[0].0 == k then o[0].1
    else Get(o[1..], k)
  }

  /** `Object.keys(o)`. */
  function Keys(o: Obj): (ks: seq<string>)
    ensures |ks| == |o|
    ensures forall i :: 0 <= i < |o| ==> ks[i] == o[i].0
  {
    if o == [] then [] else [o[0].0] + Keys(o[1..])
  }

  /** `s.includes(sub)`: `sub` occurs in `s` at some offset. */
  predicate Contains(s: string, sub: string)
    decreases |s|
  {
    |sub| <= |s| && (s[..|sub|] == sub || Contains(s[1..], sub))
  }

  lemma {:induction false} ContainsAt(s: string, sub: string, i: nat)
    requires i + |sub| <= |s| && s[i..i + |sub|] == sub
    ensures Contains(s, sub)
    decreases i
  {
    if i > 0 {
      assert s[1..][i - 1..i - 1 + |sub|] == sub;
      ContainsAt(s[1..], sub, i - 1);
    }
  }

  /** A row of a stored collection, keyed by column name. */
  type Row = map<string, Value>

  /** The cell of column `c`; a column the row does not carry reads as SQL NULL. */
  function Column(row: Row, c: string): Value {
    if c in row then row[c] else Null
  }

  /** A stored row never holds `undefined`: the store has no such value. */
  predicate StoredRow(row: Row) {
    forall c :: c in row ==> row[c] != Undefined
  }
}
