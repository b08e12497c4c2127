/** JSON-like documents as the application stores them, and the handful of
    JavaScript value rules (truthiness, strict equality, `<=` against a
    number, `|| 0`, template-string conversion) that the rest of the model
    relies on. A key absent from a document is JavaScript's `undefined`. */
module Json {
  import opened Wrappers

  datatype Value =
    | Null
    | Bool(b: bool)
    | Num(n: int)
    | Str(s: string)
    | Arr(elems: seq<Value>)
    | Obj(fields: map<string, Value>)

  type Doc = map<string, Value>

  /** `d[k]`, with `None` for `undefined`. */
  function Field(d: Doc, k: string): (r: Option<Value>)
    ensures r.Some? <==> k in d
    ensures r.Some? ==> r.value == d[k]
  {
    if k in d then Some(d[k]) else None
  }

  /** `{...d, [k]: v}` where `v` may be `undefined`; JSON storage drops
      `undefined`, so that case leaves the key out. */
  function SetField(d: Doc, k: string, v: Option<Value>): (r: Doc)
    ensures Field(r, k) == v
    ensures forall j :: j != k ==> Field(r, j) == Field(d, j)
  {
    match v
    case Some(x) => d[k := x]
    case None => d - {k}
  }

  /** JavaScript's `Boolean(v)`; `undefined` is falsy. NaN is not modelled. */
  predicate Truthy(v: Option<Value>) {
    match v
    case None => false
    case Some(x) =>
      match x
      case Null => false
      case Bool(b) => b
      case Num(n) => n != 0
      case Str(s) => s != ""
      case Arr(_) => true
      case Obj(_) => true
  }

  predicate FieldTruthy(d: Doc, k: string) {
    Truthy(Field(d, k))
  }

  /** `x === y` between two field values. Arrays and objects loaded
      separately are distinct references, so they are never strictly equal. */
  predicate StrictEq(x: Option<Value>, y: Option<Value>) {
    x == y && !(x.Some? && (x.value.Arr? || x.value.Obj?))
  }

  /** `d[k] === s` for a string `s`. */
  predicate FieldIs(d: Doc, k: string, s: string)
    ensures FieldIs(d, k, s) <==> k in d && d[k] == Str(s)
  {
    StrictEq(Field(d, k), Some(Str(s)))
  }

  /** The number JavaScript's relational operators see for a non-string
      primitive; `None` stands for NaN. */
  function NumberOf(v: Option<Value>): Option<int> {
    match v
    case None => None
    case Some(x) =>
      match x
      case Null => Some(0)
      case Bool(b) => Some(if b then 1 else 0)
      case Num(n) => Some(n)
      case _ => None
  }

  /** `v <= x` for a number `x`; NaN compares false. */
  predicate LessEq(v: Option<Value>, x: int) {
    NumberOf(v).Some? && NumberOf(v).value <= x
  }

  /** `(v || 0)` used as a number in a sum; `true` adds as 1. */
  function NumOrZero(v: Option<Value>): (r: int)
    ensures !Truthy(v) ==> r == 0
    ensures v.Some? && v.value.Num? ==> r == v.value.n
    ensures v == Some(Bool(true)) ==> r == 1
  {
    match v
    case Some(Num(n)) => n
    case Some(Bool(b)) => if b then 1 else 0
    case _ => 0
  }

  /** The decimal digits of a natural number. */
  function NatToString(n: nat): (r: string)
    ensures |r| >= 1
    ensures forall i :: 0 <= i < |r| ==> '0' <= r[i] <= '9'
    decreases n
  {
    var d := [('0' as int + n % 10) as char];
    if n < 10 then d else NatToString(n / 10) + d
  }

  function IntToString(n: int): string {
    if n < 0 then "-" + NatToString(-n) else NatToString(n)
  }

  /** The text a template literal `${v}` produces (arrays are joined with
      commas, objects print as `[object Object]`). */
  function ToText(v: Option<Value>): string {
    match v
    case None => "undefined"
    case Some(x) => ValueText(x)
  }

  function ValueText(x: Value): string
    decreases x, 1
  {
    match x
    case Null => "null"
    case Bool(b) => if b then "true" else "false"
    case Num(n) => IntToString(n)
    case Str(s) => s
    case Arr(elems) => ElementsText(x, elems)
    case Obj(_) => "[object Object]"
  }

  /** `Array.prototype.join(',')`: `null` and `undefined` become empty. */
  function ElementsText(whole: Value, elems: seq<Value>): string
    requires forall e :: e in elems ==> e < whole
    decreases whole, 0, |elems|
  {
    if elems == [] then ""
    else
      assert elems[0] in elems;
      assert forall e :: e in elems[1..] ==> e in elems;
      var head := if elems[0].Null? then "" else ValueText(elems[0]);
      if |elems| == 1 then head else head + "," + ElementsText(whole, elems[1..])
  }

  /** `new Date(v)` as a millisecond instant, given how date strings are
      parsed; `None` is an Invalid Date. */
  function InstantOf(v: Option<Value>, parse: string -> Option<int>): Option<int> {
    match v
    case None => None
    case Some(x) =>
      match x
      case Str(s) => parse(s)
      case Num(n) => Some(n)
      case Null => Some(0)
      case _ => None
  }
}
