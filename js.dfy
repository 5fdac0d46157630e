/**
 * The JavaScript values the application moves around: request bodies,
 * in-memory records and stored document fields. Numbers are integers
 * (NaN and fractions do not occur in the modelled paths), and objects
 * and arrays are compared by value.
 */
module Js {
  import opened Strings

  datatype Value =
    | Undefined
    | Null
    | Bool(b: bool)
    | Num(n: int)
    | Str(s: string)
    | Arr(items: seq<Value>)
    | Obj(fields: map<string, Value>)

  /** A document identifier (a Mongo ObjectId). */
  type Oid = nat

  /** A plain object: property name to value. A missing property reads as `undefined`. */
  type Record = map<string, Value>

  /** JavaScript truthiness: `undefined`, `null`, `false`, `0` and `""` are falsy; every array and object is truthy. */
  predicate Truthy(v: Value) {
    match v
    case Undefined => false
    case Null => false
    case Bool(b) => b
    case Num(n) => n != 0
    case Str(s) => s != ""
    case Arr(_) => true
    case Obj(_) => true
  }

  /** `a || b`: the left operand when it is truthy, otherwise the right one. */
  function Or(a: Value, b: Value): Value {
    if Truthy(a) then a else b
  }

  /** `obj.key` on a plain object. */
  function Get(r: Record, key: string): Value {
    if key in r then r[key] else Undefined
  }

  /** `{ ...a, ...b }`: every property of both, the right-hand object's winning on a shared name. */
  function Spread(a: Record, b: Record): (r: Record)
    ensures r.Keys == a.Keys + b.Keys
    ensures forall k :: k in b ==> r[k] == b[k]
    ensures forall k :: k in a && k !in b ==> r[k] == a[k]
  {
    a + b
  }

  /** A property set only when its value is not `undefined`, as `toObject` and `JSON.stringify` leave such properties out. */
  function PutDefined(r: Record, key: string, v: Value): (r': Record)
    ensures v.Undefined? ==> r' == r
    ensures !v.Undefined? ==> key in r' && r'[key] == v
    ensures forall k :: k != key ==> (k in r' <==> k in r) && (k in r ==> r'[k] == r[k])
  {
    if v.Undefined? then r else r[key := v]
  }

  /** `const { a, b, ...rest } = r`: `rest` is `r` without the named properties. */
  function Omit(r: Record, keys: set<string>): (rest: Record)
    ensures forall k :: k in rest <==> k in r && k !in keys
    ensures forall k :: k in rest ==> rest[k] == r[k]
  {
    map k | k in r && k !in keys :: r[k]
  }

  /** An integer in decimal, with a leading minus sign when negative. */
  function IntToString(n: int): string {
    if n < 0 then "-" + NatToString(-n) else NatToString(n)
  }

  /** `String(v)`, as a template literal converts a value. */
  function ToString(v: Value): string {
    match v
    case Undefined => "undefined"
    case Null => "null"
    case Bool(b) => if b then "true" else "false"
    case Num(n) => IntToString(n)
    case Str(s) => s
    case Arr(items) => JoinElements(v, items)
    case Obj(_) => "[object Object]"
  }

  /** `Array.prototype.join(",")`, where `null` and `undefined` elements print as empty. */
  function JoinElements(parent: Value, items: seq<Value>): string
    requires forall i :: 0 <= i < |items| ==> items[i] < parent
    decreases parent, |items|
  {
    if items == [] then ""
    else
      var first := if items[0].Undefined? || items[0].Null? then "" else ToString(items[0]);
      if |items| == 1 then first else first + "," + JoinElements(parent, items[1..])
  }
}
