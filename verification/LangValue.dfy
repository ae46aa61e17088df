/**
 Runtime values of the language, their JSON form, and the bounded, iterative test for equality.

 Records and JSON objects are sorted maps: sequences of fields in strictly ascending order of name.
 Decimals are IEEE doubles up to rounding: reals, a negative zero, and the non-finite values.
 */
module LangValue {
  import opened Common

  const I64_MIN: int := -0x8000_0000_0000_0000
  const I64_MAX: int := 0x7FFF_FFFF_FFFF_FFFF

  type i64 = x: int | I64_MIN <= x <= I64_MAX

  datatype F64 = Finite(value: real) | NegativeZero | Infinite(negative: bool) | NaN

  datatype Value =
    | Null
    | Bool(b: bool)
    | Int(i: i64)
    | Decimal(d: F64)
    | Str(s: string)
    | Uri(s: string)
    | List(items: seq<Value>)
    | Record(fields: seq<Field>)
    | Tagged(name: string, payload: Option<Value>)
    | Callable

  datatype Field = Field(name: string, value: Value)

  datatype Number = PosInt(n: nat) | NegInt(i: int) | Float(d: F64)

  datatype Json =
    | JNull
    | JBool(b: bool)
    | JNumber(n: Number)
    | JString(s: string)
    | JArray(items: seq<Json>)
    | JObject(fields: seq<JField>)

  datatype JField = JField(name: string, value: Json)

  // ---------- JSON ----------

  function NumberFromInt(i: i64): Number {
    if i < 0 then NegInt(i) else PosInt(i)
  }

  function NumberFromF64(d: F64): Option<Number> {
    if d.Finite? || d.NegativeZero? then Some(Float(d)) else None
  }

  function ToJson(v: Value): Json
    decreases v, 1
  {
    match v
    case Null => JNull
    case Bool(b) => JBool(b)
    case Int(i) => JNumber(NumberFromInt(i))
    case Decimal(d) => if NumberFromF64(d).Some? then JNumber(NumberFromF64(d).value) else JNull
    case Str(s) => JString(s)
    case Uri(s) => JString(s)
    case List(items) => JArray(ToJsons(items))
    case Record(fields) => JObject(FieldsToJson(fields))
    case Tagged(name, None) => JObject([JField("tag", JString(name))])
    case Tagged(name, Some(payload)) => JObject([JField("tag", JString(name)), JField("value", ToJson(payload))])
    case Callable => JString("<function>")
  }

  function ToJsons(items: seq<Value>): (r: seq<Json>)
    ensures |r| == |items|
    decreases items, 0
  {
    if items == [] then [] else [ToJson(items[0])] + ToJsons(items[1..])
  }

  function FieldsToJson(fields: seq<Field>): (r: seq<JField>)
    ensures |r| == |fields|
    decreases fields, 0
  {
    if fields == [] then [] else [JField(fields[0].name, ToJson(fields[0].value))] + FieldsToJson(fields[1..])
  }

  function FromNumber(n: Number): Value {
    match n
    case PosInt(n) => if n <= I64_MAX then Int(n) else Decimal(Finite(n as real))
    case NegInt(i) => if I64_MIN <= i <= I64_MAX then Int(i) else Decimal(Finite(i as real))
    case Float(d) => Decimal(d)
  }

  function FromJson(j: Json): Value
    decreases j, 1
  {
    match j
    case JNull => Null
    case JBool(b) => Bool(b)
    case JNumber(n) => FromNumber(n)
    case JString(s) => Str(s)
    case JArray(items) => List(FromJsons(items))
    case JObject(fields) => Record(FieldsFromJson(fields))
  }

  function FromJsons(items: seq<Json>): seq<Value>
    decreases items, 0
  {
    if items == [] then [] else [FromJson(items[0])] + FromJsons(items[1..])
  }

  function FieldsFromJson(fields: seq<JField>): seq<Field>
    decreases fields, 0
  {
    if fields == [] then [] else [Field(fields[0].name, FromJson(fields[0].value))] + FieldsFromJson(fields[1..])
  }

  // ---------- Equality of JSON ----------

  /** IEEE equality: the zeros are equal, NaN equals nothing. */
  predicate F64Eq(a: F64, b: F64) {
    match (a, b)
    case (Finite(x), Finite(y)) => x == y
    case (Finite(x), NegativeZero) => x == 0.0
    case (NegativeZero, Finite(y)) => y == 0.0
    case (NegativeZero, NegativeZero) => true
    case (Infinite(x), Infinite(y)) => x == y
    case _ => false
  }

  predicate NumberEq(a: Number, b: Number) {
    match (a, b)
    case (PosInt(x), PosInt(y)) => x == y
    case (NegInt(x), NegInt(y)) => x == y
    case (Float(x), Float(y)) => F64Eq(x, y)
    case _ => false
  }

  predicate JsonEq(a: Json, b: Json)
    decreases a, 1
  {
    match (a, b)
    case (JNull, JNull) => true
    case (JBool(x), JBool(y)) => x == y
    case (JNumber(x), JNumber(y)) => NumberEq(x, y)
    case (JString(x), JString(y)) => x == y
    case (JArray(x), JArray(y)) => JsonsEq(x, y)
    case (JObject(x), JObject(y)) => FieldsEq(x, y)
    case _ => false
  }

  predicate JsonsEq(a: seq<Json>, b: seq<Json>)
    decreases a, 0
  {
    |a| == |b| && (a == [] || (JsonEq(a[0], b[0]) && JsonsEq(a[1..], b[1..])))
  }

  predicate FieldsEq(a: seq<JField>, b: seq<JField>)
    decreases a, 0
  {
    |a| == |b| && (a == [] || (a[0].name == b[0].name && JsonEq(a[0].value, b[0].value) && FieldsEq(a[1..], b[1..])))
  }

  /** Nodes of a JSON value; every field's value is one, its name is not. */
  function Nodes(j: Json): (n: nat)
    ensures n >= 1
    decreases j, 1
  {
    match j
    case JArray(items) => 1 + NodesOf(items)
    case JObject(fields) => 1 + NodesOfFields(fields)
    case _ => 1
  }

  function NodesOf(items: seq<Json>): nat
    decreases items, 0
  {
    if items == [] then 0 else Nodes(items[0]) + NodesOf(items[1..])
  }

  function NodesOfFields(fields: seq<JField>): nat
    decreases fields, 0
  {
    if fields == [] then 0 else Nodes(fields[0].value) + NodesOfFields(fields[1..])
  }

  // ---------- Sorted records ----------

  predicate Ascending(fields: seq<Field>) {
    forall i, j :: 0 <= i < j < |fields| ==> Precedes(fields[i].name, fields[j].name)
  }

  /** Every record inside is a sorted map. */
  predicate Sorted(v: Value)
    decreases v, 1
  {
    match v
    case List(items) => AllSorted(items)
    case Record(fields) => Ascending(fields) && FieldsSorted(fields)
    case Tagged(_, Some(payload)) => Sorted(payload)
    case _ => true
  }

  predicate AllSorted(items: seq<Value>)
    decreases items, 0
  {
    items == [] || (Sorted(items[0]) && AllSorted(items[1..]))
  }

  predicate FieldsSorted(fields: seq<Field>)
    decreases fields, 0
  {
    fields == [] || (Sorted(fields[0].value) && FieldsSorted(fields[1..]))
  }

  function Get(fields: seq<Field>, name: string): (r: Option<Value>)
    ensures r.Some? <==> exists i :: 0 <= i < |fields| && fields[i].name == name
    ensures r.Some? ==> Field(name, r.value) in fields
  {
    if fields == [] then None
    else if fields[0].name == name then Some(fields[0].value)
    else
      assert forall i :: 1 <= i < |fields| ==> fields[i] == fields[1..][i - 1];
      Get(fields[1..], name)
  }
}
