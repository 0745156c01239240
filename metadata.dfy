/** Chunk metadata as the vector store keeps it: a map from field names to
    scalar values, read with Python's dict.get, truthiness, int() and str(). */
module Metadata {
  import opened Wrappers
  import opened Text
  import opened Numbers

  /** A metadata value. Chroma stores strings, integers, booleans and None;
      floating-point values are not part of this model. */
  datatype Scalar = Str(s: string) | Int(i: int) | Bool(b: bool) | Null

  type Meta = map<string, Scalar>

  /** Python truthiness of a scalar. */
  predicate Truthy(x: Scalar) {
    match x
    case Str(s) => s != ""
    case Int(i) => i != 0
    case Bool(b) => b
    case Null => false
  }

  /** m.get(name): an absent field and a stored None both read as None. */
  function Lookup(m: Meta, name: string): (r: Option<Scalar>)
    ensures r.Some? <==> name in m && m[name] != Null
    ensures r.Some? ==> r.value == m[name] && r.value != Null
  {
    if name in m && m[name] != Null then Some(m[name]) else None
  }

  predicate TruthyOpt(x: Option<Scalar>) {
    x.Some? && Truthy(x.value)
  }

  /** Python's `a or b` on two values read with dict.get. */
  function Or(a: Option<Scalar>, b: Option<Scalar>): Option<Scalar> {
    if TruthyOpt(a) then a else b
  }

  /** Python's str(x) for a non-None scalar. */
  function PyStr(x: Scalar): string
    requires x != Null
  {
    match x
    case Str(s) => s
    case Int(i) => IntToString(i)
    case Bool(b) => if b then "True" else "False"
  }

  /** Python's int(x) for a non-None scalar; None where int() raises. */
  function PyIntOf(x: Scalar): Option<int>
    requires x != Null
  {
    match x
    case Str(s) => PyInt(s)
    case Int(i) => Some(i)
    case Bool(b) => Some(if b then 1 else 0)
  }

  /** The value Python hashes and compares a scalar by: True == 1 and
      False == 0, so booleans compare as the integers they equal. */
  function HashKey(x: Scalar): Scalar {
    match x
    case Bool(b) => Int(if b then 1 else 0)
    case _ => x
  }
}
