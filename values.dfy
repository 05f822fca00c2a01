/**
 * The JSON-like values the Python code keeps in its dicts and rows, with
 * Python's truthiness, `dict.get` and `str()`.
 */
module Values {
  import opened Wrappers

  datatype Value =
    | Null
    | Bool(b: bool)
    | Int(i: int)
    | Real(r: real)
    | Str(s: string)
    | List(items: seq<Value>)
    | Dict(fields: map<string, Value>)

  /** A dict with string keys: a record, a row or a request body. */
  type Record = map<string, Value>

  /** `bool(v)`. */
  predicate Truthy(v: Value) {
    match v
    case Null => false
    case Bool(b) => b
    case Int(i) => i != 0
    case Real(r) => r != 0.0
    case Str(s) => s != ""
    case List(items) => items != []
    case Dict(fields) => fields != map[]
  }

  /** `rec.get(key, default)`. */
  function Get(rec: Record, key: string, default: Value): Value {
    if key in rec then rec[key] else default
  }

  /** `rec.get(key)`: a missing key reads as `None`. */
  function GetOrNull(rec: Record, key: string): Value {
    Get(rec, key, Null)
  }

  /** The decimal digits of `n`. */
  function NatToString(n: nat): (r: string)
    ensures |r| >= 1
    ensures forall k :: 0 <= k < |r| ==> '0' <= r[k] <= '9'
    decreases n
  {
    (if n < 10 then "" else NatToString(n / 10)) + [('0' as int + n % 10) as char]
  }

  /** `str(i)` for an integer. */
  function IntToString(i: int): string {
    if i < 0 then "-" + NatToString(-i) else NatToString(i)
  }

  /** A negative number prints as a minus sign before the digits of its magnitude. */
  lemma ShowNegative(i: int, n: nat)
    requires i < 0 && n == -i
    ensures IntToString(i) == "-" + NatToString(n)
  {
  }

  /** Different numbers print differently. */
  lemma {:induction false} NatToStringInjective(a: nat, b: nat)
    requires NatToString(a) == NatToString(b)
    ensures a == b
    decreases a
  {
    var pa := if a < 10 then "" else NatToString(a / 10);
    var pb := if b < 10 then "" else NatToString(b / 10);
    assert NatToString(a) == pa + [('0' as int + a % 10) as char];
    assert NatToString(b) == pb + [('0' as int + b % 10) as char];
    assert |pa| == |pb| && pa == NatToString(a)[..|pa|] && pb == NatToString(b)[..|pb|];
    assert NatToString(a)[|pa|] == NatToString(b)[|pb|];
    if a >= 10 && b >= 10 {
      NatToStringInjective(a / 10, b / 10);
    }
  }

  lemma IntToStringInjective(a: int, b: int)
    requires IntToString(a) == IntToString(b)
    ensures a == b
  {
    assert (IntToString(a)[0] == '-') == (a < 0);
    assert (IntToString(b)[0] == '-') == (b < 0);
    if a < 0 {
      assert NatToString(-a) == IntToString(a)[1..] == IntToString(b)[1..] == NatToString(-b);
      NatToStringInjective(-a, -b);
    } else {
      NatToStringInjective(a, b);
    }
  }

  /** `str(v)` for the scalar values an id can hold; floats, lists and dicts are rendered as "" here. */
  function Show(v: Value): string {
    match v
    case Str(s) => s
    case Int(i) => IntToString(i)
    case Null => "None"
    case Bool(b) => if b then "True" else "False"
    case _ => ""
  }
}
