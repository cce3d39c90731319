/** JSON-like values as the Python code sees them: the request body after
    parsing, the fields of a stored bike, and the identifiers the store adds. */
module Json {
  import opened ObjectIds

  /** Null is Python's None (an absent body or a JSON null). A JSON number
      with a fraction or an exponent becomes a Python float, which the model
      keeps opaque: only its repr() text is kept. Oid values come only from
      the store, never from a request. */
  datatype Value =
    | Null
    | Bool(b: bool)
    | Int(i: int)
    | Float(repr: string)
    | Str(s: string)
    | Arr(items: seq<Value>)
    | Obj(fields: map<string, Value>)
    | Oid(oid: ObjectId)

  /** A dictionary from field name to value. */
  type Document = map<string, Value>

  /** Python truthiness: None, False, 0, 0.0, "", [] and {} are false;
      an ObjectId has no __bool__ and is always true. */
  predicate Truthy(v: Value) {
    match v
    case Null => false
    case Bool(b) => b
    case Int(n) => n != 0
    case Float(r) => r != "0.0" && r != "-0.0"
    case Str(s) => s != ""
    case Arr(xs) => xs != []
    case Obj(m) => m != map[]
    case Oid(_) => true
  }

  /** isinstance(v, (int, float)). bool is a subclass of int, so a Bool
      passes as well. */
  predicate IsPyNumber(v: Value) {
    v.Int? || v.Float? || v.Bool?
  }

  /** Values whose str() the model spells out: everything but lists and
      dictionaries. */
  predicate IsScalar(v: Value) {
    !v.Arr? && !v.Obj?
  }

  const Int64Min: int := -0x8000_0000_0000_0000
  const Int64Max: int := 0x7FFF_FFFF_FFFF_FFFF

  /** The BSON encoder stores integers in at most 8 bytes; a larger Python
      integer anywhere in a document makes it raise OverflowError. */
  predicate Encodable(v: Value) {
    match v
    case Int(n) => Int64Min <= n <= Int64Max
    case Arr(xs) => forall i :: 0 <= i < |xs| ==> Encodable(xs[i])
    case Obj(m) => forall k :: k in m ==> Encodable(m[k])
    case _ => true
  }

  function DigitChar(d: int): char
    requires 0 <= d < 10
  {
    ('0' as int + d) as char
  }

  /** Decimal digits of a natural number, most significant first. */
  function NatText(n: nat): (r: string)
    ensures |r| > 0
    ensures forall i :: 0 <= i < |r| ==> '0' <= r[i] <= '9'
  {
    if n < 10 then [DigitChar(n)] else NatText(n / 10) + [DigitChar(n % 10)]
  }

  /** The number a string of decimal digits spells, most significant first. */
  function DecimalValue(s: string): nat
    requires forall i :: 0 <= i < |s| ==> '0' <= s[i] <= '9'
  {
    if s == [] then 0 else DecimalValue(s[..|s| - 1]) * 10 + (s[|s| - 1] as int - '0' as int)
  }

  /** NatText spells `n` in decimal, with no leading zero. */
  lemma {:induction false} NatTextValue(n: nat)
    ensures DecimalValue(NatText(n)) == n
    ensures NatText(n)[0] == '0' ==> n == 0
  {
    var t := NatText(n);
    if n < 10 {
      assert t[..|t| - 1] == [];
    } else {
      NatTextValue(n / 10);
      assert t[..|t| - 1] == NatText(n / 10);
      assert t[0] == NatText(n / 10)[0];
    }
  }

  /** str(v) for the scalar values. */
  function PyStr(v: Value): string
    requires IsScalar(v)
  {
    match v
    case Null => "None"
    case Bool(b) => if b then "True" else "False"
    case Int(n) => if n < 0 then "-" + NatText(-n) else NatText(n)
    case Float(r) => r
    case Str(s) => s
    case Oid(o) => ToText(o)
  }
}
