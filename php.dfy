/**
 * The slice of PHP's value semantics the Model class relies on: dynamically typed
 * values, `empty()`, string interpolation of a value, and reading a missing array key.
 */
module Php {

  /**
   * A PHP value as it appears in request parameters and fetched rows.
   * `Rows` is a list of associative arrays: a nested result set attached under an alias.
   */
  datatype Value = Null | Bool(b: bool) | Int(i: int) | Str(s: string) | Rows(rows: seq<Row>)

  /** A fetched row (`PDO::FETCH_ASSOC`): column name to value. */
  type Row = map<string, Value>

  /** A request-parameter array of one model. */
  type Params = map<string, Value>

  /** PHP's `empty($v)`: NULL, false, 0, "", "0" and the empty array. */
  predicate IsEmpty(v: Value) {
    match v
    case Null => true
    case Bool(b) => !b
    case Int(i) => i == 0
    case Str(s) => IsEmptyString(s)
    case Rows(rs) => rs == []
  }

  /** `empty($s)` for a string, or for NULL, which the model writes as "". */
  predicate IsEmptyString(s: string) {
    s == "" || s == "0"
  }

  /** `$v == null` under PHP's loose comparison: NULL, false, 0, "" and the empty array, but not "0". */
  predicate IsLooselyNull(v: Value) {
    match v
    case Null => true
    case Bool(b) => !b
    case Int(i) => i == 0
    case Str(s) => s == ""
    case Rows(rs) => rs == []
  }

  /** Loose equality with NULL and `empty()` differ on exactly one value, the string "0". */
  lemma LooselyNullIsEmptyButZero(v: Value)
    ensures IsLooselyNull(v) ==> IsEmpty(v)
    ensures IsEmpty(v) && !IsLooselyNull(v) <==> v == Str("0")
  {
  }

  function Digit(d: nat): char
    requires d < 10
  {
    "0123456789"[d]
  }

  /** Decimal notation of a natural number, as PHP prints an integer. */
  function NatToString(n: nat): (s: string)
    ensures |s| > 0
    decreases n
  {
    if n < 10 then [Digit(n)] else NatToString(n / 10) + [Digit(n % 10)]
  }

  function IntToString(i: int): string {
    if i < 0 then "-" + NatToString(-i) else NatToString(i)
  }

  /** What `"..." . $v . "..."` inserts for a value. */
  function ToString(v: Value): string {
    match v
    case Null => ""
    case Bool(b) => if b then "1" else ""
    case Int(i) => IntToString(i)
    case Str(s) => s
    case Rows(_) => "Array"
  }

  /**
   * An integer is empty() exactly when its interpolation is: the id a query interpolates
   * into `WHERE key = 'id'` is never "" or "0" unless `empty($id)` held for it.
   */
  lemma IntInterpolationEmpty(i: int)
    ensures IsEmptyString(ToString(Int(i))) <==> IsEmpty(Int(i))
  {
    if i < 0 {
      assert ToString(Int(i)) == "-" + NatToString(-i);
      assert ToString(Int(i))[0] == '-';
    } else if i >= 10 {
      assert |ToString(Int(i))| == |NatToString(i / 10)| + 1 >= 2;
    } else if i > 0 {
      assert ToString(Int(i)) == [Digit(i)] && Digit(i) != '0';
    }
  }

  /** `$row[$k]`: a missing key reads as NULL (PHP raises only a notice). */
  function Lookup(row: map<string, Value>, k: string): Value {
    if k in row then row[k] else Null
  }
}
