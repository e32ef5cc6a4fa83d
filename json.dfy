/**
 * The values `response.json()` can hand to the bot, with the parts of
 * Python's behaviour on them that the bot relies on: `str()`, `repr()`,
 * `len()`, the `in` operator and the name of the value's type.
 */
module Json {
  import opened Wrappers

  /** A decoded JSON document: a Python None, bool, int, str, list or dict. */
  datatype Json =
    | JNull
    | JBool(b: bool)
    | JInt(i: int)
    | JStr(s: string)
    | JArr(items: seq<Json>)
    | JObj(fields: map<string, Json>)

  /** The Python type name of a decoded value, as it appears in error texts. */
  function TypeName(j: Json): (r: string)
    ensures r == "dict" <==> j.JObj?
    ensures r == "list" <==> j.JArr?
    ensures r == "str" <==> j.JStr?
  {
    match j
    case JNull => "NoneType"
    case JBool(_) => "bool"
    case JInt(_) => "int"
    case JStr(_) => "str"
    case JArr(_) => "list"
    case JObj(_) => "dict"
  }

  /** True when `v` is a value of the `str`, `list` or `dict` type, the ones `len()` accepts. */
  predicate Sized(j: Json) {
    j.JStr? || j.JArr? || j.JObj?
  }

  function DigitChar(d: nat): (c: char)
    requires d < 10
    ensures '0' <= c <= '9' && DigitValue(c) == d
  {
    ('0' as int + d) as char
  }

  function DigitValue(c: char): int {
    c as int - '0' as int
  }

  /** The decimal numeral of `n` as Python's `str(int)` writes it. */
  function NatToDecimal(n: nat): (r: string)
    ensures |r| > 0
    ensures forall k :: 0 <= k < |r| ==> '0' <= r[k] <= '9'
    ensures DecimalValue(r) == n
    decreases n
  {
    if n < 10 then [DigitChar(n)]
    else
      var r := NatToDecimal(n / 10) + [DigitChar(n % 10)];
      assert r[..|r| - 1] == NatToDecimal(n / 10);
      r
  }

  /** The number a string of decimal digits denotes. */
  function DecimalValue(s: string): int {
    if s == [] then 0 else 10 * DecimalValue(s[..|s| - 1]) + DigitValue(s[|s| - 1])
  }

  /** `str(i)` for a Python int: a minus sign before the digits of a negative value. */
  function IntToDecimal(i: int): (r: string)
    ensures |r| > 0
    ensures (r[0] == '-') <==> i < 0
  {
    if i < 0 then "-" + NatToDecimal(-i) else NatToDecimal(i)
  }

  /**
   * Python's `str()` of a decoded value. Scalars, strings and lists are
   * rendered as Python renders them; a dict schematically.
   */
  function Str(j: Json): string
    decreases j, 0
  {
    match j
    case JNull => "None"
    case JBool(b) => if b then "True" else "False"
    case JInt(i) => IntToDecimal(i)
    case JStr(s) => s
    case JArr(items) => "[" + Join(seq(|items|, k requires 0 <= k < |items| => Repr(items[k]))) + "]"
    case JObj(_) => "{...}"
  }

  /** Python's `repr()` of a decoded value: `str()` except that strings are quoted. */
  function Repr(j: Json): string
    decreases j, 1
  {
    if j.JStr? then "'" + j.s + "'" else Str(j)
  }

  /** The parts separated by `", "`, as Python writes the elements of a list. */
  function Join(parts: seq<string>): string {
    if |parts| == 0 then ""
    else if |parts| == 1 then parts[0]
    else parts[0] + ", " + Join(parts[1..])
  }

  /** Python's `len()`; `None` where `len()` raises TypeError. */
  function Len(j: Json): (r: Option<nat>)
    ensures r.Some? <==> Sized(j)
  {
    match j
    case JStr(s) => Some(|s|)
    case JArr(items) => Some(|items|)
    case JObj(fields) => Some(|fields|)
    case _ => None
  }

  /** Whether `t` occurs in `s` as a contiguous piece. */
  predicate HasSubstring(s: string, t: string)
    decreases |s|
  {
    t <= s || (|s| > 0 && HasSubstring(s[1..], t))
  }

  /**
   * Python's `key in j` for a string `key`: key membership for a dict,
   * element equality for a list, substring for a str; `None` where the
   * operator raises TypeError (None, bool, int are not iterable).
   */
  function Contains(j: Json, key: string): (r: Option<bool>)
    ensures r.Some? <==> Sized(j)
    ensures j.JObj? ==> r == Some(key in j.fields)
  {
    match j
    case JObj(fields) => Some(key in fields)
    case JArr(items) => Some(JStr(key) in items)
    case JStr(s) => Some(HasSubstring(s, key))
    case _ => None
  }
}
