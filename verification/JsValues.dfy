/**
 * The JSON values a form submission carries, with JavaScript's truthiness and
 * its `String(value)` conversion (used by template literals) written out.
 */
module JsValues {
  import Seqs

  /**
   * One element of a photo field's array: `Blank` is a null entry, `Item` an
   * attachment object. An empty `file` or `id` stands for a missing or empty
   * property (both are falsy).
   */
  datatype Descriptor = Blank | Item(file: string, id: string)

  /** A field value of the submission. Numbers are integers here. */
  datatype Value =
    | Null
    | Bool(b: bool)
    | Str(s: string)
    | Num(n: int)
    | List(items: seq<Descriptor>)

  /** JavaScript truthiness: `""`, `0`, `false` and `null` are falsy; every array is truthy. */
  predicate Truthy(v: Value)
  {
    match v
    case Null => false
    case Bool(b) => b
    case Str(s) => s != ""
    case Num(n) => n != 0
    case List(_) => true
  }

  function DigitChar(d: nat): (c: char)
    requires d < 10
    ensures '0' <= c <= '9' && c as int - '0' as int == d
  {
    (d + '0' as int) as char
  }

  /** Decimal digits of `n`, most significant first, without leading zeros. */
  function NatToDecimal(n: nat): (r: string)
    ensures |r| > 0
    ensures forall i :: 0 <= i < |r| ==> '0' <= r[i] <= '9'
    ensures r[0] == '0' <==> n == 0
    ensures r[0] == '0' ==> |r| == 1
  {
    if n < 10 then [DigitChar(n)] else NatToDecimal(n / 10) + [DigitChar(n % 10)]
  }

  /** The number a string of decimal digits denotes. */
  function DecimalValue(s: string): nat
    requires forall i :: 0 <= i < |s| ==> '0' <= s[i] <= '9'
  {
    if |s| == 0 then 0
    else 10 * DecimalValue(s[..|s| - 1]) + (s[|s| - 1] as int - '0' as int)
  }

  /** Reading back the printed digits gives the number. */
  lemma {:induction false} DecimalRoundTrip(n: nat)
    ensures DecimalValue(NatToDecimal(n)) == n
  {
    if n >= 10 {
      DecimalRoundTrip(n / 10);
      var r := NatToDecimal(n);
      assert r[..|r| - 1] == NatToDecimal(n / 10);
    }
  }

  /** `String(n)` for an integer `n`. */
  function IntToString(n: int): string
  {
    if n < 0 then "-" + NatToDecimal(-n) else NatToDecimal(n)
  }

  /** Different integers print differently. */
  lemma IntToStringInjective(a: int, b: int)
    requires IntToString(a) == IntToString(b)
    ensures a == b
  {
    if a < 0 && b < 0 {
      assert NatToDecimal(-a) == IntToString(a)[1..];
      DecimalRoundTrip(-a);
      DecimalRoundTrip(-b);
    } else if a >= 0 && b >= 0 {
      DecimalRoundTrip(a);
      DecimalRoundTrip(b);
    }
  }

  /** How an array element prints inside `Array.prototype.toString`. */
  function ElementString(d: Descriptor): string
  {
    match d
    case Blank => ""
    case Item(_, _) => "[object Object]"
  }

  /** `String(v)`, as a template literal `${v}` renders it. */
  function Show(v: Value): (r: string)
    ensures Truthy(v) && !v.List? ==> r != ""
  {
    match v
    case Null => "null"
    case Bool(b) => if b then "true" else "false"
    case Str(s) => s
    case Num(n) => IntToString(n)
    case List(items) => Seqs.Join(seq(|items|, i requires 0 <= i < |items| => ElementString(items[i])), ",")
  }

  /** String values and integers each print injectively. */
  lemma ShowInjective(a: Value, b: Value)
    requires (a.Str? && b.Str?) || (a.Num? && b.Num?)
    requires Show(a) == Show(b)
    ensures a == b
  {
    if a.Num? {
      IntToStringInjective(a.n, b.n);
    }
  }
}
