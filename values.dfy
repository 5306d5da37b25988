/**
 * JSON scalar values as the settlement service receives them, with the three
 * pieces of Python semantics the service relies on: truthiness (`if not x`),
 * the value-returning `a or b`, and `str(x)`.
 */
module Values {

  datatype Option<+T> = None | Some(value: T)

  /** A JSON scalar: `null` (or an absent key), an integer, or a string. */
  datatype Scalar = Null | Int(i: int) | Str(s: string)

  /** Python truthiness of a scalar: only null, zero and the empty string are falsy. */
  predicate Truthy(v: Scalar)
    ensures !Truthy(v) <==> v == Null || v == Int(0) || v == Str("")
  {
    match v
    case Null => false
    case Int(i) => i != 0
    case Str(s) => s != ""
  }

  /** Python's `a or b`: the first operand when it is truthy, else the second one, whatever it is. */
  function Or(a: Scalar, b: Scalar): (r: Scalar)
    ensures Truthy(a) ==> r == a
    ensures !Truthy(a) ==> r == b
  {
    if Truthy(a) then a else b
  }

  function DigitChar(d: nat): (c: char)
    requires d < 10
    ensures '0' <= c <= '9'
    ensures c as int - '0' as int == d
  {
    "0123456789"[d]
  }

  /** The decimal text of a natural number, most significant digit first. */
  function NatToDecimal(n: nat): (s: string)
    ensures 1 <= |s|
    ensures forall k :: 0 <= k < |s| ==> '0' <= s[k] <= '9'
    ensures n < 10 <==> |s| == 1
    decreases n
  {
    if n < 10 then [DigitChar(n)] else NatToDecimal(n / 10) + [DigitChar(n % 10)]
  }

  /** Python's `str(i)` on an integer. */
  function IntToDecimal(i: int): (s: string)
    ensures 1 <= |s|
    ensures i < 0 <==> s[0] == '-'
    ensures forall k :: 0 <= k < |s| ==> '0' <= s[k] <= '9' || (k == 0 && s[k] == '-')
  {
    if i < 0 then "-" + NatToDecimal(-i) else NatToDecimal(i)
  }

  /**
   * Python's `str(v)`: a string is its own text, `None` prints as the four
   * letters "None", and an integer as its decimal text, which never spells "None".
   */
  function ToStr(v: Scalar): (r: string)
    ensures v.Str? ==> r == v.s
    ensures v.Null? ==> r == "None"
    ensures v.Int? ==> |r| >= 1 && forall k :: 0 <= k < |r| ==> '0' <= r[k] <= '9' || r[k] == '-'
    ensures r == "None" ==> v == Null || v == Str("None")
  {
    match v
    case Null => "None"
    case Int(i) => IntToDecimal(i)
    case Str(s) => s
  }

  /** How a scalar lands in a nullable String column: null stays null, anything else as its text. */
  function Column(v: Scalar): (r: Option<string>)
    ensures r.None? <==> v.Null?
    ensures r.Some? ==> r.value == ToStr(v)
  {
    if v.Null? then None else Some(ToStr(v))
  }

  lemma {:induction false} NatToDecimalInjective(a: nat, b: nat)
    requires NatToDecimal(a) == NatToDecimal(b)
    ensures a == b
    decreases a
  {
    var s := NatToDecimal(a);
    if a < 10 || b < 10 {
      assert |s| == 1;
      assert a < 10 && b < 10;
      assert s[0] == DigitChar(a) && s[0] == DigitChar(b);
    } else {
      var n := |s|;
      assert s == NatToDecimal(a / 10) + [DigitChar(a % 10)];
      assert s == NatToDecimal(b / 10) + [DigitChar(b % 10)];
      assert s[n - 1] == DigitChar(a % 10) && s[n - 1] == DigitChar(b % 10);
      assert NatToDecimal(a / 10) == s[..n - 1] == NatToDecimal(b / 10);
      NatToDecimalInjective(a / 10, b / 10);
    }
  }

  /** Two integers print to the same text only when they are equal. */
  lemma IntToDecimalInjective(a: int, b: int)
    requires IntToDecimal(a) == IntToDecimal(b)
    ensures a == b
  {
    var s := IntToDecimal(a);
    if a < 0 {
      assert b < 0;
      assert s[1..] == NatToDecimal(-a) && s[1..] == NatToDecimal(-b);
      NatToDecimalInjective(-a, -b);
    } else {
      assert b >= 0;
      NatToDecimalInjective(a, b);
    }
  }
}
