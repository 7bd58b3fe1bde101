/**
 * Run-time values of the script language and the rules defined on them:
 * equality, truthiness, 32-bit integer parsing and wrap-around.
 */
module Values {
  import opened Wrappers
  import opened Text

  /** A dynamic value.  `Nil` is Java's `null`; `NoValue(id)` is the
      marker object a built-in returns, one fresh instance per call, so the
      `id` stands for object identity. */
  datatype Value =
    | Int(i: int)
    | Str(s: string)
    | Bool(b: bool)
    | Nil
    | NoValue(id: nat)

  const IntMin: int := -0x8000_0000
  const IntMax: int := 0x7FFF_FFFF

  predicate InInt32(x: int) {
    IntMin <= x <= IntMax
  }

  /** Java `int` arithmetic: reduce into the 32-bit two's-complement range. */
  function Wrap32(x: int): (r: int)
    ensures InInt32(r)
    ensures (r - x) % 0x1_0000_0000 == 0
    ensures InInt32(x) ==> r == x
  {
    var m := (x - IntMin) % 0x1_0000_0000;
    m + IntMin
  }

  /** `equalsOperator`: `null = null`, `null` equals nothing else, and
      otherwise `left.equals(right)`, which never equates values of two
      different classes. */
  predicate Equals(left: Value, right: Value)
    ensures Equals(left, right) <==> left == right
  {
    if left.Nil? && right.Nil? then true
    else if left.Nil? then false
    else match (left, right)
      case (Int(x), Int(y)) => x == y
      case (Str(x), Str(y)) => x == y
      case (Bool(x), Bool(y)) => x == y
      case (NoValue(x), NoValue(y)) => x == y
      case _ => false
  }

  /** `toBoolean`: booleans are themselves, integers are true when non-zero,
      `null` is false, anything else is true. */
  predicate Truthy(v: Value)
    ensures !Truthy(v) <==> v == Nil || v == Bool(false) || v == Int(0)
  {
    match v
    case Bool(b) => b
    case Int(i) => i != 0
    case Nil => false
    case _ => true
  }

  function DigitValue(c: char): nat
    requires IsDigit(c)
  {
    c as int - '0' as int
  }

  function DigitChar(d: nat): (c: char)
    requires d < 10
    ensures IsDigit(c) && DigitValue(c) == d
  {
    ('0' as int + d) as char
  }

  /** The number a run of decimal digits denotes. */
  function DigitsValue(ds: string): nat
    requires forall k :: 0 <= k < |ds| ==> IsDigit(ds[k])
  {
    if ds == [] then 0 else DigitsValue(ds[..|ds| - 1]) * 10 + DigitValue(ds[|ds| - 1])
  }

  /** `Integer.parseInt`: an optional sign, then ASCII digits, in 32-bit range. */
  function ParseInt32(s: string): (r: Option<int>)
    ensures r.Some? ==> InInt32(r.value) && |s| > 0
    ensures r.Some? && r.value < 0 ==> s[0] == '-'
    ensures AllDigits(s) ==> r == if DigitsValue(s) <= IntMax then Some(DigitsValue(s) as int) else None
  {
    if s == [] then None
    else
      var negative := s[0] == '-';
      var digits := if s[0] == '-' || s[0] == '+' then s[1..] else s;
      if !AllDigits(digits) then None
      else
        var magnitude: int := DigitsValue(digits);
        var value: int := if negative then -magnitude else magnitude;
        if InInt32(value) then Some(value) else None
  }

  /** Decimal spelling of a natural number, no leading zeros. */
  function Decimal(n: nat): (s: string)
    ensures AllDigits(s)
    decreases n
  {
    if n < 10 then [DigitChar(n)] else Decimal(n / 10) + [DigitChar(n % 10)]
  }
}
