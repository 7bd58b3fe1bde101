/** Properties of the value rules: decimal round trip, 32-bit increment, equality. */
module ValueProps {
  import opened Wrappers
  import opened Text
  import opened Values

  /** Reading back the decimal spelling of `n` gives `n`. */
  lemma {:induction false} DigitsValueOfDecimal(n: nat)
    ensures DigitsValue(Decimal(n)) == n
    decreases n
  {
    if n >= 10 {
      var s := Decimal(n / 10);
      var t := s + [DigitChar(n % 10)];
      assert t[..|t| - 1] == s;
      DigitsValueOfDecimal(n / 10);
    }
  }

  /** `Integer.parseInt` inverts the decimal spelling of every non-negative
      `int`, and rejects the spelling of every larger number. */
  lemma ParseDecimal(n: nat)
    ensures ParseInt32(Decimal(n)) == if n <= IntMax then Some(n as int) else None
  {
    DigitsValueOfDecimal(n);
  }

  /** ... and, after a minus sign, of every negative `int` down to -2^31. */
  lemma ParseNegativeDecimal(n: nat)
    ensures ParseInt32("-" + Decimal(n)) == if n <= -IntMin then Some(0 - n as int) else None
  {
    DigitsValueOfDecimal(n);
    assert ("-" + Decimal(n))[1..] == Decimal(n);
  }

  /** Text that is not an optional sign followed by digits does not parse. */
  lemma ParseRejectsNonDigits(s: string, k: nat)
    requires 0 < k < |s| && !IsDigit(s[k])
    ensures ParseInt32(s) == None
  {
    if s[0] == '-' || s[0] == '+' {
      assert s[1..][k - 1] == s[k];
    }
  }

  /** Java's `currentPhase++`: exact below `Integer.MAX_VALUE`, wrapping at it. */
  lemma IncrementWraps(i: int)
    requires InInt32(i)
    ensures i < IntMax ==> Wrap32(i + 1) == i + 1
    ensures i == IntMax ==> Wrap32(i + 1) == IntMin
  {
  }

  /** Equality is reflexive and symmetric, `null` equals only `null`, and
      values of different kinds are never equal. */
  lemma EqualityRules(a: Value, b: Value)
    ensures Equals(a, a)
    ensures Equals(a, b) == Equals(b, a)
    ensures Equals(Nil, b) <==> b.Nil?
    ensures Equals(Int(1), Str("1")) == false
  {
  }
}
