/** Money amounts. Every money field of the shop (`price`, `cost_price`,
    `total_price`, `amount`) is a decimal with exactly two places, so the model
    holds each one as a whole number of paise (hundredths of a rupee). */
module Money {
  import opened Optional
  import opened Text

  function Magnitude(p: int): nat
  {
    if p < 0 then -p else p
  }

  /** The part before the decimal point when `p` paise are written with two
      decimals: a minus sign for a negative amount, then the whole rupees. */
  function IntPart(p: int): (s: string)
    ensures |s| >= 1 && CommaFree(s)
    ensures p >= 0 ==> AllDigits(s)
  {
    var digits := NatDigits(Magnitude(p) / 100);
    if p < 0 then "-" + digits else digits
  }

  /** The two digits after the decimal point. */
  function DecPart(p: int): (s: string)
    ensures |s| == 2 && AllDigits(s)
  {
    var c := Magnitude(p) % 100;
    [DigitChar(c / 10), DigitChar(c % 10)]
  }

  lemma {:induction false} DecPartValue(p: int)
    ensures DigitsValue(DecPart(p)) == Magnitude(p) % 100
  {
    var c := Magnitude(p) % 100;
    var s := DecPart(p);
    assert s[..1] == [DigitChar(c / 10)] && [DigitChar(c / 10)][..0] == [];
    assert DigitsValue(s[..1]) == c / 10;
  }

  /** `p` paise written with exactly two decimals, as `"{:.2f}"` formats the
      amount and as `str()` prints a two-place decimal field. */
  function Fixed2(p: int): string
  {
    IntPart(p) + "." + DecPart(p)
  }

  /** A negative amount is written as a minus sign in front of its
      magnitude. */
  lemma {:induction false} Fixed2Negate(p: int)
    requires p < 0
    ensures Fixed2(p) == "-" + Fixed2(-p)
  {
    assert IntPart(p) == "-" + IntPart(-p);
    assert DecPart(p) == DecPart(-p);
  }

  /** Reads a two-decimal amount back into paise: an optional minus sign,
      at least one digit, a point and exactly two digits. */
  function ParseFixed2(s: string): Option<int>
  {
    var neg := |s| > 0 && s[0] == '-';
    var body := if neg then s[1..] else s;
    var n := |body|;
    if n < 4 || body[n - 3] != '.' then None
    else
      var whole, frac := body[..n - 3], body[n - 2..];
      if !AllDigits(whole) || !AllDigits(frac) then None
      else
        var v := DigitsValue(whole) * 100 + DigitsValue(frac);
        Some(if neg then -v else v)
  }

  /** The two-decimal text of an amount reads back as the same amount. */
  lemma {:induction false} Fixed2RoundTrip(p: int)
    ensures ParseFixed2(Fixed2(p)) == Some(p)
  {
    var m := Magnitude(p);
    var digits := NatDigits(m / 100);
    var frac := DecPart(p);
    DigitsRoundTrip(m / 100);
    DecPartValue(p);
    Recombine(m);
    if p < 0 {
      assert Fixed2(p) == "-" + digits + "." + frac;
      ParseNegative(digits, frac, m);
    } else {
      assert Fixed2(p) == digits + "." + frac;
      ParsePlain(digits, frac, m);
    }
  }

  /** Whole rupees and the paise left over make up the amount again. */
  lemma {:induction false} Recombine(m: nat)
    ensures (m / 100) * 100 + m % 100 == m
  {
  }

  /** Reading digits, a point and two digits. */
  lemma {:induction false} ParsePlain(whole: string, frac: string, v: int)
    requires |whole| >= 1 && AllDigits(whole) && |frac| == 2 && AllDigits(frac)
    requires DigitsValue(whole) * 100 + DigitsValue(frac) == v
    ensures ParseFixed2(whole + "." + frac) == Some(v)
  {
    var body := whole + "." + frac;
    var n := |body|;
    assert body[..n - 3] == whole;
    assert body[n - 2..] == frac;
    assert IsDigit(body[0]);
  }

  /** Reading a minus sign, digits, a point and two digits. */
  lemma {:induction false} ParseNegative(whole: string, frac: string, v: int)
    requires |whole| >= 1 && AllDigits(whole) && |frac| == 2 && AllDigits(frac)
    requires DigitsValue(whole) * 100 + DigitsValue(frac) == v
    ensures ParseFixed2("-" + whole + "." + frac) == Some(-v)
  {
    var body := whole + "." + frac;
    var n := |body|;
    assert body[..n - 3] == whole;
    assert body[n - 2..] == frac;
    assert ("-" + whole + "." + frac)[1..] == body;
  }
}
