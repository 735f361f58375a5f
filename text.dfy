/** Strings as the templates and `__str__` methods build them: decimal digits
    of a natural number, Python's `str.join`, and comma stripping. */
module Text {

  predicate IsDigit(c: char)
  {
    '0' <= c <= '9'
  }

  predicate AllDigits(s: string)
  {
    forall k :: 0 <= k < |s| ==> IsDigit(s[k])
  }

  function DigitChar(d: nat): (c: char)
    requires d < 10
    ensures IsDigit(c) && c as int - '0' as int == d
  {
    (d + '0' as int) as char
  }

  /** The decimal representation of `n`, as Python's `str(n)` writes it:
      digits only, at least one, and no leading zero except for 0 itself. */
  function NatDigits(n: nat): (s: string)
    ensures |s| >= 1 && AllDigits(s)
    ensures s[0] == '0' ==> n == 0 && s == "0"
    decreases n
  {
    if n < 10 then [DigitChar(n)] else NatDigits(n / 10) + [DigitChar(n % 10)]
  }

  /** The number a string of decimal digits denotes (an independent reader
      for `NatDigits`). */
  function DigitsValue(s: string): nat
    requires AllDigits(s)
  {
    if s == [] then 0
    else DigitsValue(s[..|s| - 1]) * 10 + (s[|s| - 1] as int - '0' as int)
  }

  lemma {:induction false} DigitsRoundTrip(n: nat)
    ensures DigitsValue(NatDigits(n)) == n
    decreases n
  {
    if n >= 10 {
      var s := NatDigits(n);
      assert s[..|s| - 1] == NatDigits(n / 10);
      DigitsRoundTrip(n / 10);
    }
  }

  /** The concatenation of `parts` with no separator. */
  function Concat(parts: seq<string>): string
  {
    if parts == [] then "" else Concat(parts[..|parts| - 1]) + parts[|parts| - 1]
  }

  /** Python's `sep.join(parts)`. */
  function Join(sep: string, parts: seq<string>): string
  {
    if parts == [] then ""
    else if |parts| == 1 then parts[0]
    else Join(sep, parts[..|parts| - 1]) + sep + parts[|parts| - 1]
  }

  /** `s` with every comma removed. */
  function StripCommas(s: string): (r: string)
    ensures CommaFree(r)
    ensures |r| <= |s|
  {
    if s == [] then ""
    else StripCommas(s[..|s| - 1]) + (if s[|s| - 1] == ',' then "" else [s[|s| - 1]])
  }

  predicate CommaFree(s: string)
  {
    forall k :: 0 <= k < |s| ==> s[k] != ','
  }

  lemma {:induction false} DigitsCommaFree(s: string)
    requires AllDigits(s)
    ensures CommaFree(s)
  {
  }

  lemma {:induction false} StripCommasAppend(a: string, b: string)
    ensures StripCommas(a + b) == StripCommas(a) + StripCommas(b)
    decreases |b|
  {
    if b != [] {
      var b' := b[..|b| - 1];
      assert (a + b)[..|a + b| - 1] == a + b';
      StripCommasAppend(a, b');
    } else {
      assert a + b == a;
    }
  }

  lemma {:induction false} StripCommasFree(s: string)
    requires CommaFree(s)
    ensures StripCommas(s) == s
    decreases |s|
  {
    if s != [] {
      StripCommasFree(s[..|s| - 1]);
      assert s == s[..|s| - 1] + [s[|s| - 1]];
    }
  }

  lemma {:induction false} StripCommasBeforeFree(s: string, tail: string)
    requires CommaFree(tail)
    ensures StripCommas(s + tail) == StripCommas(s) + tail
  {
    StripCommasAppend(s, tail);
    StripCommasFree(tail);
  }

  lemma {:induction false} StripCommasAfterFree(head: string, s: string)
    requires CommaFree(head)
    ensures StripCommas(head + s) == head + StripCommas(s)
  {
    StripCommasAppend(head, s);
    StripCommasFree(head);
  }

  /** Joining comma-free parts with "," and removing the commas again gives
      back their plain concatenation. */
  lemma {:induction false} StripJoin(parts: seq<string>)
    requires forall k :: 0 <= k < |parts| ==> CommaFree(parts[k])
    ensures StripCommas(Join(",", parts)) == Concat(parts)
    decreases |parts|
  {
    if |parts| == 1 {
      StripCommasFree(parts[0]);
      assert Concat(parts) == Concat([]) + parts[0];
    } else if |parts| > 1 {
      var init := parts[..|parts| - 1];
      var last := parts[|parts| - 1];
      StripJoin(init);
      StripCommasAppend(Join(",", init) + ",", last);
      StripCommasAppend(Join(",", init), ",");
      StripCommasFree(last);
      assert StripCommas(",") == "" by {
        assert ","[..0] == "";
      }
    }
  }

  lemma {:induction false} JoinSnoc(sep: string, parts: seq<string>, last: string)
    requires parts != []
    ensures Join(sep, parts + [last]) == Join(sep, parts) + sep + last
  {
    assert (parts + [last])[..|parts|] == parts;
  }

  lemma {:induction false} ConcatSnoc(parts: seq<string>, last: string)
    ensures Concat(parts + [last]) == Concat(parts) + last
  {
    assert (parts + [last])[..|parts|] == parts;
  }

  /** The longest prefix of `s` made of decimal digits. */
  function LeadingDigits(s: string): (r: string)
    ensures AllDigits(r) && |r| <= |s| && r == s[..|r|]
  {
    if s == [] || !IsDigit(s[0]) then "" else [s[0]] + LeadingDigits(s[1..])
  }

  lemma {:induction false} LeadingDigitsOf(digits: string, rest: string)
    requires AllDigits(digits)
    requires rest != [] && !IsDigit(rest[0])
    ensures LeadingDigits(digits + rest) == digits
    decreases |digits|
  {
    if digits == [] {
      assert digits + rest == rest;
    } else {
      assert (digits + rest)[1..] == digits[1..] + rest;
      LeadingDigitsOf(digits[1..], rest);
      assert digits == [digits[0]] + digits[1..];
    }
  }
}
