/** The `rupees` template filter: a two-decimal amount with its integer part
    grouped in the Indian (lakh/crore) pattern. The last three characters of
    the integer part stay together and the ones before them go in pairs, so
    2540400 becomes "25,40,400.00". */
module CurrencyFilters {
  import opened Seqs
  import opened Text
  import opened Money

  /** What the filter may be handed: nothing (`None`), an amount (held
      exactly, in paise), or a value that does not convert to a number. */
  datatype FilterInput = NoValue | Amount(paise: int) | NotNumeric(raw: string)

  /** The groups of `rest`, taken two at a time from its right end (the
      leftmost group may hold one character), in the order the filter's loop
      appends them: rightmost group first. */
  function PairsFromRight(rest: string): (vals: seq<string>)
    ensures rest == [] <==> vals == []
    decreases |rest|
  {
    if |rest| <= 1 then (if rest == [] then [] else [rest])
    else [rest[|rest| - 2..]] + PairsFromRight(rest[..|rest| - 2])
  }

  /** Every group but the last (leftmost) has two characters; the last has
      one or two and is a prefix of `rest`. */
  lemma {:induction false} PairsShape(rest: string)
    ensures var vals := PairsFromRight(rest);
      && (forall k :: 0 <= k < |vals| - 1 ==> |vals[k]| == 2)
      && (vals != [] ==> 1 <= |vals[|vals| - 1]| <= 2 && vals[|vals| - 1] == rest[..|vals[|vals| - 1]|])
    decreases |rest|
  {
    if |rest| > 1 {
      PairsShape(rest[..|rest| - 2]);
    }
  }

  /** Read leftmost first, the groups spell `rest` again. */
  lemma {:induction false} PairsConcat(rest: string)
    ensures Concat(Reverse(PairsFromRight(rest))) == rest
    decreases |rest|
  {
    if |rest| == 1 {
      SinglePair(rest);
      ConcatSingle(rest);
    } else if |rest| > 1 {
      var head := rest[|rest| - 2..];
      var init := rest[..|rest| - 2];
      PairsStep(rest);
      PairsConcat(init);
      ConcatReverseCons(head, PairsFromRight(init), init);
      assert init + head == rest;
    }
  }

  lemma {:induction false} PairsStep(rest: string)
    requires |rest| > 1
    ensures PairsFromRight(rest) == [rest[|rest| - 2..]] + PairsFromRight(rest[..|rest| - 2])
  {
  }

  lemma {:induction false} ConcatSingle(c: string)
    ensures Concat([c]) == c
  {
    ConcatSnoc([], c);
    assert [] + [c] == [c];
  }

  /** Putting a group in front of the ones that spell `init`, read in
      reverse, spells `init` followed by that group. */
  lemma {:induction false} ConcatReverseCons(head: string, tail: seq<string>, init: string)
    requires Concat(Reverse(tail)) == init
    ensures Concat(Reverse([head] + tail)) == init + head
  {
    ReverseCons(head, tail);
    ConcatSnoc(Reverse(tail), head);
  }

  /** Each group is a piece of `rest`, so none holds a comma when `rest`
      holds none. */
  lemma {:induction false} PairsCommaFree(rest: string)
    requires CommaFree(rest)
    ensures forall k :: 0 <= k < |PairsFromRight(rest)| ==> CommaFree(PairsFromRight(rest)[k])
    decreases |rest|
  {
    if |rest| > 1 {
      PairsCommaFree(rest[..|rest| - 2]);
    }
  }

  /** The comma-separated groups of an integer part longer than three
      characters, leftmost first; the last group is its last three
      characters. */
  function Groups(integerPart: string): seq<string>
    requires |integerPart| > 3
  {
    var n := |integerPart|;
    Reverse(PairsFromRight(integerPart[..n - 3])) + [integerPart[n - 3..]]
  }

  /** An integer part and its decimals as the filter writes them: unchanged
      when the integer part has at most three characters, grouped
      otherwise. */
  function Grouped(integerPart: string, decimalPart: string): string
  {
    if |integerPart| <= 3 then integerPart + "." + decimalPart
    else Join(",", Groups(integerPart)) + "." + decimalPart
  }

  /** What the filter returns, as a function of its input. */
  function RupeesText(value: FilterInput): string
  {
    match value
    case NoValue => "0.00"
    case NotNumeric(raw) => raw
    case Amount(p) => Grouped(IntPart(p), DecPart(p))
  }

  /** The filter itself: `None` gives "0.00", a value that is not a number
      comes back unchanged, and an amount is written with two decimals and
      its integer part grouped. */
  method Rupees(value: FilterInput) returns (r: string)
    ensures r == RupeesText(value)
  {
    match value {
      case NoValue =>
        return "0.00";
      case NotNumeric(raw) =>
        return raw;
      case Amount(p) =>
        var s := Fixed2(p);
        // `s.split('.')`: the point occurs exactly once, after the integer part
        var integerPart, decimalPart := IntPart(p), DecPart(p);
        if |integerPart| <= 3 {
          return s;
        }
        var last3 := integerPart[|integerPart| - 3..];
        var rest := integerPart[..|integerPart| - 3];
        var vals: seq<string> := [];
        var i := |rest| - 1;
        assert rest[..i + 1] == rest;
        while i >= 0
          invariant -2 <= i < |rest|
          invariant vals + PairsFromRight(rest[..if i < 0 then 0 else i + 1]) == PairsFromRight(rest)
          decreases i + 2
        {
          var start := if i - 1 > 0 then i - 1 else 0;
          assert PairsFromRight(rest[..i + 1]) == [rest[start..i + 1]] + PairsFromRight(rest[..start]) by {
            var t := rest[..i + 1];
            if i >= 1 {
              assert t[|t| - 2..] == rest[start..i + 1];
              assert t[..|t| - 2] == rest[..start];
            } else {
              assert t == rest[start..i + 1];
              assert rest[..start] == [];
            }
          }
          vals := vals + [rest[start..i + 1]];
          i := i - 2;
        }
        assert rest[..0] == [];
        assert vals == PairsFromRight(rest) by {
          assert vals + [] == vals;
        }
        var newRest := Join(",", Reverse(vals));
        r := newRest + "," + last3 + "." + decimalPart;
        assert Groups(integerPart) == Reverse(vals) + [last3];
        JoinSnoc(",", Reverse(vals), last3);
    }
  }

  /** The last group of a long integer part is its last three characters,
      and there is at least one group in front of it. */
  lemma {:induction false} GroupsLast(integerPart: string)
    requires |integerPart| > 3
    ensures var gs := Groups(integerPart);
      |gs| >= 2 && gs[|gs| - 1] == integerPart[|integerPart| - 3..]
  {
  }

  /** The first group has one or two characters and begins the integer
      part. */
  lemma {:induction false} GroupsFirst(integerPart: string)
    requires |integerPart| > 3
    ensures var gs := Groups(integerPart);
      1 <= |gs[0]| <= 2 && gs[0][0] == integerPart[0]
  {
    var rest := integerPart[..|integerPart| - 3];
    var pairs := PairsFromRight(rest);
    PairsShape(rest);
    ReverseAt(pairs);
    assert Groups(integerPart)[0] == pairs[|pairs| - 1];
  }

  /** Every group between the first and the last has two characters. */
  lemma {:induction false} GroupsMiddle(integerPart: string)
    requires |integerPart| > 3
    ensures var gs := Groups(integerPart);
      forall k :: 0 < k < |gs| - 1 ==> |gs[k]| == 2
  {
    var rest := integerPart[..|integerPart| - 3];
    var pairs := PairsFromRight(rest);
    PairsShape(rest);
    var gs := Groups(integerPart);
    ReverseAt(pairs);
    assert forall k :: 0 <= k < |pairs| ==> gs[k] == pairs[|pairs| - 1 - k];
  }

  /** No group holds a comma when the integer part holds none. */
  lemma {:induction false} GroupsCommaFree(integerPart: string)
    requires |integerPart| > 3 && CommaFree(integerPart)
    ensures var gs := Groups(integerPart);
      forall k :: 0 <= k < |gs| ==> CommaFree(gs[k])
  {
    var rest := integerPart[..|integerPart| - 3];
    var pairs := PairsFromRight(rest);
    PairsCommaFree(rest);
    var gs := Groups(integerPart);
    ReverseAt(pairs);
    assert forall k :: 0 <= k < |pairs| ==> gs[k] == pairs[|pairs| - 1 - k];
  }

  /** Read left to right, the groups spell the integer part. */
  lemma {:induction false} GroupsConcat(integerPart: string)
    requires |integerPart| > 3
    ensures Concat(Groups(integerPart)) == integerPart
  {
    var n := |integerPart|;
    var rest, last := integerPart[..n - 3], integerPart[n - 3..];
    var front := Reverse(PairsFromRight(rest));
    assert Groups(integerPart) == front + [last];
    PairsConcat(rest);
    ConcatSnoc(front, last);
    assert rest + last == integerPart;
  }

  /** The part of a grouped amount in front of the point. */
  function GroupedFront(integerPart: string): string
  {
    if |integerPart| <= 3 then integerPart else Join(",", Groups(integerPart))
  }

  lemma {:induction false} GroupedSplit(integerPart: string, decimalPart: string)
    ensures Grouped(integerPart, decimalPart) == GroupedFront(integerPart) + ("." + decimalPart)
  {
  }

  /** Removing the commas in front of the point gives back the integer
      part. */
  lemma {:induction false} GroupedFrontStrips(integerPart: string)
    requires CommaFree(integerPart)
    ensures StripCommas(GroupedFront(integerPart)) == integerPart
  {
    if |integerPart| <= 3 {
      StripCommasFree(integerPart);
    } else {
      GroupsCommaFree(integerPart);
      GroupsConcat(integerPart);
      StripJoin(Groups(integerPart));
    }
  }

  /** Removing the commas from a grouped amount gives back the integer part,
      the point and the decimals. */
  lemma {:induction false} GroupedStrips(integerPart: string, decimalPart: string)
    requires CommaFree(integerPart) && CommaFree(decimalPart)
    ensures StripCommas(Grouped(integerPart, decimalPart)) == integerPart + "." + decimalPart
  {
    var tail := "." + decimalPart;
    assert CommaFree(tail);
    GroupedSplit(integerPart, decimalPart);
    StripCommasBeforeFree(GroupedFront(integerPart), tail);
    GroupedFrontStrips(integerPart);
    assert integerPart + "." + decimalPart == integerPart + tail;
  }

  /** Grouping changes nothing exactly when the integer part has at most
      three characters. */
  lemma {:induction false} GroupedUnchangedIffShort(integerPart: string, decimalPart: string)
    requires CommaFree(integerPart) && CommaFree(decimalPart)
    ensures Grouped(integerPart, decimalPart) == integerPart + "." + decimalPart
            <==> |integerPart| <= 3
  {
    if |integerPart| > 3 {
      var gs := Groups(integerPart);
      GroupsLast(integerPart);
      var init := gs[..|gs| - 1];
      assert gs == init + [gs[|gs| - 1]];
      JoinSnoc(",", init, gs[|gs| - 1]);
      var r := Grouped(integerPart, decimalPart);
      assert r[|Join(",", init)|] == ',';
      assert !CommaFree(r);
    }
  }

  /** The formatted amount is the plain two-decimal text with commas added:
      removing every comma gives that text back. */
  lemma {:induction false} RupeesStripsToFixed2(p: int)
    ensures StripCommas(RupeesText(Amount(p))) == Fixed2(p)
  {
    DigitsCommaFree(DecPart(p));
    GroupedStrips(IntPart(p), DecPart(p));
  }

  /** The filter leaves the two-decimal text unchanged exactly when the
      integer part has at most three characters; otherwise it inserts
      commas. */
  lemma {:induction false} RupeesUnchangedIffShort(p: int)
    ensures RupeesText(Amount(p)) == Fixed2(p) <==> |IntPart(p)| <= 3
  {
    DigitsCommaFree(DecPart(p));
    GroupedUnchangedIffShort(IntPart(p), DecPart(p));
  }

  /** The group in front of the point is the last three characters of the
      integer part, the two decimals follow it unchanged, and the groups
      before it have two characters each except the leftmost, which has one
      or two. */
  lemma {:induction false} RupeesGroupShape(p: int)
    requires |IntPart(p)| > 3
    ensures var integerPart := IntPart(p);
      var gs := Groups(integerPart);
      && RupeesText(Amount(p)) == Join(",", gs) + "." + DecPart(p)
      && |gs| >= 2
      && gs[|gs| - 1] == integerPart[|integerPart| - 3..]
      && 1 <= |gs[0]| <= 2
      && (forall k :: 0 < k < |gs| - 1 ==> |gs[k]| == 2)
  {
    GroupsLast(IntPart(p));
    GroupsFirst(IntPart(p));
    GroupsMiddle(IntPart(p));
  }

  /** The digits of the filter's documented example, 2540400 rupees. */
  lemma {:induction false} ExampleDigits()
    ensures NatDigits(2540400) == "2540400"
  {
    assert NatDigits(25) == "25";
    assert NatDigits(254) == NatDigits(25) + "4";
    assert NatDigits(2540) == NatDigits(254) + "0";
    assert NatDigits(25404) == NatDigits(2540) + "4";
    assert NatDigits(254040) == NatDigits(25404) + "0";
    assert NatDigits(2540400) == NatDigits(254040) + "0";
  }

  lemma {:induction false} ExampleParts()
    ensures IntPart(254040000) == "2540400" && DecPart(254040000) == "00"
  {
    ExampleDigits();
    assert Magnitude(254040000) / 100 == 2540400;
    IntPartOf(254040000, "2540400");
    DecPartWhole(254040000);
  }

  /** The integer part of an amount whose whole rupees are written `digits`. */
  lemma {:induction false} IntPartOf(p: int, digits: string)
    requires NatDigits(Magnitude(p) / 100) == digits
    ensures IntPart(p) == if p < 0 then "-" + digits else digits
  {
  }

  /** A whole number of rupees has decimals "00". */
  lemma {:induction false} DecPartWhole(p: int)
    requires Magnitude(p) % 100 == 0
    ensures DecPart(p) == "00"
  {
  }

  /** The groups of a long integer part, given the pairs in front of its
      last three characters. */
  lemma {:induction false} GroupsOf(integerPart: string, front: seq<string>)
    requires |integerPart| > 3
    requires Reverse(PairsFromRight(integerPart[..|integerPart| - 3])) == front
    ensures Groups(integerPart) == front + [integerPart[|integerPart| - 3..]]
  {
  }

  /** A long integer part is written as its groups joined by commas. */
  lemma {:induction false} GroupedOf(integerPart: string, decimalPart: string, front: string)
    requires |integerPart| > 3
    requires Join(",", Groups(integerPart)) == front
    ensures Grouped(integerPart, decimalPart) == front + "." + decimalPart
  {
  }

  lemma {:induction false} ExamplePairs()
    ensures Reverse(PairsFromRight("2540")) == ["25", "40"]
  {
    assert "2540"[2..] == "40" && "2540"[..2] == "25";
    assert PairsFromRight("25") == ["25"] + PairsFromRight("") by {
      assert "25"[0..] == "25" && "25"[..0] == "";
    }
    assert PairsFromRight("2540") == ["40", "25"];
    assert Reverse(["40", "25"]) == ["25", "40"];
  }

  lemma {:induction false} JoinThree(a: string, b: string, c: string)
    ensures Join(",", [a, b, c]) == a + "," + b + "," + c
  {
    JoinTwo(a, b);
    JoinSnoc(",", [a, b], c);
    assert [a, b] + [c] == [a, b, c];
  }

  lemma {:induction false} JoinTwo(a: string, b: string)
    ensures Join(",", [a, b]) == a + "," + b
  {
    assert [a, b][..1] == [a];
  }

  lemma {:induction false} ExampleGrouped()
    ensures Grouped("2540400", "00") == "25,40,400.00"
  {
    assert "2540400"[..4] == "2540" && "2540400"[4..] == "400";
    ExamplePairs();
    GroupsOf("2540400", ["25", "40"]);
    assert ["25", "40"] + ["400"] == ["25", "40", "400"];
    JoinThree("25", "40", "400");
    GroupedOf("2540400", "00", "25,40,400");
  }

  /** The example of the filter's documentation: 2540400 is written
      "25,40,400.00". */
  lemma {:induction false} RupeesExample()
    ensures RupeesText(Amount(254040000)) == "25,40,400.00"
  {
    ExampleParts();
    ExampleGrouped();
  }

  lemma {:induction false} NegativeDigits()
    ensures NatDigits(123) == "123" && NatDigits(12345) == "12345"
  {
    assert NatDigits(123) == NatDigits(12) + "3";
    assert NatDigits(1234) == NatDigits(123) + "4";
    assert NatDigits(12345) == NatDigits(1234) + "5";
  }

  lemma {:induction false} NegativeParts()
    ensures IntPart(-12300) == "-123" && DecPart(-12300) == "00"
    ensures IntPart(-1234500) == "-12345" && DecPart(-1234500) == "00"
  {
    NegativeDigits();
    IntPartOf(-12300, "123");
    DecPartWhole(-12300);
    IntPartOf(-1234500, "12345");
    DecPartWhole(-1234500);
  }

  lemma {:induction false} NegativeGroupedShort()
    ensures Grouped("-123", "00") == "-,123.00"
  {
    assert "-123"[..1] == "-" && "-123"[1..] == "123";
    SinglePair("-");
    GroupsOf("-123", ["-"]);
    assert ["-"] + ["123"] == ["-", "123"];
    JoinTwo("-", "123");
    GroupedOf("-123", "00", "-,123");
  }

  /** A single character forms one group. */
  lemma {:induction false} SinglePair(c: string)
    requires |c| == 1
    ensures Reverse(PairsFromRight(c)) == [c]
  {
    assert PairsFromRight(c) == [c];
    ReverseCons(c, []);
  }

  lemma {:induction false} NegativePairs()
    ensures Reverse(PairsFromRight("-12")) == ["-", "12"]
  {
    assert "-12"[1..] == "12" && "-12"[..1] == "-";
    assert PairsFromRight("-12") == ["12", "-"];
    assert Reverse(["12", "-"]) == ["-", "12"];
  }

  lemma {:induction false} NegativeGroupedLong()
    ensures Grouped("-12345", "00") == "-,12,345.00"
  {
    assert "-12345"[..3] == "-12" && "-12345"[3..] == "345";
    NegativePairs();
    GroupsOf("-12345", ["-", "12"]);
    assert ["-", "12"] + ["345"] == ["-", "12", "345"];
    JoinThree("-", "12", "345");
    GroupedOf("-12345", "00", "-,12,345");
  }

  /** As written, the filter treats a minus sign as one more digit: -123
      becomes "-,123.00" and -12345 becomes "-,12,345.00". */
  lemma {:induction false} RupeesSignAsDigit()
    ensures RupeesText(Amount(-12300)) == "-,123.00"
    ensures RupeesText(Amount(-1234500)) == "-,12,345.00"
  {
    NegativeParts();
    NegativeGroupedShort();
    NegativeGroupedLong();
  }

  /** The filter with the sign set aside: a negative amount is written as a
      minus sign in front of its magnitude, formatted as before. */
  function RupeesSigned(value: FilterInput): string
  {
    if value.Amount? then SignedAmountText(value.paise) else RupeesText(value)
  }

  /** An amount written with the sign set aside. */
  function SignedAmountText(p: int): string
  {
    if p < 0 then "-" + RupeesText(Amount(-p)) else RupeesText(Amount(p))
  }

  /** Grouping keeps the first character of the integer part in front. */
  lemma {:induction false} GroupedStartsLikeIntegerPart(integerPart: string, decimalPart: string)
    requires |integerPart| >= 1 && CommaFree(integerPart)
    ensures var r := Grouped(integerPart, decimalPart); |r| >= 1 && r[0] == integerPart[0]
  {
    if |integerPart| > 3 {
      GroupsFirst(integerPart);
      GroupsLast(integerPart);
      JoinHead(Groups(integerPart));
    }
  }

  /** A negative amount's commas come out to its two-decimal text. */
  lemma {:induction false} RupeesSignedStrips(p: int)
    requires p < 0
    ensures StripCommas("-" + RupeesText(Amount(-p))) == Fixed2(p)
  {
    var body := RupeesText(Amount(-p));
    RupeesStripsToFixed2(-p);
    MinusStrips(body, Fixed2(-p));
    Fixed2Negate(p);
  }

  lemma {:induction false} MinusStrips(body: string, plain: string)
    requires StripCommas(body) == plain
    ensures StripCommas("-" + body) == "-" + plain
  {
    StripCommasAfterFree("-", body);
  }

  /** The text of a non-negative amount starts with a digit. */
  lemma {:induction false} RupeesStartsWithDigit(m: int)
    requires m >= 0
    ensures var r := RupeesText(Amount(m)); |r| >= 1 && IsDigit(r[0])
  {
    GroupedStartsLikeIntegerPart(IntPart(m), DecPart(m));
  }

  /** With the sign set aside, removing the commas still gives the plain
      two-decimal text, and a non-negative amount is formatted as before. */
  lemma {:induction false} RupeesSignedCorrect(p: int)
    ensures StripCommas(SignedAmountText(p)) == Fixed2(p)
    ensures p >= 0 ==> SignedAmountText(p) == RupeesText(Amount(p))
  {
    if p < 0 {
      RupeesSignedStrips(p);
    } else {
      RupeesStripsToFixed2(p);
    }
  }

  /** With the sign set aside, a negative amount's minus sign is followed
      directly by a digit, never by a comma. */
  lemma {:induction false} RupeesSignedNegative(p: int)
    requires p < 0
    ensures var r := SignedAmountText(p); |r| >= 2 && r[0] == '-' && IsDigit(r[1])
  {
    RupeesStartsWithDigit(-p);
    MinusThenDigit(RupeesText(Amount(-p)));
  }

  lemma {:induction false} MinusThenDigit(t: string)
    requires |t| >= 1 && IsDigit(t[0])
    ensures var r := "-" + t; |r| >= 2 && r[0] == '-' && IsDigit(r[1])
  {
  }

  /** A join of several parts starts with the first part. */
  lemma {:induction false} JoinHead(parts: seq<string>)
    requires |parts| >= 1
    ensures |Join(",", parts)| >= |parts[0]|
    ensures Join(",", parts)[..|parts[0]|] == parts[0]
    decreases |parts|
  {
    if |parts| > 1 {
      JoinHead(parts[..|parts| - 1]);
    }
  }
}
