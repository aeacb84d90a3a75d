/** Concrete receipts and field values worked through the engine. Several
    examples take their literal strings as parameters fixed by `requires`:
    stated directly on literals, the verifier unfolds the parsers on them
    eagerly and runs out of resource. */
module ScoringExamples {
  import opened Wrappers
  import opened Text
  import opened Money
  import opened GoTime
  import opened Scoring

  /** Amount text as the receipts carry it parses to cents. */
  lemma {:induction false} MoneyExamples(a: string, b: string, c: string)
    requires a == "6.49" && b == "35.35" && c == "9.00"
    ensures ParseMoney(a) == Some(649)
    ensures ParseMoney(b) == Some(3535)
    ensures ParseMoney(c) == Some(900)
  {
    ParseFormatCents(649);
    assert FormatCents(649) == a;
    ParseFormatCents(3535);
    assert FormatCents(3535) == b;
    ParseFormatCents(900);
    assert FormatCents(900) == c;
  }

  /** A price of twelve units and two cent digits, as on the items priced
      "12.25" and "12.00" below. */
  lemma {:induction false} TwelveUnits(price: string, cents: string)
    requires |cents| == 2 && AllDigits(cents) && price == "12." + cents
    ensures MoneyOrZero(price) == 1200 + DigitsValue(cents)
  {
    DigitsValueSnoc("1", '2');
    assert "1" + ['2'] == "12";
    ParseMoneyDecimal("12", cents);
    assert "12" + "." + cents == price;
  }

  /** Text that Sscanf cannot read as a number at all parses to nothing and
      counts as 0: letters, the empty text and a lone point. */
  lemma {:induction false} MoneyFailureExamples()
    ensures ParseMoney("abc") == None && MoneyOrZero("abc") == 0
    ensures ParseMoney("") == None
    ensures ParseMoney(".") == None && MoneyOrZero(".") == 0
  {
    assert !IsDigit("abc"[0]);
    assert DotIndex(".") == 0;
  }

  /** Rule 1 on a name made only of letters. */
  lemma {:induction false} RetailerTarget()
    ensures RetailerPoints("Target") == 6
  {
    assert forall i :: 0 <= i < 6 ==> IsAlnum("Target"[i]);
    KeepAlnumOfAlnum("Target");
  }

  /** Rule 1 on "MMCorner Market" skips the remaining space. */
  lemma {:induction false} RetailerMMCornerMarket(name: string)
    requires name == "MMCorner Market"
    ensures RetailerPoints(name) == 14
  {
    var s := "MMCornerMarket";
    RetailerPointsInsert("MMCorner", ' ', "Market");
    assert "MMCorner" + [' '] + "Market" == name;
    assert "MMCorner" + "Market" == s;
    assert forall i :: 0 <= i < 14 ==> IsAlnum(s[i]);
    KeepAlnumOfAlnum(s);
  }

  /** Rule 1 skips the ampersand and both spaces. */
  lemma {:induction false} RetailerCornerMarket(name: string)
    requires name == "M&M Corner Market"
    ensures RetailerPoints(name) == 14
  {
    var s1, s2 := "MM Corner Market", "MMCorner Market";
    RetailerPointsInsert("M", '&', "M Corner Market");
    assert "M" + ['&'] + "M Corner Market" == name;
    assert "M" + "M Corner Market" == s1;
    RetailerPointsInsert("MM", ' ', "Corner Market");
    assert "MM" + [' '] + "Corner Market" == s1;
    assert "MM" + "Corner Market" == s2;
    RetailerMMCornerMarket(s2);
  }

  /** Rules 2, 3 and 6 at and around their boundaries. */
  lemma {:induction false} TotalExamples()
    ensures RoundDollarPoints(3535) == 0 && QuarterPoints(3535) == 0
    ensures RoundDollarPoints(900) == 50 && QuarterPoints(900) == 25
    ensures RoundDollarPoints(0) + QuarterPoints(0) == 75
    ensures OverTenPoints(1000) == 0 && OverTenPoints(1001) == 5
  {
  }

  /** Rule 4: four and five items both make two pairs. */
  lemma {:induction false} PairExamples()
    ensures PairPoints(4) == 10 && PairPoints(5) == 10
  {
  }

  /** Rule 7 on an odd day, an even day, an impossible date and a non-date. */
  lemma {:induction false} DateExamples()
    ensures OddDayPoints("2022-01-01") == 6
    ensures OddDayPoints("2022-01-02") == 0
    ensures OddDayPoints("2023-02-29") == 6
    ensures OddDayPoints("not a date") == 6
  {
    ParseFormatDate(2022, 1, 1);
    assert FormatDate(2022, 1, 1) == "2022-01-01";
    ParseFormatDate(2022, 1, 2);
    assert FormatDate(2022, 1, 2) == "2022-01-02";
    assert !ValidDate(2023, 2, 29);
  }

  /** Rule 8 inside the window, on both bounds and for a non-time. */
  lemma {:induction false} ClockExamples()
    ensures AfternoonPoints("14:33") == 10
    ensures AfternoonPoints("14:00") == 0
    ensures AfternoonPoints("16:00") == 0
    ensures AfternoonPoints("2pm") == 0
  {
    ParseFormatClock(14, 33);
    assert FormatClock(14, 33) == "14:33";
    ParseFormatClock(14, 0);
    assert FormatClock(14, 0) == "14:00";
    ParseFormatClock(16, 0);
    assert FormatClock(16, 0) == "16:00";
  }

  /** Rule 5 on an 18-character description priced 12.25: ceil(2.45) = 3. */
  lemma {:induction false} ItemCheesePizza(description: string, price: string)
    requires description == "Emils Cheese Pizza" && price == "12.25"
    ensures ItemPoints(Item(description, price)) == 3
  {
    assert |description| == 18 && description[0] == 'E' && description[17] == 'a';
    ItemPointsUntrimmed(Item(description, price));
    TwelveUnits(price, "25");
  }

  /** Trimming drops three leading and two trailing spaces. */
  lemma {:induction false} TrimPaddedDescription(description: string)
    requires description == "   Klarbrunn 12-PK 12 FL OZ  "
    ensures TrimSpace(description) == "Klarbrunn 12-PK 12 FL OZ"
  {
    var core := "Klarbrunn 12-PK 12 FL OZ";
    assert description == "   " + core + "  ";
    SkipSpaceForwardStops(description, 0, 3);
    SkipSpaceBackwardStops(description, 3, 29, 27);
    assert description[3..27] == core;
  }

  /** Rule 5 trims before measuring: the 29-character description trims to
      24 characters, and ceil(12.00 * 0.2) = 3. */
  lemma {:induction false} ItemPaddedDescription(description: string, price: string)
    requires description == "   Klarbrunn 12-PK 12 FL OZ  " && price == "12.00"
    ensures ItemPoints(Item(description, price)) == 3
  {
    TrimPaddedDescription(description);
    TwelveUnits(price, "00");
  }
}
