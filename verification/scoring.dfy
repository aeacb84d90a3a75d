/** calculatePoints: the eight independent rules that turn a receipt into a
    point total. Amounts are whole cents, clock times are Go Time values
    from the "15:04" layout, dates come from the "2006-01-02" layout. */
module Scoring {
  import opened Text
  import opened Money
  import opened GoTime

  datatype Item = Item(shortDescription: string, price: string)

  datatype Receipt = Receipt(
    retailer: string,
    purchaseDate: string,
    purchaseTime: string,
    items: seq<Item>,
    total: string)

  /** Rule 1: one point per character left after deleting [^a-zA-Z0-9],
      so never more points than the name has characters. */
  function RetailerPoints(retailer: string): (r: nat)
    ensures r <= |retailer|
  {
    |KeepAlnum(retailer)|
  }

  /** Rule 2: 50 points when `total == math.Trunc(total)` holds of the exact
      amount, i.e. for a round-dollar total. */
  function RoundDollarPoints(total: nat): (r: nat)
    ensures r == (if IsWhole(Amount(total)) then 50 else 0)
  {
    IsWholeIffRoundDollar(total);
    if total % 100 == 0 then 50 else 0
  }

  /** Rule 3: 25 points when `math.Mod(total, 0.25) == 0` holds of the exact
      amount, i.e. for a multiple of 0.25. */
  function QuarterPoints(total: nat): (r: nat)
    ensures r == (if GoMod(Amount(total), 0.25) == 0.0 then 25 else 0)
  {
    ModQuarterIffMultipleOf25(total);
    if total % 25 == 0 then 25 else 0
  }

  /** Rule 4: 5 points for every two items; an odd last item earns nothing. */
  function PairPoints(count: nat): (r: nat)
    ensures r % 5 == 0
    ensures 2 * (r / 5) <= count < 2 * (r / 5) + 2
  {
    count / 2 * 5
  }

  /** Rule 5's condition: the trimmed description length is a multiple of 3
      (an empty trimmed description included). */
  predicate Qualifies(item: Item) { |TrimSpace(item.shortDescription)| % 3 == 0 }

  /** Rule 5 for one item: `math.Ceil(price * 0.2)` of the exact price when
      it qualifies, nothing otherwise. */
  function ItemPoints(item: Item): (r: nat)
    ensures r == (if Qualifies(item) then Ceil(Amount(MoneyOrZero(item.price)) * 0.2) else 0)
  {
    CeilFifthIsCeil(MoneyOrZero(item.price));
    if Qualifies(item) then CeilFifth(MoneyOrZero(item.price)) else 0
  }

  /** Rule 5 summed over the items, in receipt order. */
  function ItemsPoints(items: seq<Item>): nat
  {
    if items == [] then 0 else ItemPoints(items[0]) + ItemsPoints(items[1..])
  }

  /** Rule 6: 5 points when `total > 10.0` holds of the exact amount; 10.00
      itself earns nothing. */
  function OverTenPoints(total: nat): (r: nat)
    ensures r == (if Amount(total) > 10.0 then 5 else 0)
  {
    OverTenIffOver1000(total);
    if total > 1000 then 5 else 0
  }

  /** Rule 7: 6 points when the day of the parsed purchase date is odd, and
      after a parse error too, because the zero Time's day is 1. */
  function OddDayPoints(date: string): (r: nat)
    ensures r == 6 <==> ParseDate(date).None? || ParseDate(date).value.day % 2 == 1
    ensures r != 6 ==> r == 0
  {
    if OrZero(ParseDate(date)).day % 2 != 0 then 6 else 0
  }

  /** The window bounds, parsed from "14:00" and "16:00" as the engine does. */
  function WindowStart(): Time { OrZero(ParseClock("14:00")) }

  function WindowEnd(): Time { OrZero(ParseClock("16:00")) }

  /** Rule 8: 10 points when the parsed purchase time is after 14:00 and
      before 16:00. An unparseable time becomes the zero Time of year 1,
      which is after the window's start but not before its end. */
  function AfternoonPoints(clock: string): (r: nat)
    ensures r == 10 <==> ParseClock(clock).Some? && 840 < MinuteOfDay(ParseClock(clock).value) < 960
    ensures r != 10 ==> r == 0
  {
    WindowBounds();
    var t := OrZero(ParseClock(clock));
    if After(t, WindowStart()) && Before(t, WindowEnd()) then 10 else 0
  }

  /** calculatePoints: the sum of the eight rules, with the total parsed once.
      Rules 1 and 4 depend only on the counts of the input; rules 2, 3, 6, 7
      and 8 together add between 0 and 75 + 5 + 6 + 10 points. */
  function Points(receipt: Receipt): (r: nat)
    ensures var base := |AlnumPositions(receipt.retailer)| + 5 * (|receipt.items| / 2)
                        + ItemsPoints(receipt.items);
            base <= r <= base + 96
  {
    var total := MoneyOrZero(receipt.total);
    RetailerPointsCountsAlnum(receipt.retailer);
    RoundDollarAlsoQuarter(total);
    RetailerPoints(receipt.retailer)
    + RoundDollarPoints(total)
    + QuarterPoints(total)
    + PairPoints(|receipt.items|)
    + ItemsPoints(receipt.items)
    + OverTenPoints(total)
    + OddDayPoints(receipt.purchaseDate)
    + AfternoonPoints(receipt.purchaseTime)
  }

  /** calculatePoints as the engine runs it: one accumulator, the rules in
      source order, the total parsed once and the window bounds parsed from
      text. */
  method CalculatePoints(receipt: Receipt) returns (points: int)
    ensures points == Points(receipt)
    ensures points >= 0
  {
    points := 0;

    // Rule 1
    var kept := CountAlnum(receipt.retailer);
    points := points + kept;

    // Rules 2 and 3
    var total := MoneyOrZero(receipt.total);
    if total % 100 == 0 {
      points := points + 50;
    }
    if total % 25 == 0 {
      points := points + 25;
    }

    // Rule 4
    points := points + (|receipt.items| / 2) * 5;

    // Rule 5
    var bonus := SumItemPoints(receipt.items);
    points := points + bonus;

    // Rule 6
    if total > 1000 {
      points := points + 5;
    }

    // Rule 7
    var purchaseDate := OrZero(ParseDate(receipt.purchaseDate));
    if purchaseDate.day % 2 != 0 {
      points := points + 6;
    }

    // Rule 8
    var afternoon := AfternoonBonus(receipt.purchaseTime);
    points := points + afternoon;
  }

  /** Rule 1 in one pass: the number of characters of the name in [a-zA-Z0-9]. */
  method CountAlnum(name: string) returns (kept: nat)
    ensures kept == RetailerPoints(name)
  {
    kept := 0;
    var i := 0;
    while i < |name|
      invariant 0 <= i <= |name|
      invariant kept == |KeepAlnum(name[..i])|
    {
      assert name[..i + 1][..i] == name[..i];
      if IsAlnum(name[i]) {
        kept := kept + 1;
      }
      i := i + 1;
    }
    assert name[..|name|] == name;
  }

  /** Rule 5 as the loop over the items: each description is trimmed and, when
      its length is a multiple of 3, the item's price is parsed and
      ceil(price * 0.2) added. */
  method SumItemPoints(items: seq<Item>) returns (bonus: nat)
    ensures bonus == ItemsPoints(items)
  {
    bonus := 0;
    var j := 0;
    while j < |items|
      invariant 0 <= j <= |items|
      invariant bonus + ItemsPoints(items[j..]) == ItemsPoints(items)
    {
      assert items[j..][1..] == items[j + 1..];
      var item := items[j];
      var desc := TrimSpace(item.shortDescription);
      if |desc| % 3 == 0 {
        var price := MoneyOrZero(item.price);
        bonus := bonus + CeilFifth(price);
      }
      j := j + 1;
    }
  }

  /** Rule 8 as the engine runs it: the purchase time and both window bounds
      are parsed from text, and a parse error leaves the zero Time. */
  method AfternoonBonus(clock: string) returns (bonus: nat)
    ensures bonus == (if ParseClock(clock).Some? && 840 < MinuteOfDay(ParseClock(clock).value) < 960
                      then 10 else 0)
  {
    bonus := 0;
    var purchaseTime := OrZero(ParseClock(clock));
    var start := OrZero(ParseClock("14:00"));
    var end := OrZero(ParseClock("16:00"));
    if After(purchaseTime, start) && Before(purchaseTime, end) {
      bonus := 10;
    }
    assert bonus == AfternoonPoints(clock);
  }

  // ---------------------------------------------------------------------
  // Rule 1

  /** Rule 1 counts exactly the positions of the name that hold a character
      of [a-zA-Z0-9]. */
  lemma {:induction false} RetailerPointsCountsAlnum(retailer: string)
    ensures RetailerPoints(retailer) == |AlnumPositions(retailer)|
  {
    KeepAlnumLength(retailer);
  }

  /** Characters outside [a-zA-Z0-9] contribute nothing: inserting one
      anywhere leaves rule 1 unchanged, inserting an alphanumeric adds one. */
  lemma {:induction false} RetailerPointsInsert(a: string, c: char, b: string)
    ensures RetailerPoints(a + [c] + b) == RetailerPoints(a + b) + (if IsAlnum(c) then 1 else 0)
  {
    KeepAlnumAppend(a + [c], b);
    KeepAlnumAppend(a, [c]);
    KeepAlnumAppend(a, b);
    assert [c][..0] == [];
  }

  // ---------------------------------------------------------------------
  // Rules 2, 3 and 6: the cents tests against the engine's float tests

  /** A round-dollar total is also a multiple of 0.25, so rules 2 and 3
      together give 75; otherwise they give 25 or 0, never 50. */
  lemma {:induction false} RoundDollarAlsoQuarter(total: nat)
    ensures total % 100 == 0 ==> RoundDollarPoints(total) + QuarterPoints(total) == 75
    ensures total % 100 != 0 ==> RoundDollarPoints(total) + QuarterPoints(total) == QuarterPoints(total)
    ensures RoundDollarPoints(total) + QuarterPoints(total) in {0, 25, 75}
  {
    IsWholeIffRoundDollar(total);
    ModQuarterIffMultipleOf25(total);
  }

  // ---------------------------------------------------------------------
  // Rule 4

  /** Rule 4 never decreases as items are added, and grows by 5 with each
      second item. */
  lemma {:induction false} PairPointsMonotone(n: nat, m: nat)
    requires n <= m
    ensures PairPoints(n) <= PairPoints(m)
    ensures PairPoints(n + 2) == PairPoints(n) + 5
  {
    assert n / 2 <= m / 2;
    assert (n + 2) / 2 == n / 2 + 1;
  }

  // ---------------------------------------------------------------------
  // Rule 5

  /** A description that is empty or all white space trims to length 0 and
      so qualifies. */
  lemma {:induction false} BlankDescriptionQualifies(description: string, price: string)
    requires AllSpace(description)
    ensures ItemPoints(Item(description, price)) == CeilFifth(MoneyOrZero(price))
  {
    assert TrimSpace(description) == [];
    assert Qualifies(Item(description, price));
  }

  /** Only the trimmed description matters: two items with the same price
      whose descriptions trim alike earn the same rule 5 points. */
  lemma {:induction false} ItemPointsDependOnTrim(d1: string, d2: string, price: string)
    requires TrimSpace(d1) == TrimSpace(d2)
    ensures ItemPoints(Item(d1, price)) == ItemPoints(Item(d2, price))
  {
  }

  /** For a description without surrounding white space, rule 5 measures
      the description as written. */
  lemma {:induction false} ItemPointsUntrimmed(item: Item)
    requires item.shortDescription == [] ||
             (!IsSpace(item.shortDescription[0]) &&
              !IsSpace(item.shortDescription[|item.shortDescription| - 1]))
    ensures ItemPoints(item) ==
            (if |item.shortDescription| % 3 == 0 then CeilFifth(MoneyOrZero(item.price)) else 0)
  {
    TrimSpaceTrimmed(item.shortDescription);
  }

  /** Every item's rule 5 points are part of the sum, and a list in which
      no item qualifies earns nothing from rule 5. */
  lemma {:induction false} ItemsPointsBounds(items: seq<Item>)
    ensures forall i :: 0 <= i < |items| ==> ItemPoints(items[i]) <= ItemsPoints(items)
    ensures (forall i :: 0 <= i < |items| ==> !Qualifies(items[i])) ==> ItemsPoints(items) == 0
    decreases |items|
  {
    if items != [] {
      var rest := items[1..];
      ItemsPointsBounds(rest);
      assert forall i :: 1 <= i < |items| ==> items[i] == rest[i - 1];
    }
  }

  /** Rule 5 over a list splits over concatenation. */
  lemma {:induction false} ItemsPointsAppend(a: seq<Item>, b: seq<Item>)
    ensures ItemsPoints(a + b) == ItemsPoints(a) + ItemsPoints(b)
    decreases |a|
  {
    if a == [] {
      assert a + b == b;
    } else {
      assert (a + b)[1..] == a[1..] + b;
      ItemsPointsAppend(a[1..], b);
    }
  }

  /** Swapping two blocks of items keeps rule 5. */
  lemma {:induction false} ItemsPointsSwap(a: seq<Item>, b: seq<Item>)
    ensures ItemsPoints(a + b) == ItemsPoints(b + a)
  {
    ItemsPointsAppend(a, b);
    ItemsPointsAppend(b, a);
  }

  /** Taking one item out of a list takes exactly its bonus out of rule 5. */
  lemma {:induction false} ItemsPointsRemove(b: seq<Item>, j: nat)
    requires j < |b|
    ensures ItemsPoints(b) == ItemPoints(b[j]) + ItemsPoints(b[..j] + b[j + 1..])
  {
    assert b == b[..j] + [b[j]] + b[j + 1..];
    ItemsPointsAppend(b[..j] + [b[j]], b[j + 1..]);
    ItemsPointsAppend(b[..j], [b[j]]);
    ItemsPointsAppend(b[..j], b[j + 1..]);
    assert [b[j]][1..] == [];
  }

  /** Taking the element at position j out of a list takes one copy of it
      out of the list's multiset. */
  lemma MultisetRemove<T>(s: seq<T>, j: nat)
    requires j < |s|
    ensures multiset(s) == multiset(s[..j] + s[j + 1..]) + multiset{s[j]}
  {
    assert s == s[..j] + [s[j]] + s[j + 1..];
  }

  /** Item order does not matter to rule 5: any reordering of the items,
      that is any list with the same multiset of items, earns the same. */
  lemma {:induction false} ItemsPointsPermutation(a: seq<Item>, b: seq<Item>)
    requires multiset(a) == multiset(b)
    ensures ItemsPoints(a) == ItemsPoints(b)
    decreases |a|
  {
    if a == [] {
      assert |b| == |multiset(b)| == 0;
    } else {
      assert a[0] in multiset(b);
      var j :| 0 <= j < |b| && b[j] == a[0];
      var rest := b[..j] + b[j + 1..];
      MultisetRemove(b, j);
      MultisetRemove(a, 0);
      assert a[..0] + a[1..] == a[1..];
      assert multiset(a[1..]) == multiset(a) - multiset{a[0]};
      assert multiset(rest) == multiset(b) - multiset{a[0]};
      ItemsPointsPermutation(a[1..], rest);
      ItemsPointsRemove(b, j);
    }
  }

  /** Only qualifying items add to rule 5: a non-qualifying item adds nothing
      wherever it stands. */
  lemma {:induction false} NonQualifyingAddsNothing(a: seq<Item>, item: Item, b: seq<Item>)
    requires !Qualifies(item)
    ensures ItemsPoints(a + [item] + b) == ItemsPoints(a + b)
  {
    ItemsPointsAppend(a + [item], b);
    ItemsPointsAppend(a, [item]);
    ItemsPointsAppend(a, b);
    assert [item][..0] == [];
  }

  // ---------------------------------------------------------------------
  // Rule 8

  /** The window bounds parse to 14:00 and 16:00 on January 1 of year 0. */
  lemma {:induction false} WindowBounds()
    ensures WindowStart() == Time(0, 1, 1, 14, 0)
    ensures WindowEnd() == Time(0, 1, 1, 16, 0)
  {
    ParseFormatClock(14, 0);
    ParseFormatClock(16, 0);
    assert FormatClock(14, 0) == "14:00";
    assert FormatClock(16, 0) == "16:00";
  }
}
