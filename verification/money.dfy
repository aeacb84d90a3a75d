/** parseMoney: a decimal amount of text read as a whole number of cents,
    with the exact-arithmetic meaning of the comparisons the rules make. */
module Money {
  import opened Wrappers
  import opened Text

  /** The position of the first '.', or |s| when there is none. */
  function DotIndex(s: string): (k: nat)
    ensures k <= |s|
    ensures forall i :: 0 <= i < k ==> s[i] != '.'
    ensures k < |s| ==> s[k] == '.'
  {
    if s == [] || s[0] == '.' then 0 else 1 + DotIndex(s[1..])
  }

  /** The cents carried by at most two fraction digits: "" is 0, "5" is 50,
      "49" is 49. */
  function FractionCents(f: string): (c: nat)
    requires AllDigits(f) && |f| <= 2
    ensures c < 100
    ensures |f| == 2 ==> c == DigitsValue(f)
  {
    if |f| == 0 then 0
    else if |f| == 1 then DigitValue(f[0]) * 10
    else
      DigitsValueSnoc([f[0]], f[1]);
      DigitsValueSnoc([], f[0]);
      assert f == [f[0]] + [f[1]];
      DigitValue(f[0]) * 10 + DigitValue(f[1])
  }

  /** fmt.Sscanf(s, "%f", &value) on amount text of the form D* ['.' D*] with
      at most two fraction digits and at least one digit in all, giving the
      amount in cents. None when Sscanf would report an error, and also for
      text outside this grammar that Sscanf reads a prefix of or accepts in
      another form, such as "1.2.3", "-1" or "1e2". */
  function ParseMoney(s: string): (r: Option<nat>)
    ensures r.Some? ==> |s| > 0 && forall i :: 0 <= i < |s| ==> IsDigit(s[i]) || s[i] == '.'
  {
    var k := DotIndex(s);
    var frac := if k < |s| then s[k + 1..] else [];
    assert forall i :: k < i < |s| ==> s[i] == frac[i - k - 1];
    ParseParts(s[..k], frac)
  }

  /** The amount held by the digits before the point and after it. */
  function ParseParts(whole: string, frac: string): (r: Option<nat>)
    ensures r.Some? <==> AllDigits(whole) && AllDigits(frac) && |frac| <= 2 && |whole| + |frac| > 0
  {
    if AllDigits(whole) && AllDigits(frac) && |frac| <= 2 && |whole| + |frac| > 0 then
      Some(DigitsValue(whole) * 100 + FractionCents(frac))
    else None
  }

  /** Accepted text holds at most one point, followed by at most two digits. */
  lemma {:induction false} ParseMoneyShape(s: string, i: nat)
    requires ParseMoney(s).Some? && i < |s| && s[i] == '.'
    ensures DotIndex(s) == i && |s| - i <= 3
  {
    var k := DotIndex(s);
    assert k <= i;
    assert forall j :: k < j < |s| ==> s[j] == s[k + 1..][j - k - 1];
  }

  /** The amount texts the model accepts, described position by position:
      only digits and points, at most one point, at most two characters after
      it, and at least one digit somewhere. */
  predicate AmountText(s: string) {
    && (forall i :: 0 <= i < |s| ==> IsDigit(s[i]) || s[i] == '.')
    && (forall i, j :: 0 <= i < j < |s| && s[i] == '.' ==> s[j] != '.')
    && (forall i :: 0 <= i < |s| && s[i] == '.' ==> |s| - i <= 3)
    && (exists i :: 0 <= i < |s| && IsDigit(s[i]))
  }

  /** ParseMoney accepts exactly the amount texts: in particular a lone "."
      and the empty text are rejected. */
  lemma {:induction false} ParseMoneyAccepts(s: string)
    ensures ParseMoney(s).Some? <==> AmountText(s)
  {
    var k := DotIndex(s);
    var frac := if k < |s| then s[k + 1..] else [];
    assert forall i :: k < i < |s| ==> s[i] == frac[i - k - 1];
    assert forall i :: 0 <= i < k ==> s[i] == s[..k][i];
    if ParseMoney(s).Some? {
      forall i, j | 0 <= i < j < |s| && s[i] == '.'
        ensures s[j] != '.'
      {
        ParseMoneyShape(s, i);
      }
      forall i | 0 <= i < |s| && s[i] == '.'
        ensures |s| - i <= 3
      {
        ParseMoneyShape(s, i);
      }
      if k > 0 {
        assert IsDigit(s[0]);
      } else {
        assert IsDigit(s[1]);
      }
    }
    if AmountText(s) {
      var d :| 0 <= d < |s| && IsDigit(s[d]);
      assert d != k;
      assert AllDigits(s[..k]);
      assert AllDigits(frac);
    }
  }

  /** `value, _ := parseMoney(s)`: the amount, or Go's zero value 0 when the
      parse failed. */
  function MoneyOrZero(s: string): (c: nat)
    ensures ParseMoney(s).None? ==> c == 0
    ensures ParseMoney(s).Some? ==> c == ParseMoney(s).value
  {
    ParseMoney(s).GetOr(0)
  }

  /** A digit string with no point is a whole number of currency units. */
  lemma {:induction false} ParseMoneyWhole(w: string)
    requires |w| > 0 && AllDigits(w)
    ensures ParseMoney(w) == Some(DigitsValue(w) * 100)
  {
    var k := DotIndex(w);
    assert k == |w|;
    assert w[..k] == w;
  }

  /** Digits, a point and at most two fraction digits read as
      units * 100 + cents. */
  lemma {:induction false} ParseMoneyDecimal(w: string, f: string)
    requires AllDigits(w) && AllDigits(f) && |f| <= 2 && |w| + |f| > 0
    ensures ParseMoney(w + "." + f) == Some(DigitsValue(w) * 100 + FractionCents(f))
  {
    var s := w + "." + f;
    assert s[|w|] == '.';
    var k := DotIndex(s);
    assert forall i :: 0 <= i < |w| ==> s[i] == w[i];
    assert k == |w|;
    assert s[..k] == w;
    assert s[k + 1..] == f;
  }

  /** Text with two points is rejected. */
  lemma {:induction false} ParseMoneyRejectsTwoPoints(s: string, i: nat, j: nat)
    requires i < j < |s| && s[i] == '.' && s[j] == '.'
    ensures ParseMoney(s).None?
  {
    var k := DotIndex(s);
    assert k <= i;
    assert s[k + 1..][j - k - 1] == '.';
  }

  /** The amount in cents rendered as units, a point and two cent digits,
      the form the receipts carry ("6.49"). */
  function FormatCents(c: nat): (s: string)
    ensures |s| >= 4 && s[|s| - 3] == '.'
  {
    NatToDigits(c / 100) + "." + Pad2(c % 100)
  }

  /** Parsing a rendered amount gives the amount back. */
  lemma {:induction false} ParseFormatCents(c: nat)
    ensures ParseMoney(FormatCents(c)) == Some(c)
  {
    var w, f := NatToDigits(c / 100), Pad2(c % 100);
    ParseMoneyDecimal(w, f);
    assert FormatCents(c) == w + "." + f;
  }

  /** math.Ceil(price * 0.2) for a price in cents: the number of whole five-unit
      steps needed to cover the price. */
  function CeilFifth(c: nat): (k: nat)
    ensures k * 500 >= c
    ensures k == 0 || (k - 1) * 500 < c
  {
    (c + 499) / 500
  }

  // The exact-arithmetic reading of the float expressions of the rules.

  /** The amount of c cents in currency units, as an exact real. */
  function Amount(c: nat): real { c as real / 100.0 }

  /** `x == math.Trunc(x)`; truncation and floor agree on the non-negative
      amounts parsed here. */
  predicate IsWhole(x: real) { x == x.Floor as real }

  /** `math.Mod(x, y)` for x >= 0 and y > 0: x - y * trunc(x / y). */
  function GoMod(x: real, y: real): real
    requires y > 0.0
  {
    x - y * ((x / y).Floor as real)
  }

  /** `math.Ceil(x)`: the least integer not below x. */
  function Ceil(x: real): int { -((-x).Floor) }

  lemma {:induction false} FloorBetween(x: real, k: int)
    requires k as real <= x < k as real + 1.0
    ensures x.Floor == k
  {
  }

  /** Rule 2's test `total == math.Trunc(total)` holds exactly when the
      amount is a whole number of hundreds of cents. */
  lemma {:induction false} IsWholeIffRoundDollar(c: nat)
    ensures IsWhole(Amount(c)) <==> c % 100 == 0
  {
    var q, r := c / 100, c % 100;
    assert Amount(c) == q as real + r as real / 100.0;
    FloorBetween(Amount(c), q);
  }

  /** Rule 3's test `math.Mod(total, 0.25) == 0` holds exactly when the amount
      is a multiple of 25 cents. */
  lemma {:induction false} ModQuarterIffMultipleOf25(c: nat)
    ensures GoMod(Amount(c), 0.25) == 0.0 <==> c % 25 == 0
  {
    var q, r := c / 25, c % 25;
    assert Amount(c) / 0.25 == q as real + r as real / 25.0;
    FloorBetween(Amount(c) / 0.25, q);
    assert GoMod(Amount(c), 0.25) == r as real / 100.0;
  }

  /** Rule 6's test `total > 10.0` holds exactly when the amount exceeds
      1000 cents. */
  lemma {:induction false} OverTenIffOver1000(c: nat)
    ensures Amount(c) > 10.0 <==> c > 1000
  {
  }

  /** Rule 5's `math.Ceil(price * 0.2)` read exactly is CeilFifth of the
      price in cents. */
  lemma {:induction false} CeilFifthIsCeil(c: nat)
    ensures CeilFifth(c) == Ceil(Amount(c) * 0.2)
  {
    var k := CeilFifth(c);
    assert Amount(c) * 0.2 == c as real / 500.0;
    if k == 0 {
      assert c == 0;
    } else {
      assert (k - 1) as real < c as real / 500.0 <= k as real;
    }
    FloorBetween(-(Amount(c) * 0.2), -(k as int));
  }
}
