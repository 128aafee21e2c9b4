/**
  The question generators of `QUESTION_TYPES`. Each `generate` becomes a
  function of the values its `Phaser.Math.Between` draws produced; a
  draw's range is a precondition only where a property needs it. Decimal
  numbers are written the Norwegian way, with a comma.
 */
module Questions {
  import opened Text

  // ---------------------------------------------------------------------
  // Reading decimal answers back

  /**
    The value of `s` in units of 10^-places when `s` is a non-empty digit
    string, a comma and exactly `places` digits; None otherwise.
   */
  function DecimalValue(s: string, places: nat): Option<nat> {
    if |s| < places + 2 then None
    else
      var w, f := s[..|s| - places - 1], s[|s| - places..];
      if s[|s| - places - 1] == ',' && AllDigits(w) && AllDigits(f)
      then Some(DigitsValue(w) * Pow10(places) + DigitsValue(f))
      else None
  }

  /** A rendered whole part, a comma and a digit string read back as the number they write. */
  lemma {:induction false} DecimalTextValue(whole: nat, f: string)
    requires AllDigits(f)
    ensures DecimalValue(NatToString(whole) + "," + f, |f|) == Some(whole * Pow10(|f|) + DigitsValue(f))
  {
    var w := NatToString(whole);
    var s := w + "," + f;
    NatToStringSpec(whole);
    assert s[..|s| - |f| - 1] == w;
    assert s[|s| - |f|..] == f;
    assert s[|s| - |f| - 1] == ',';
  }

  /** One decimal: `whole,d` reads back as whole tenths plus d. */
  lemma {:induction false} OneDecimal(whole: nat, d: nat)
    requires d < 10
    ensures DecimalValue(NatToString(whole) + "," + NatToString(d), 1) == Some(whole * 10 + d)
  {
    NatToStringSpec(d);
    assert NatToString(d) == [DigitChar(d)];
    DecimalTextValue(whole, NatToString(d));
  }

  /** Two decimals: `whole,th` reads back as whole hundredths plus 10t + h. */
  lemma {:induction false} TwoDecimals(whole: nat, t: nat, h: nat)
    requires t < 10 && h < 10
    ensures DecimalValue(NatToString(whole) + "," + NatToString(t) + NatToString(h), 2) == Some(whole * 100 + 10 * t + h)
  {
    DigitStrings([t, h]);
    PairDigits(t, h);
    assert Pow10(2) == 100;
    DecimalTextValue(whole, Digits([t, h]));
    assert NatToString(whole) + "," + Digits([t, h]) == NatToString(whole) + "," + NatToString(t) + NatToString(h);
  }

  /** Three decimals: `whole,hto` reads back as whole thousandths plus 100h + 10t + o. */
  lemma {:induction false} ThreeDecimals(whole: nat, h: nat, t: nat, o: nat)
    requires h < 10 && t < 10 && o < 10
    ensures DecimalValue(NatToString(whole) + "," + NatToString(h) + NatToString(t) + NatToString(o), 3)
      == Some(whole * 1000 + 100 * h + 10 * t + o)
  {
    var ds := [h, t, o];
    DigitStrings(ds);
    TripleDigits(h, t, o);
    assert Pow10(3) == 1000;
    DecimalTextValue(whole, Digits(ds));
    assert NatToString(whole) + "," + Digits(ds) == NatToString(whole) + "," + NatToString(h) + NatToString(t) + NatToString(o);
  }

  /** The digit list `[t, h]` writes `t` then `h` and denotes 10t + h. */
  lemma PairDigits(t: nat, h: nat)
    requires t < 10 && h < 10
    ensures Digits([t, h]) == NatToString(t) + NatToString(h)
    ensures DigitsNumber([t, h]) == 10 * t + h
  {
    assert [t, h][..1] == [t] && [t][..0] == [];
    assert Digits([t]) == "" + NatToString(t) == NatToString(t);
    assert DigitsNumber([t]) == t;
  }

  /** The digit list `[h, t, o]` writes its three digits in order and denotes 100h + 10t + o. */
  lemma TripleDigits(h: nat, t: nat, o: nat)
    requires h < 10 && t < 10 && o < 10
    ensures Digits([h, t, o]) == NatToString(h) + NatToString(t) + NatToString(o)
    ensures DigitsNumber([h, t, o]) == 100 * h + 10 * t + o
  {
    PairDigits(h, t);
    assert [h, t, o][..2] == [h, t];
  }

  /** Digits rendered one after another form the digit string of their combined value. */
  lemma {:induction false} DigitStrings(ds: seq<nat>)
    requires forall i | 0 <= i < |ds| :: ds[i] < 10
    ensures AllDigits(Digits(ds)) && |Digits(ds)| == |ds| && DigitsValue(Digits(ds)) == DigitsNumber(ds)
  {
    if ds != [] {
      var init := ds[..|ds| - 1];
      DigitStrings(init);
      var d := ds[|ds| - 1];
      NatToStringSpec(d);
      assert NatToString(d) == [DigitChar(d)];
      var s := Digits(ds);
      assert s == Digits(init) + [DigitChar(d)];
      assert s[..|s| - 1] == Digits(init);
    }
  }

  /** The digits `ds` written out, each by `toString()`. */
  function Digits(ds: seq<nat>): string
    requires forall i | 0 <= i < |ds| :: ds[i] < 10
  {
    if ds == [] then "" else Digits(ds[..|ds| - 1]) + NatToString(ds[|ds| - 1])
  }

  /** The number the digits `ds` denote, most significant first. */
  function DigitsNumber(ds: seq<nat>): nat {
    if ds == [] then 0 else DigitsNumber(ds[..|ds| - 1]) * 10 + ds[|ds| - 1]
  }

  // ---------------------------------------------------------------------
  // Whole-number arithmetic

  /** One `additionCrossing10` attempt; None means the generator draws again. */
  function AdditionCrossing10Attempt(num1: nat, num2: nat): (q: Option<Question>)
    ensures q.Some? <==> 10 <= num1 + num2 <= 30
    ensures q.Some? ==> AllDigits(q.value.answer) && DigitsValue(q.value.answer) == num1 + num2
  {
    var answer := num1 + num2;
    NatToStringSpec(answer);
    if answer >= 10 && answer <= 30 then Some(Question(NatToString(num1) + " + " + NatToString(num2), NatToString(answer)))
    else None
  }

  /** `additionCrossing10`: the first attempt of the successive draws that is kept, if any. */
  function AdditionCrossing10(draws: seq<(nat, nat)>): (q: Option<Question>)
    ensures q.Some? ==> AllDigits(q.value.answer) && 10 <= DigitsValue(q.value.answer) <= 30
  {
    if draws == [] then None
    else
      var a := AdditionCrossing10Attempt(draws[0].0, draws[0].1);
      if a.Some? then a else AdditionCrossing10(draws[1..])
  }

  /**
    With num1 in 4..9 and num2 in max(1, 10 - num1)..25 the sum is never
    below ten, so an attempt is only discarded when the sum exceeds 30.
   */
  lemma {:induction false} AdditionCrossing10Retry(num1: nat, num2: nat)
    requires 4 <= num1 <= 9 && (if 10 - num1 > 1 then 10 - num1 else 1) <= num2 <= 25
    ensures num1 + num2 >= 10
    ensures AdditionCrossing10Attempt(num1, num2).None? <==> num1 + num2 > 30
  {
  }

  /** The range `subtractionCrossing` draws num2 from for a given num1. */
  function SubtrahendRange(num1: int): (r: (int, int)) {
    if num1 >= 20 then (Max(1, num1 - 19), Min(num1 - 10, 15))
    else (Max(1, num1 - 9), Min(num1 - 1, 15))
  }

  function Max(a: int, b: int): int { if a >= b then a else b }
  function Min(a: int, b: int): int { if a <= b then a else b }

  /** One `subtractionCrossing` attempt; None means the generator draws again. */
  function SubtractionCrossingAttempt(num1: nat, num2: nat): (q: Option<Question>)
    ensures q.Some? <==> num2 < num1 && num1 - num2 <= 30
    ensures q.Some? ==> AllDigits(q.value.answer) && DigitsValue(q.value.answer) == num1 - num2
  {
    if num2 < num1 && num1 - num2 <= 30 then
      NatToStringSpec(num1 - num2);
      Some(Question(NatToString(num1) + " - " + NatToString(num2), NatToString(num1 - num2)))
    else None
  }

  /**
    For every num1 in 11..30 the subtrahend range is non-empty, and any
    num2 drawn from it lands the answer in 10..19 (from 20 up) or 1..9
    (below 20); so the first attempt is always kept and the retry never
    happens.
   */
  lemma {:induction false} SubtractionCrossingNoRetry(num1: nat, num2: nat)
    requires 11 <= num1 <= 30
    requires SubtrahendRange(num1).0 <= num2 <= SubtrahendRange(num1).1
    ensures SubtrahendRange(num1).0 <= SubtrahendRange(num1).1
    ensures SubtractionCrossingAttempt(num1, num2).Some?
    ensures num1 >= 20 ==> 10 <= num1 - num2 <= 19
    ensures num1 < 20 ==> 1 <= num1 - num2 <= 9
  {
  }

  /** `multiplication1to5` and `multiplication6to9`: `num1 × num2` and its product. */
  function Multiplication(num1: nat, num2: nat): (q: Question)
    ensures AllDigits(q.answer) && DigitsValue(q.answer) == num1 * num2
    ensures 1 <= num1 <= 5 && 1 <= num2 <= 10 ==> 1 <= DigitsValue(q.answer) <= 50
    ensures 6 <= num1 <= 9 && 1 <= num2 <= 10 ==> 6 <= DigitsValue(q.answer) <= 90
  {
    NatToStringSpec(num1 * num2);
    ProductRange(num1, num2, 1, 5);
    ProductRange(num1, num2, 6, 9);
    Question(NatToString(num1) + " × " + NatToString(num2), NatToString(num1 * num2))
  }

  /** A factor in `lo..hi` times a factor in 1..10 lies in `lo..10 hi`. */
  lemma ProductRange(a: nat, b: nat, lo: nat, hi: nat)
    ensures lo <= a <= hi && 1 <= b <= 10 ==> lo <= a * b <= 10 * hi
  {
    if lo <= a <= hi && 1 <= b <= 10 {
      assert a * b <= hi * b;
      assert a <= a * b;
    }
  }

  // ---------------------------------------------------------------------
  // Place value

  /** The digit at place k (ones = 0) of n, as `Math.floor((n / 10^k) % 10)` computes it. */
  function PlaceDigit(n: nat, k: nat): (d: nat)
    ensures d < 10
  {
    (n / Pow10(k)) % 10
  }

  /** Reading `n.toString()` from the right, the k-th character is the digit at place k. */
  lemma {:induction false} NatToStringDigitAt(n: nat, k: nat)
    requires k <= 3 && k < |NatToString(n)|
    ensures NatToString(n)[|NatToString(n)| - 1 - k] == DigitChar(PlaceDigit(n, k))
  {
    if n >= 10 && k > 0 {
      NatToStringDigitAt(n / 10, k - 1);
      ShiftPlace(n, k);
      var s := NatToString(n);
      assert s == NatToString(n / 10) + [DigitChar(n % 10)];
    }
  }

  /** The digit at place k of n is the digit at place k - 1 of n / 10. */
  lemma {:induction false} ShiftPlace(n: nat, k: nat)
    requires 1 <= k <= 3
    ensures PlaceDigit(n, k) == PlaceDigit(n / 10, k - 1)
  {
    assert Pow10(0) == 1 && Pow10(1) == 10 && Pow10(2) == 100 && Pow10(3) == 1000;
    if k == 2 {
      assert n / 100 == (n / 10) / 10;
    } else if k == 3 {
      assert n / 1000 == (n / 10) / 100;
    }
  }

  /** A number at least 10^k has more than k digits. */
  lemma {:induction false} NatToStringLongEnough(n: nat, k: nat)
    requires n >= Pow10(k)
    ensures |NatToString(n)| > k
  {
    if k > 0 {
      NatToStringLongEnough(n / 10, k - 1);
    }
  }

  /**
    The place-value questions: `number` shown after the prompt, and the
    digit at the asked place as the answer.
   */
  function PlaceValue(prompt: string, number: nat, k: nat): Question {
    Question(prompt + "\n" + NatToString(number), NatToString(PlaceDigit(number, k)))
  }

  const ONES_PROMPT := "Kva tal står på einarplassen?"
  const TENS_PROMPT := "Kva tal står på tiarplass?"
  const HUNDREDS_PROMPT := "Kva tal står på hundrarplass?"
  const THOUSANDS_PROMPT := "Kva tal står på tusenplass?"

  /** `placeValueOnes` for number drawn from 10..9999. */
  function PlaceValueOnes(number: nat): Question { PlaceValue(ONES_PROMPT, number, 0) }
  /** `placeValueTens` for number drawn from 10..9999. */
  function PlaceValueTens(number: nat): Question { PlaceValue(TENS_PROMPT, number, 1) }
  /** `placeValueHundreds` for number drawn from 100..9999. */
  function PlaceValueHundreds(number: nat): Question { PlaceValue(HUNDREDS_PROMPT, number, 2) }
  /** `placeValueThousands` for number drawn from 1000..9999. */
  function PlaceValueThousands(number: nat): Question { PlaceValue(THOUSANDS_PROMPT, number, 3) }

  /**
    The answer is the one character of the displayed number that stands
    at the asked place, whenever the number has that place.
   */
  lemma {:induction false} PlaceValueAnswer(prompt: string, number: nat, k: nat)
    requires k <= 3 && number >= Pow10(k)
    ensures var s := NatToString(number);
      var q := PlaceValue(prompt, number, k);
      && |s| > k
      && q.question == prompt + "\n" + s
      && q.answer == [s[|s| - 1 - k]]
  {
    NatToStringLongEnough(number, k);
    NatToStringDigitAt(number, k);
    NatToStringSpec(PlaceDigit(number, k));
  }

  /** The four place-value answers of a four-digit number put it back together. */
  lemma {:induction false} PlaceValueCompose(n: nat)
    requires 1000 <= n <= 9999
    ensures var ones, tens := PlaceValueOnes(n).answer, PlaceValueTens(n).answer;
      var hundreds, thousands := PlaceValueHundreds(n).answer, PlaceValueThousands(n).answer;
      && AllDigits(ones) && AllDigits(tens) && AllDigits(hundreds) && AllDigits(thousands)
      && DigitsValue(ones) + 10 * DigitsValue(tens) + 100 * DigitsValue(hundreds) + 1000 * DigitsValue(thousands) == n
  {
    PlaceDigitsOfFour(n);
    NatToStringSpec(PlaceDigit(n, 0));
    NatToStringSpec(PlaceDigit(n, 1));
    NatToStringSpec(PlaceDigit(n, 2));
    NatToStringSpec(PlaceDigit(n, 3));
  }

  /** The four place digits of a four-digit number, weighted by their places, add up to it. */
  lemma PlaceDigitsOfFour(n: nat)
    requires 1000 <= n <= 9999
    ensures PlaceDigit(n, 0) + 10 * PlaceDigit(n, 1) + 100 * PlaceDigit(n, 2) + 1000 * PlaceDigit(n, 3) == n
  {
    var q1 := n / 10;
    var q2 := q1 / 10;
    var q3 := q2 / 10;
    ShiftPlace(n, 1);
    ShiftPlace(n, 2);
    ShiftPlace(q1, 1);
    ShiftPlace(n, 3);
    ShiftPlace(q1, 2);
    ShiftPlace(q2, 1);
    PlaceZero(n);
    PlaceZero(q1);
    PlaceZero(q2);
    PlaceZero(q3);
    FourDigitsArith(n);
  }

  /** The units digit is the remainder by ten. */
  lemma PlaceZero(n: nat)
    ensures PlaceDigit(n, 0) == n % 10
  {
    assert Pow10(0) == 1;
  }

  /** A four-digit number from its repeated remainders by ten. */
  lemma FourDigitsArith(n: nat)
    requires 1000 <= n <= 9999
    ensures n % 10 + 10 * ((n / 10) % 10) + 100 * ((n / 10 / 10) % 10) + 1000 * ((n / 10 / 10 / 10) % 10) == n
  {
    var q1 := n / 10;
    var q2 := q1 / 10;
    var q3 := q2 / 10;
    assert n == 10 * q1 + n % 10;
    assert q1 == 10 * q2 + q1 % 10;
    assert q2 == 10 * q3 + q2 % 10;
    assert q3 < 10;
  }

  // ---------------------------------------------------------------------
  // Decimal place value

  /** `whole,d1d2…` as the generators write it. */
  function DecimalText(whole: nat, ds: seq<nat>): string
    requires forall i | 0 <= i < |ds| :: ds[i] < 10
  {
    NatToString(whole) + "," + Digits(ds)
  }

  /**
    `decimalTenths` and `countTenths` (prompt built around `whole,tenths`),
    and `decimalHundredths` and `countHundredths` (around
    `whole,tenths hundredths`): the answer is the last digit written.
   */
  function DecimalPlace(before: string, after: string, whole: nat, ds: seq<nat>): (q: Question)
    requires |ds| >= 1 && forall i | 0 <= i < |ds| :: ds[i] < 10
    ensures var t := DecimalText(whole, ds);
      q.question == before + t + after && q.answer == [t[|t| - 1]] && IsDigit(q.answer[0])
      && DigitValue(q.answer[0]) == ds[|ds| - 1]
  {
    var t := DecimalText(whole, ds);
    NatToStringSpec(ds[|ds| - 1]);
    assert Digits(ds) == Digits(ds[..|ds| - 1]) + [DigitChar(ds[|ds| - 1])];
    assert t[|t| - 1] == DigitChar(ds[|ds| - 1]);
    Question(before + t + after, NatToString(ds[|ds| - 1]))
  }

  function DecimalTenths(whole: nat, tenths: nat): Question
    requires tenths < 10
  {
    DecimalPlace("Kva tal står på tidelsplassen?\n", "", whole, [tenths])
  }

  function DecimalHundredths(whole: nat, tenths: nat, hundredths: nat): Question
    requires tenths < 10 && hundredths < 10
  {
    DecimalPlace("Kva tal står på hundredelsplassen?\n", "", whole, [tenths, hundredths])
  }

  function CountTenths(whole: nat, tenths: nat): Question
    requires tenths < 10
  {
    DecimalPlace("Kor mange tidelar er det i ", "?", whole, [tenths])
  }

  function CountHundredths(whole: nat, tenths: nat, hundredths: nat): Question
    requires tenths < 10 && hundredths < 10
  {
    DecimalPlace("Kor mange hundredelar er det i ", "?", whole, [tenths, hundredths])
  }

  // ---------------------------------------------------------------------
  // Fractions to decimals

  /** `fractionToDecimalTenths`: n/10 = 0,n. */
  function FractionToDecimalTenths(numerator: nat): (q: Question)
    requires numerator < 10
    ensures q.question == NatToString(numerator) + "/10 ="
    ensures DecimalValue(q.answer, 1) == Some(numerator)
  {
    OneDecimal(0, numerator);
    assert NatToString(0) + "," == "0,";
    Question(NatToString(numerator) + "/10 =", "0," + NatToString(numerator))
  }

  /** `fractionToDecimalHundredths` for numerator in 1..99: exactly two decimals, denoting the numerator. */
  function FractionToDecimalHundredths(numerator: nat): (q: Question)
    requires numerator < 100
    ensures q.question == NatToString(numerator) + "/100 ="
    ensures DecimalValue(q.answer, 2) == Some(numerator)
  {
    var tenths, hundredths := numerator / 10, numerator % 10;
    TwoDecimals(0, tenths, hundredths);
    assert NatToString(0) + "," == "0,";
    Question(NatToString(numerator) + "/100 =", "0," + NatToString(tenths) + NatToString(hundredths))
  }

  /** `fractionToDecimalThousandths` for numerator in 1..999: exactly three decimals, denoting the numerator. */
  function FractionToDecimalThousandths(numerator: nat): (q: Question)
    requires numerator < 1000
    ensures q.question == NatToString(numerator) + "/1000 ="
    ensures DecimalValue(q.answer, 3) == Some(numerator)
  {
    var hundreds, tens, ones := numerator / 100, (numerator % 100) / 10, numerator % 10;
    ThreeDecimals(0, hundreds, tens, ones);
    assert NatToString(0) + "," == "0,";
    assert 100 * hundreds + 10 * tens + ones == numerator;
    Question(NatToString(numerator) + "/1000 =", "0," + NatToString(hundreds) + NatToString(tens) + NatToString(ones))
  }

  // ---------------------------------------------------------------------
  // Decimal addition

  /** `decimalAdditionTenths`: 0,t1 + 0,t2, carried into the ones when the sum reaches ten. */
  function DecimalAdditionTenths(tenths1: nat, tenths2: nat): (q: Question)
    requires tenths1 < 10 && tenths2 < 10
    ensures DecimalValue(q.answer, 1) == Some(tenths1 + tenths2)
  {
    var sum := tenths1 + tenths2;
    var question := "0," + NatToString(tenths1) + " + 0," + NatToString(tenths2) + " =";
    if sum >= 10 then
      OneDecimal(1, sum - 10);
      assert NatToString(1) + "," == "1,";
      Question(question, "1," + NatToString(sum - 10))
    else
      OneDecimal(0, sum);
      assert NatToString(0) + "," == "0,";
      Question(question, "0," + NatToString(sum))
  }

  /** With both tenths drawn from 1..5 the sum is at most ten; exactly ten reads "1,0". */
  lemma {:induction false} DecimalAdditionTenthsRange(tenths1: nat, tenths2: nat)
    requires 1 <= tenths1 <= 5 && 1 <= tenths2 <= 5
    ensures tenths1 + tenths2 <= 10
    ensures tenths1 + tenths2 == 10 <==> DecimalAdditionTenths(tenths1, tenths2).answer == "1,0"
  {
    var q := DecimalAdditionTenths(tenths1, tenths2);
    if tenths1 + tenths2 < 10 {
      assert q.answer[0] == '0';
    }
  }

  /** `whole,` followed by the tens and ones digits of `x < 100` reads back as whole hundredths plus x. */
  lemma HundredthsText(whole: nat, x: nat)
    requires x < 100
    ensures DecimalValue(NatToString(whole) + "," + NatToString(x / 10) + NatToString(x % 10), 2) == Some(whole * 100 + x)
  {
    assert x == 10 * (x / 10) + x % 10;
    TwoDecimals(whole, x / 10, x % 10);
  }

  /** `decimalAdditionHundredths` for two hundredths counts below 100. */
  function DecimalAdditionHundredths(num1: nat, num2: nat): (q: Question)
    requires num1 < 100 && num2 < 100
    ensures DecimalValue(q.answer, 2) == Some(num1 + num2)
  {
    var sum := num1 + num2;
    var question := "0," + NatToString(num1 / 10) + NatToString(num1 % 10) + " + 0,"
                    + NatToString(num2 / 10) + NatToString(num2 % 10) + " =";
    if sum >= 100 then
      var rest := sum - 100;
      HundredthsText(1, rest);
      assert NatToString(1) + "," == "1,";
      Question(question, "1," + NatToString(rest / 10) + NatToString(rest % 10))
    else
      HundredthsText(0, sum);
      assert NatToString(0) + "," == "0,";
      Question(question, "0," + NatToString(sum / 10) + NatToString(sum % 10))
  }

  /** With both operands drawn from 11..49 the sum stays below 100: the carry branch is never taken. */
  lemma {:induction false} DecimalAdditionHundredthsNoCarry(num1: nat, num2: nat)
    requires 11 <= num1 <= 49 && 11 <= num2 <= 49
    ensures num1 + num2 <= 98
    ensures DecimalAdditionHundredths(num1, num2).answer[..2] == "0,"
  {
  }

  /** `decimalAdditionMixed`: w1,t1 + w2,t2 with the tenths carried into the whole part. */
  function DecimalAdditionMixed(whole1: nat, tenths1: nat, whole2: nat, tenths2: nat): (q: Question)
    requires tenths1 < 10 && tenths2 < 10
    ensures DecimalValue(q.answer, 1) == Some((whole1 + whole2) * 10 + tenths1 + tenths2)
  {
    var totalTenths := tenths1 + tenths2;
    var totalWhole := whole1 + whole2 + totalTenths / 10;
    var remaining := totalTenths % 10;
    OneDecimal(totalWhole, remaining);
    Question(NatToString(whole1) + "," + NatToString(tenths1) + " + " + NatToString(whole2) + "," + NatToString(tenths2) + " =",
             NatToString(totalWhole) + "," + NatToString(remaining))
  }

  // ---------------------------------------------------------------------
  // Decimal comparison

  /** A decimal number as the comparison patterns build it: a whole part and its decimals. */
  datatype Decimal = Decimal(whole: nat, ds: seq<nat>)

  predicate WellFormed(d: Decimal) {
    forall i | 0 <= i < |d.ds| :: d.ds[i] < 10
  }

  function Render(d: Decimal): string
    requires WellFormed(d)
  {
    DecimalText(d.whole, d.ds)
  }

  /** The value of the decimals alone: 0,d1d2… */
  function Fraction(ds: seq<nat>): real {
    if ds == [] then 0.0 else (ds[0] as real + Fraction(ds[1..])) / 10.0
  }

  function Value(d: Decimal): real {
    d.whole as real + Fraction(d.ds)
  }

  /** The two numbers shown, in display order, and the one given as the answer. */
  datatype Comparison = Comparison(num1: Decimal, num2: Decimal, bigger: Decimal)

  /** The draws a pattern needs, within the ranges it draws them from. */
  predicate PatternDraws(pattern: nat, whole: nat, d1: nat, d2: nat) {
    && 1 <= whole <= 20
    && match pattern
       case 0 => 1 <= d1 <= 8 && 1 <= d2 <= 9
       case 1 => d1 <= 9 && 1 <= d2 <= 9
       case 2 => true
       case 3 => 1 <= d1 <= 8 && 5 <= d2 <= 9
       case _ => false
  }

  /**
    The four patterns of `decimalComparison`, numbered from 0 in the order
    the source lists them; `swap` is the shuffle of pattern index 1 (the
    trailing-zero pattern).
   */
  function ComparisonPattern(pattern: nat, whole: nat, d1: nat, d2: nat, swap: bool): (c: Comparison)
    requires PatternDraws(pattern, whole, d1, d2)
    ensures WellFormed(c.num1) && WellFormed(c.num2)
    ensures c.bigger == c.num1 || c.bigger == c.num2
    ensures var other := if c.bigger == c.num1 then c.num2 else c.num1;
      (pattern == 1 ==> Value(c.bigger) == Value(other)) &&
      (pattern != 1 ==> Value(c.bigger) > Value(other))
  {
    match pattern
    case 0 =>
      var short, long := Decimal(whole, [d1]), Decimal(whole, [d1, d2]);
      assert Fraction([d1, d2][1..]) == Fraction([d2]) == d2 as real / 10.0;
      assert Fraction([d1]) == d1 as real / 10.0;
      Comparison(long, short, long)
    case 1 =>
      var a, b := Decimal(whole, [d1, d2]), Decimal(whole, [d1, d2, 0]);
      assert [d1, d2, 0][1..] == [d2, 0] && [d2, 0][1..] == [0] && [0][1..] == [] && [d1, d2][1..] == [d2];
      assert Fraction([0]) == 0.0;
      assert Fraction([d2, 0]) == d2 as real / 10.0;
      assert Fraction([d2]) == d2 as real / 10.0;
      if swap then Comparison(b, a, a) else Comparison(a, b, a)
    case 2 =>
      var a, b := Decimal(whole, [4, 8, 0]), Decimal(whole, [5]);
      assert [4, 8, 0][1..] == [8, 0] && [8, 0][1..] == [0] && [0][1..] == [];
      assert Fraction([0]) == 0.0;
      assert Fraction([8, 0]) == 0.8;
      assert Fraction([4, 8, 0]) == 0.48;
      assert Fraction([5]) == 0.5;
      Comparison(a, b, b)
    case 3 =>
      var a, b := Decimal(whole, [d1, d2]), Decimal(whole, [d1 + 1]);
      assert [d1, d2][1..] == [d2];
      assert Fraction([d2]) == d2 as real / 10.0;
      assert Fraction([d1 + 1]) == (d1 + 1) as real / 10.0;
      Comparison(a, b, b)
  }

  /**
    `decimalComparison`: "which is bigger?" over the two numbers of a
    pattern; the answer is always one of the two numbers shown, strictly
    the bigger one except in pattern index 1 (the trailing-zero pattern),
    whose two numbers are equal.
   */
  function DecimalComparison(pattern: nat, whole: nat, d1: nat, d2: nat, swap: bool): (q: Question)
    requires PatternDraws(pattern, whole, d1, d2)
    ensures var c := ComparisonPattern(pattern, whole, d1, d2, swap);
      && q.question == "Kva tal er størst?\n" + Render(c.num1) + " eller " + Render(c.num2)
      && (q.answer == Render(c.num1) || q.answer == Render(c.num2))
    ensures var c := ComparisonPattern(pattern, whole, d1, d2, swap);
      exists shown | shown == c.num1 || shown == c.num2 ::
        var other := if shown == c.num1 then c.num2 else c.num1;
        && q.answer == Render(shown)
        && (pattern == 1 ==> Value(shown) == Value(other))
        && (pattern != 1 ==> Value(shown) > Value(other))
  {
    var c := ComparisonPattern(pattern, whole, d1, d2, swap);
    Question("Kva tal er størst?\n" + Render(c.num1) + " eller " + Render(c.num2), Render(c.bigger))
  }
}
