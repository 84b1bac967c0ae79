/** The pricing rule of the quote calculator (src/pages/Calculator.tsx).
    Every factor is a whole number of tenths, so the rule is stated in exact
    integers: factors are written in tenths (15 stands for x1.5) and the
    premium in euro cents. */
module Pricing {
  import opened Wrappers

  /** The age factor in tenths. An age that did not parse (NaN) is neither
      below 25 nor above 60, so it gets no adjustment. */
  function AgeFactor(age: Option<int>): (f: nat)
    ensures age.None? ==> f == 10
    ensures age.Some? ==> (f == 15 <==> age.value < 25)
    ensures age.Some? ==> (f == 18 <==> age.value > 60)
    ensures age.Some? ==> (f == 10 <==> 25 <= age.value <= 60)
  {
    match age
    case None => 10
    case Some(a) => if a < 25 then 15 else if a > 60 then 18 else 10
  }

  /** The insurance type factor in tenths; a type outside the four known ones
      leaves the premium as it is. */
  function TypeFactor(insuranceType: string): (f: nat)
    ensures insuranceType == "vida" ==> f == 12
    ensures insuranceType == "salud" ==> f == 15
    ensures insuranceType == "auto" ==> f == 13
    ensures insuranceType == "hogar" ==> f == 9
    ensures f == 10 <==> insuranceType !in {"vida", "salud", "auto", "hogar"}
  {
    match insuranceType
    case "vida" => 12
    case "salud" => 15
    case "auto" => 13
    case "hogar" => 9
    case _ => 10
  }

  /** `Math.round(num / den)`: the nearest integer, a tie going up. */
  function RoundHalfUp(num: int, den: int): (r: int)
    requires den > 0
    ensures 2 * den * r - den <= 2 * num < 2 * den * r + den
  {
    (2 * num + den) / (2 * den)
  }

  /** Only one integer is that close to `num / den`. */
  lemma RoundHalfUpUnique(num: int, den: int, r: int)
    requires den > 0
    requires 2 * den * r - den <= 2 * num < 2 * den * r + den
    ensures r == RoundHalfUp(num, den)
  {
    var q := RoundHalfUp(num, den);
    if r < q {
      MulGap(2 * den, r, q);
    } else if r > q {
      MulGap(2 * den, q, r);
    }
  }

  /** Multiples of `k` that differ are at least `k` apart. */
  lemma MulGap(k: int, a: int, b: int)
    requires k > 0 && a < b
    ensures k * a + k <= k * b
  {
    assert k * b - k * a == k * (b - a);
    MulMono(k, 1, b - a);
  }

  /** Scaling numerator and denominator alike does not change the rounding. */
  lemma RoundHalfUpScale(num: int, den: int, k: int)
    requires den > 0 && k > 0
    ensures RoundHalfUp(k * num, k * den) == RoundHalfUp(num, den)
  {
    var r := RoundHalfUp(num, den);
    assert 2 * den * r - den <= 2 * num < 2 * den * r + den;
    assert k * (2 * den * r - den) <= k * (2 * num) < k * (2 * den * r + den) by {
      MulStrict(k, 2 * num, 2 * den * r + den);
      MulMono(k, 2 * den * r - den, 2 * num);
    }
    assert 2 * (k * den) * r - k * den <= 2 * (k * num) < 2 * (k * den) * r + k * den;
    RoundHalfUpUnique(k * num, k * den, r);
  }

  lemma MulStrict(k: int, a: int, b: int)
    requires k > 0 && a < b
    ensures k * a < k * b
  {
  }

  lemma MulMono(k: int, a: int, b: int)
    requires k > 0 && a <= b
    ensures k * a <= k * b
  {
  }

  /** The annual premium in cents for a parsed age, an insurance type and a
      parsed coverage: coverage x 1% x age factor x type factor, rounded to
      the cent. */
  function AnnualPremiumCents(age: Option<int>, insuranceType: string, coverage: int): (r: int)
    ensures var exact := coverage * AgeFactor(age) * TypeFactor(insuranceType);
            // r cents is within half a cent of exact/100 cents, a tie going up
            200 * r - 100 <= 2 * exact < 200 * r + 100
  {
    RoundHalfUp(coverage * AgeFactor(age) * TypeFactor(insuranceType), 100)
  }

  /** The calculation as the source performs it, one multiplication at a time.
      `basePremium` is kept in millionths of a euro, a scale at which each
      multiplication by a tenth is exact. */
  method QuotePremium(age: Option<int>, insuranceType: string, coverage: int) returns (cents: int)
    ensures cents == AnnualPremiumCents(age, insuranceType, coverage)
  {
    var basePremium := coverage * 10000;  // coverage * 0.01 euros
    if age.Some? && age.value < 25 {
      basePremium := basePremium * 15 / 10;
    } else if age.Some? && age.value > 60 {
      basePremium := basePremium * 18 / 10;
    }
    assert basePremium == coverage * 1000 * AgeFactor(age);
    match insuranceType {
      case "vida" => basePremium := basePremium * 12 / 10;
      case "salud" => basePremium := basePremium * 15 / 10;
      case "auto" => basePremium := basePremium * 13 / 10;
      case "hogar" => basePremium := basePremium * 9 / 10;
      case _ =>
    }
    var exact := coverage * AgeFactor(age) * TypeFactor(insuranceType);
    assert basePremium == 100 * exact;
    // Math.round(basePremium * 100) / 100, counted in cents
    cents := RoundHalfUp(basePremium, 10000);
    RoundHalfUpScale(exact, 100, 100);
  }

  /** An age that does not parse prices like any age from 25 to 60. */
  lemma UnparsedAgeHasNoFactor(insuranceType: string, coverage: int, age: int)
    requires 25 <= age <= 60
    ensures AnnualPremiumCents(None, insuranceType, coverage)
         == AnnualPremiumCents(Some(age), insuranceType, coverage)
  {
  }

  /** Home insurance between 25 and 60 costs 0.9% of the coverage, rounded to
      the cent. */
  lemma HomeMidAge(age: int, coverage: int)
    requires 25 <= age <= 60
    ensures AnnualPremiumCents(Some(age), "hogar", coverage) == RoundHalfUp(9 * coverage, 10)
  {
  }

  /** The three worked quotes: 30 years, auto, 100000 gives 1300.00; 20 years,
      health, 50000 gives 1125.00; 65 years, home, 200000 gives 3240.00. */
  lemma WorkedQuotes()
    ensures AnnualPremiumCents(Some(30), "auto", 100000) == 130000
    ensures AnnualPremiumCents(Some(20), "salud", 50000) == 112500
    ensures AnnualPremiumCents(Some(65), "hogar", 200000) == 324000
  {
  }
}
