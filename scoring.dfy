/** `calculateCPL`: the heuristic cost-per-lead estimate. A fold over the
    selected records builds four accumulators (the number of narrowing records,
    a product of per-dimension niche factors, a product of rarity-table weights
    and an overwritten country factor); the result is the base price times the
    category multiplier times these factors, floored at 0.5.

    All arithmetic is over `real`. `Math.pow(rarityFactor, 1.5)` is the
    parameter `pow`, of which only `IsRarityPower` is assumed; `Math.pow(0.75, n)`
    is the exact `Pow75(n)`. */
module Scoring {
  import opened Selection

  /** `let baseCPL = 20`. */
  const BaseCPL: real := 20.0
  /** The per-record discount of `Math.pow(0.75, elementCount)`. */
  const Narrowing: real := 0.75
  /** `Math.max(finalCPL, 0.5)`. */
  const MinCPL: real := 0.5

  /** The dimensions the `switch (element.type)` has a case for. */
  datatype Dimension = Country | Language | Religion | Profession | AgeGroup | Gender | Race | MaritalStatus

  /** The case label a record's `type` string selects, if any. */
  datatype Case = Scored(dimension: Dimension) | NoCase

  /** The `type` string of each case label of the switch. */
  function Label(d: Dimension): string {
    match d
    case Country => "Country"
    case Language => "Language"
    case Religion => "Religion"
    case Profession => "Profession"
    case AgeGroup => "Age Group"
    case Gender => "Gender"
    case Race => "Race"
    case MaritalStatus => "Marital Status"
  }

  /** Which case of the switch the string `kind` falls into: the dimension
      whose label it is, and no case for any other string. */
  function CaseOf(kind: string): (c: Case)
    ensures c.Scored? ==> Label(c.dimension) == kind
    ensures forall d :: kind == Label(d) ==> c == Scored(d)
  {
    match kind
    case "Country" => Scored(Country)
    case "Language" => Scored(Language)
    case "Religion" => Scored(Religion)
    case "Profession" => Scored(Profession)
    case "Age Group" => Scored(AgeGroup)
    case "Gender" => Scored(Gender)
    case "Race" => Scored(Race)
    case "Marital Status" => Scored(MaritalStatus)
    case _ => NoCase
  }

  /** The `rarityScores` table: `RarityScores(d)` is the option-label-to-weight
      object of dimension `d`. No weight is 0 or above 1. */
  function RarityScores(d: Dimension): (table: map<string, real>)
    ensures AllWeights(table)
  {
    match d
    case Country => map["USA" := 1.0, "UK" := 0.9, "Canada" := 0.9, "Australia" := 0.9, "Other" := 0.7]
    case Language => map["English" := 1.0, "Spanish" := 0.9, "French" := 0.8, "Mandarin" := 0.7, "Other" := 0.6]
    case Religion => map["Christian" := 1.0, "Muslim" := 0.8, "Hindu" := 0.7, "Buddhist" := 0.7, "No Religion" := 1.0]
    case Profession => map["Teacher" := 0.9, "Doctor" := 0.9, "Engineer" := 0.9, "Artist" := 0.8, "No Specific Profession" := 1.0]
    case AgeGroup => map["18-25" := 1.0, "26-40" := 1.0, "41-60" := 0.9, "60+" := 0.8]
    case Gender => map["Male" := 1.0, "Female" := 1.0]
    case Race => map["White" := 1.0, "Black" := 0.9, "Asian" := 0.9, "No Specific" := 1.0]
    case MaritalStatus => map["Single" := 1.0, "Married" := 1.0, "Divorced" := 0.9]
  }

  /** A multiplier that never raises an estimate and never zeroes it. */
  predicate IsWeight(x: real) {
    0.0 < x <= 1.0
  }

  /** Every weight of a table lies in (0, 1]. */
  predicate AllWeights(table: map<string, real>) {
    forall k :: k in table ==> IsWeight(table[k])
  }

  /** `rarityScores[d][option] || fallback`: the table weight, or the
      fallback when the label is not in the table (JavaScript's `undefined`)
      or its weight is falsy (0). */
  function ScoreOr(d: Dimension, option: string, fallback: real): (r: real)
    ensures r == fallback || option in RarityScores(d)
    ensures IsWeight(fallback) ==> IsWeight(r)
  {
    var table := RarityScores(d);
    if option in table && table[option] != 0.0 then table[option] else fallback
  }

  /** The options each guarded case skips: USA and Other for Country, English,
      No Religion, No Specific Profession, and White and No Specific for Race.
      Age Group, Gender and Marital Status have no neutral option. Every
      neutral option is listed in the table, and apart from Country "Other"
      it is a weight-1 option, one the table gives no discount. */
  predicate IsNeutral(d: Dimension, option: string)
    ensures IsNeutral(d, option) ==> d != AgeGroup && d != Gender && d != MaritalStatus
    ensures IsNeutral(d, option) ==> option in RarityScores(d)
    ensures IsNeutral(d, option) && option != "Other" ==> RarityScores(d)[option] == 1.0
  {
    match d
    case Country => option == "USA" || option == "Other"
    case Language => option == "English"
    case Religion => option == "No Religion"
    case Profession => option == "No Specific Profession"
    case Race => option == "White" || option == "No Specific"
    case _ => false
  }

  /** The record changes the accumulators: its `type` has a case and its option is not neutral. */
  predicate Narrows(e: Element) {
    CaseOf(e.kind).Scored? && !IsNeutral(CaseOf(e.kind).dimension, e.option)
  }

  /** How a record treats `countryFactor`: left alone, or overwritten. */
  datatype CountryUpdate = Keep | Overwrite(weight: real)

  /** What one record contributes: an increment of `elementCount`, factors for
      `nicheFactor` and `rarityFactor`, and an update of `countryFactor`. */
  datatype Contribution = Contribution(count: nat, niche: real, rarity: real, country: CountryUpdate)

  /** The contribution of a record that changes nothing. */
  const NoContribution: Contribution := Contribution(0, 1.0, 1.0, Keep)

  /** Reference description of the switch: the record's case, or no change
      when its `type` has none. */
  function ContributionOf(e: Element): Contribution {
    match CaseOf(e.kind)
    case NoCase => NoContribution
    case Scored(d) => CaseContribution(d, e.option)
  }

  /** The body of case `d`, one dimension per row: the niche factor, the
      rarity lookup with its own fallback, and the Country overwrite. */
  function CaseContribution(d: Dimension, option: string): Contribution {
    if IsNeutral(d, option) then NoContribution
    else match d
      case Country => Contribution(1, 1.0, 1.0, Overwrite(ScoreOr(Country, option, 0.7)))
      case Language => Contribution(1, 0.9, ScoreOr(Language, option, 0.6), Keep)
      case Religion => Contribution(1, 0.85, ScoreOr(Religion, option, 0.7), Keep)
      case Profession => Contribution(1, 0.75, ScoreOr(Profession, option, 0.8), Keep)
      case AgeGroup => Contribution(1, 0.8, ScoreOr(AgeGroup, option, 0.9), Keep)
      case Gender => Contribution(1, 0.85, 1.0, Keep)
      case Race => Contribution(1, 0.9, ScoreOr(Race, option, 0.9), Keep)
      case MaritalStatus => Contribution(1, 0.85, ScoreOr(MaritalStatus, option, 0.9), Keep)
  }

  /** The four accumulators of the fold. */
  datatype Factors = Factors(elementCount: nat, nicheFactor: real, rarityFactor: real, countryFactor: real)

  /** Their values before the first record. */
  const Initial: Factors := Factors(0, 1.0, 1.0, 1.0)

  /** One step of the fold: add the count, multiply the two factors, apply the country update. */
  function Apply(f: Factors, c: Contribution): Factors {
    Factors(
      f.elementCount + c.count,
      f.nicheFactor * c.niche,
      f.rarityFactor * c.rarity,
      match c.country
      case Keep => f.countryFactor
      case Overwrite(w) => w)
  }

  /** The accumulators after `selectedElements.forEach` has visited all of `s`, in order. */
  function Accumulate(s: seq<Element>): Factors {
    if s == [] then Initial else Apply(Accumulate(s[..|s| - 1]), ContributionOf(s[|s| - 1]))
  }

  /** The bounds every reachable accumulator state keeps. */
  predicate InRange(f: Factors) {
    IsWeight(f.nicheFactor) && IsWeight(f.rarityFactor) && 0.7 <= f.countryFactor <= 1.0
  }

  /** `Math.pow(0.75, n)`. */
  function Pow75(n: nat): (r: real)
    ensures IsWeight(r)
    ensures n > 0 ==> r <= Narrowing
  {
    if n == 0 then 1.0 else Narrowing * Pow75(n - 1)
  }

  /** What the model assumes of `x => Math.pow(x, 1.5)`: it maps (0, 1] into
      (0, 1], keeps 1 fixed, and never decreases. */
  ghost predicate IsRarityPower(pow: real -> real) {
    pow(1.0) == 1.0 &&
    (forall x :: 0.0 < x <= 1.0 ==> IsWeight(pow(x))) &&
    (forall x, y :: 0.0 < x <= y <= 1.0 ==> pow(x) <= pow(y))
  }

  /** The category switch: exactly one multiplier, 1 for any other category. */
  function CategoryMultiplier(category: string): (m: real)
    ensures 1.0 <= m <= 1.3
    ensures m == 1.0 <==> category !in {"Wealth", "Health", "Relationship"}
  {
    match category
    case "Wealth" => 1.3
    case "Health" => 1.2
    case "Relationship" => 1.1
    case _ => 1.0
  }

  /** The part of `finalCPL` the selections contribute:
      `nicheFactor * countryFactor * narrowingFactor * rarityFactor`. */
  function SelectionFactor(f: Factors, pow: real -> real): real {
    f.nicheFactor * f.countryFactor * Pow75(f.elementCount) * pow(f.rarityFactor)
  }

  /** A product of four weights is a weight. */
  lemma WeightProduct(a: real, b: real, c: real, d: real)
    ensures IsWeight(a) && IsWeight(b) && IsWeight(c) && IsWeight(d) ==> IsWeight(a * b * c * d)
  {
    if IsWeight(a) && IsWeight(b) && IsWeight(c) && IsWeight(d) {
      ScaleDown(a, b);
      ScaleDown(a * b, c);
      ScaleDown(a * b * c, d);
    }
  }

  /** In-range accumulators scale a positive price down, never to zero. */
  lemma ScaledSelectionBound(price: real, f: Factors, pow: real -> real)
    ensures 0.0 < price && InRange(f) && IsWeight(pow(f.rarityFactor)) ==>
              0.0 < price * SelectionFactor(f, pow) <= price
  {
    if 0.0 < price && InRange(f) && IsWeight(pow(f.rarityFactor)) {
      var x := f.nicheFactor * f.countryFactor * Pow75(f.elementCount) * pow(f.rarityFactor);
      WeightProduct(f.nicheFactor, f.countryFactor, Pow75(f.elementCount), pow(f.rarityFactor));
      assert IsWeight(f.nicheFactor);
      assert IsWeight(f.countryFactor);
      assert IsWeight(Pow75(f.elementCount));
      assert IsWeight(pow(f.rarityFactor));
      ScaleDown(price, x);
    }
  }

  /** Multiplying a positive number by a weight keeps it positive and never raises it. */
  lemma ScaleDown(x: real, y: real)
    ensures 0.0 < x && IsWeight(y) ==> 0.0 < x * y <= x
  {
    if 0.0 < x && IsWeight(y) {
      assert x * y <= x * 1.0;
    }
  }

  /** `finalCPL` before the floor: the category-adjusted `baseCPL` times the selection factor. */
  function PreFloorCPL(category: string, f: Factors, pow: real -> real): (r: real)
    ensures InRange(f) && IsWeight(pow(f.rarityFactor)) ==>
              0.0 < r <= BaseCPL * CategoryMultiplier(category)
  {
    ScaledSelectionBound(BaseCPL * CategoryMultiplier(category), f, pow);
    BaseCPL * CategoryMultiplier(category) * SelectionFactor(f, pow)
  }

  /** The tail of `calculateCPL`: narrowing, category multiplier, rarity
      amplification, product and `Math.max(finalCPL, 0.5)`. */
  function FinalCPL(category: string, f: Factors, pow: real -> real): (r: real)
    ensures r >= MinCPL
    ensures r == MinCPL || r == PreFloorCPL(category, f, pow)
    ensures PreFloorCPL(category, f, pow) >= MinCPL ==> r == PreFloorCPL(category, f, pow)
  {
    var finalCPL := PreFloorCPL(category, f, pow);
    if finalCPL >= MinCPL then finalCPL else MinCPL
  }

  /** The value `calculateCPL` returns for a state, before `toFixed(2)`. */
  function Cpl(st: SelectorState, pow: real -> real): (r: real)
    ensures r >= MinCPL
  {
    FinalCPL(st.selectedCategory, Accumulate(st.selectedElements), pow)
  }

  /** The `forEach` callback: the `switch (element.type)` picks the case
      label (`CaseOf`); a `type` with no case leaves the accumulators alone. */
  method VisitElement(acc: Factors, element: Element) returns (next: Factors)
    ensures next == Apply(acc, ContributionOf(element))
  {
    match CaseOf(element.kind) {
      case NoCase => next := acc;
      case Scored(d) => next := VisitCase(acc, d, element.option);
    }
  }

  /** The statements under case label `d` of the switch, updating the four
      accumulators for a record with option `option`. */
  method VisitCase(acc: Factors, d: Dimension, option: string) returns (next: Factors)
    ensures next == Apply(acc, CaseContribution(d, option))
  {
    var elementCount, nicheFactor, rarityFactor, countryFactor :=
      acc.elementCount, acc.nicheFactor, acc.rarityFactor, acc.countryFactor;
    match d {
      case Country =>
        if option != "USA" && option != "Other" {
          elementCount := elementCount + 1;
          countryFactor := ScoreOr(Country, option, 0.7);
        }
      case Language =>
        if option != "English" {
          elementCount := elementCount + 1;
          nicheFactor := nicheFactor * 0.9;
          rarityFactor := rarityFactor * ScoreOr(Language, option, 0.6);
        }
      case Religion =>
        if option != "No Religion" {
          elementCount := elementCount + 1;
          nicheFactor := nicheFactor * 0.85;
          rarityFactor := rarityFactor * ScoreOr(Religion, option, 0.7);
        }
      case Profession =>
        if option != "No Specific Profession" {
          elementCount := elementCount + 1;
          nicheFactor := nicheFactor * 0.75;
          rarityFactor := rarityFactor * ScoreOr(Profession, option, 0.8);
        }
      case AgeGroup =>
        elementCount := elementCount + 1;
        nicheFactor := nicheFactor * 0.8;
        rarityFactor := rarityFactor * ScoreOr(AgeGroup, option, 0.9);
      case Gender =>
        elementCount := elementCount + 1;
        nicheFactor := nicheFactor * 0.85;
      case Race =>
        if option != "White" && option != "No Specific" {
          elementCount := elementCount + 1;
          nicheFactor := nicheFactor * 0.9;
          rarityFactor := rarityFactor * ScoreOr(Race, option, 0.9);
        }
      case MaritalStatus =>
        elementCount := elementCount + 1;
        nicheFactor := nicheFactor * 0.85;
        rarityFactor := rarityFactor * ScoreOr(MaritalStatus, option, 0.9);
    }
    next := Factors(elementCount, nicheFactor, rarityFactor, countryFactor);
  }

  /** `calculateCPL`, step by step as the source runs it. */
  method CalculateCPL(st: SelectorState, pow: real -> real) returns (cpl: real)
    ensures cpl == Cpl(st, pow)
  {
    var elements := st.selectedElements;
    var acc := Initial;
    var i := 0;
    while i < |elements|
      invariant 0 <= i <= |elements|
      invariant acc == Accumulate(elements[..i])
    {
      acc := VisitElement(acc, elements[i]);
      assert elements[..i + 1][..i] == elements[..i];
      i := i + 1;
    }
    assert elements[..i] == elements;

    cpl := FinalCPL(st.selectedCategory, acc, pow);
  }
}
