/** What the CPL heuristic promises about the fold of `calculateCPL`: the
    accumulators stay in range, neutral and unknown records change nothing,
    `elementCount` counts the narrowing records, a narrowing record always
    lowers the estimate, exactly one category multiplier is applied, and a
    category change resets the estimate to the category-adjusted base. */
module ScoringProperties {
  import opened Selection
  import opened Scoring

  /** No table weight is 0, so the `|| fallback` applies exactly to labels the
      table lacks; with a fallback in (0, 1] the looked-up weight is in (0, 1]. */
  lemma ScoreOrLookup(d: Dimension, option: string, fallback: real)
    ensures option in RarityScores(d) ==> ScoreOr(d, option, fallback) == RarityScores(d)[option]
    ensures option !in RarityScores(d) ==> ScoreOr(d, option, fallback) == fallback
    ensures IsWeight(fallback) ==> IsWeight(ScoreOr(d, option, fallback))
  {
    assert AllWeights(RarityScores(d));
  }

  /** A non-neutral Country label writes 0.9 (UK, Canada, Australia) or the fallback 0.7. */
  lemma CountryScore(option: string)
    requires option != "USA" && option != "Other"
    ensures 0.7 <= ScoreOr(Country, option, 0.7) <= 0.9
  {
    if option in RarityScores(Country) {
      assert option in {"UK", "Canada", "Australia"};
    }
  }

  /** The contributions every record can make: at most one count, factors in
      (0, 1], and a Country overwrite between 0.7 and 0.9. */
  predicate Bounded(c: Contribution) {
    c.count <= 1 && IsWeight(c.niche) && IsWeight(c.rarity) &&
    (c.country.Overwrite? ==> 0.7 <= c.country.weight <= 0.9)
  }

  /** Every record's contribution is bounded; it counts if and only if the record
      narrows, and a record that does not narrow contributes nothing at all. Only
      a Country record overwrites `countryFactor`. */
  lemma ContributionBounds(e: Element)
    ensures Bounded(ContributionOf(e))
    ensures ContributionOf(e).count == 1 <==> Narrows(e)
    ensures !Narrows(e) ==> ContributionOf(e) == NoContribution
    ensures ContributionOf(e).country.Overwrite? ==> e.kind == "Country"
  {
    match CaseOf(e.kind)
    case NoCase =>
    case Scored(d) =>
      if !IsNeutral(d, e.option) {
        match d
        case Country => CountryScore(e.option);
        case Language => ScoreOrLookup(Language, e.option, 0.6);
        case Religion => ScoreOrLookup(Religion, e.option, 0.7);
        case Profession => ScoreOrLookup(Profession, e.option, 0.8);
        case AgeGroup => ScoreOrLookup(AgeGroup, e.option, 0.9);
        case Gender =>
        case Race => ScoreOrLookup(Race, e.option, 0.9);
        case MaritalStatus => ScoreOrLookup(MaritalStatus, e.option, 0.9);
      }
  }

  /** The fold visits the records in list order: appending a record applies one more step. */
  lemma AccumulateAppend(s: seq<Element>, e: Element)
    ensures Accumulate(s + [e]) == Apply(Accumulate(s), ContributionOf(e))
  {
    assert (s + [e])[..|s|] == s;
  }

  /** The accumulators of every list stay in range. */
  lemma {:induction false} AccumulateInRange(s: seq<Element>)
    ensures InRange(Accumulate(s))
  {
    if s != [] {
      AccumulateInRange(s[..|s| - 1]);
      ContributionBounds(s[|s| - 1]);
      ApplyInRange(Accumulate(s[..|s| - 1]), ContributionOf(s[|s| - 1]));
    }
  }

  /** A bounded contribution keeps the accumulators in range. */
  lemma ApplyInRange(f: Factors, c: Contribution)
    requires InRange(f) && Bounded(c)
    ensures InRange(Apply(f, c))
  {
    ScaleDown(f.nicheFactor, c.niche);
    ScaleDown(f.rarityFactor, c.rarity);
  }

  /** A record leaves the accumulators exactly as they were if and only if it
      does not narrow: a neutral option, or a dimension the switch has no case for. */
  lemma ApplyUnchangedIff(f: Factors, e: Element)
    ensures Apply(f, ContributionOf(e)) == f <==> !Narrows(e)
    ensures Narrows(e) ==> Apply(f, ContributionOf(e)).elementCount == f.elementCount + 1
  {
    ContributionBounds(e);
  }

  /** Neutral records have no effect: the accumulators are those of the list
      with the record taken out, wherever it stands. */
  lemma {:induction false} NonNarrowingRecordIgnored(s1: seq<Element>, e: Element, s2: seq<Element>)
    requires !Narrows(e)
    ensures Accumulate(s1 + [e] + s2) == Accumulate(s1 + s2)
  {
    if s2 == [] {
      assert s1 + [e] + s2 == s1 + [e];
      assert s1 + s2 == s1;
      AccumulateAppend(s1, e);
      ApplyUnchangedIff(Accumulate(s1), e);
    } else {
      var init, last := s2[..|s2| - 1], s2[|s2| - 1];
      assert s2 == init + [last];
      assert s1 + [e] + s2 == (s1 + [e] + init) + [last];
      assert s1 + s2 == (s1 + init) + [last];
      NonNarrowingRecordIgnored(s1, e, init);
      AccumulateAppend(s1 + [e] + init, last);
      AccumulateAppend(s1 + init, last);
    }
  }

  /** Taking a non-narrowing record out of the state does not change the CPL. */
  lemma NeutralSelectionKeepsCpl(st: SelectorState, k: nat, pow: real -> real)
    requires k < |st.selectedElements| && !Narrows(st.selectedElements[k])
    ensures Cpl(st, pow) == Cpl(st.(selectedElements := st.selectedElements[..k] + st.selectedElements[k + 1..]), pow)
  {
    var s := st.selectedElements;
    assert s == s[..k] + [s[k]] + s[k + 1..];
    NonNarrowingRecordIgnored(s[..k], s[k], s[k + 1..]);
  }

  /** Age Group, Gender and Marital Status records always count, whatever the option. */
  lemma AlwaysCountedKinds(s: seq<Element>, e: Element)
    requires e.kind == "Age Group" || e.kind == "Gender" || e.kind == "Marital Status"
    ensures Accumulate(s + [e]).elementCount == Accumulate(s).elementCount + 1
  {
    assert CaseOf(e.kind) in {Scored(AgeGroup), Scored(Gender), Scored(MaritalStatus)};
    ContributionBounds(e);
    AccumulateAppend(s, e);
  }

  /** A record whose dimension matches no case contributes nothing. */
  lemma UnscoredKindIgnored(s: seq<Element>, e: Element)
    requires CaseOf(e.kind) == NoCase
    ensures Accumulate(s + [e]) == Accumulate(s)
  {
    AccumulateAppend(s, e);
  }

  /** The number of narrowing records of a list, counted from the front. */
  function NarrowingCount(s: seq<Element>): nat {
    if s == [] then 0 else (if Narrows(s[0]) then 1 else 0) + NarrowingCount(s[1..])
  }

  lemma {:induction false} NarrowingCountAppend(s: seq<Element>, e: Element)
    ensures NarrowingCount(s + [e]) == NarrowingCount(s) + (if Narrows(e) then 1 else 0)
  {
    if s != [] {
      assert (s + [e])[1..] == s[1..] + [e];
      NarrowingCountAppend(s[1..], e);
    }
  }

  /** `elementCount` is the number of narrowing records in the list. */
  lemma {:induction false} ElementCountIsNarrowingCount(s: seq<Element>)
    ensures Accumulate(s).elementCount == NarrowingCount(s)
  {
    if s != [] {
      var init := s[..|s| - 1];
      assert s == init + [s[|s| - 1]];
      ElementCountIsNarrowingCount(init);
      NarrowingCountAppend(init, s[|s| - 1]);
    }
  }

  /** Exactly one category multiplier is applied, and it does not depend on the selections. */
  lemma CategoryFactorsOut(category: string, f: Factors, pow: real -> real)
    ensures PreFloorCPL(category, f, pow) == CategoryMultiplier(category) * PreFloorCPL("", f, pow)
    ensures category == "Wealth" ==> PreFloorCPL(category, f, pow) == 1.3 * PreFloorCPL("", f, pow)
    ensures category == "Health" ==> PreFloorCPL(category, f, pow) == 1.2 * PreFloorCPL("", f, pow)
    ensures category == "Relationship" ==> PreFloorCPL(category, f, pow) == 1.1 * PreFloorCPL("", f, pow)
  {
    var x := f.nicheFactor * f.countryFactor * Pow75(f.elementCount) * pow(f.rarityFactor);
    assert PreFloorCPL(category, f, pow) == BaseCPL * CategoryMultiplier(category) * x;
    assert PreFloorCPL("", f, pow) == BaseCPL * x;
  }

  /** With no records the estimate is the category-adjusted base. */
  lemma NoSelectionsCpl(st: SelectorState, pow: real -> real)
    requires IsRarityPower(pow) && st.selectedElements == []
    ensures Cpl(st, pow) == BaseCPL * CategoryMultiplier(st.selectedCategory)
  {
  }

  /** Whatever is selected, the estimate lies between the 0.5 floor and the
      category-adjusted base: selections only ever discount it. */
  lemma CplAtMostCategoryBase(st: SelectorState, pow: real -> real)
    requires IsRarityPower(pow)
    ensures MinCPL <= Cpl(st, pow) <= BaseCPL * CategoryMultiplier(st.selectedCategory)
  {
    var f := Accumulate(st.selectedElements);
    AccumulateInRange(st.selectedElements);
    assert IsWeight(pow(f.rarityFactor));
  }

  /** The start state (no category, no records) is priced at exactly 20. */
  lemma InitialCpl(pow: real -> real)
    requires IsRarityPower(pow)
    ensures Cpl(InitialState(), pow) == 20.0
  {
    NoSelectionsCpl(InitialState(), pow);
  }

  /** `handleCategorySelect` resets the estimate: right after it the CPL is the
      new category's multiplier times the base, whatever was selected before. */
  lemma CategorySelectResetsCpl(st: SelectorState, category: string, pow: real -> real)
    requires IsRarityPower(pow)
    ensures Cpl(HandleCategorySelect(st, category), pow) == BaseCPL * CategoryMultiplier(category)
    ensures category == "Wealth" ==> Cpl(HandleCategorySelect(st, category), pow) == 26.0
    ensures category == "Health" ==> Cpl(HandleCategorySelect(st, category), pow) == 24.0
    ensures category == "Relationship" ==> Cpl(HandleCategorySelect(st, category), pow) == 22.0
  {
    NoSelectionsCpl(HandleCategorySelect(st, category), pow);
  }

  /** `a1 * c1 * p1 * w1 < a2 * c2 * p2 * w2` for positive factors when
      `c1 * p1 < c2 * p2` and the others do not grow. */
  lemma ProductLess(a1: real, c1: real, p1: real, w1: real, a2: real, c2: real, p2: real, w2: real)
    requires 0.0 < a1 <= a2 && 0.0 < c1 * p1 < c2 * p2 && 0.0 < w1 <= w2
    ensures 0.0 < a1 * c1 * p1 * w1 < a2 * c2 * p2 * w2
  {
    var m1, m2 := c1 * p1, c2 * p2;
    MulLess(a1, m1, a2, m2);
    MulLess(a1 * m1, w1, a2 * m2, w2);
    assert a1 * c1 * p1 * w1 == a1 * m1 * w1;
    assert a2 * c2 * p2 * w2 == a2 * m2 * w2;
  }

  /** `x1 * y1 < x2 * y2` for positive factors, one strictly and the other weakly smaller. */
  lemma MulLess(x1: real, y1: real, x2: real, y2: real)
    requires 0.0 < x1 <= x2 && 0.0 < y1 <= y2 && (x1 < x2 || y1 < y2)
    ensures 0.0 < x1 * y1 < x2 * y2
  {
    assert x1 * y1 <= x2 * y1;
    assert x2 * y1 <= x2 * y2;
  }

  /** One more narrowing step multiplies `narrowingFactor` by 0.75 and at most
      raises `countryFactor` from 0.7 to 0.9, so their product strictly falls. */
  lemma CountryNarrowingLess(c1: real, p1: real, c2: real, p2: real)
    requires 0.7 <= c2 <= 1.0 && 0.0 < p2 && p1 == Narrowing * p2
    requires c1 == c2 || 0.7 <= c1 <= 0.9
    ensures 0.0 < c1 * p1 < c2 * p2
  {
    assert c1 * p1 == (c1 * Narrowing) * p2;
    assert c1 * Narrowing < c2;
  }

  /** What one narrowing step does to in-range accumulators: one more count,
      niche and rarity factors that do not grow, and a country factor that is
      kept or overwritten with a weight between 0.7 and 0.9. */
  lemma NarrowingStepBounds(f: Factors, e: Element)
    requires InRange(f) && Narrows(e)
    ensures Apply(f, ContributionOf(e)).elementCount == f.elementCount + 1
    ensures 0.0 < Apply(f, ContributionOf(e)).nicheFactor <= f.nicheFactor
    ensures 0.0 < Apply(f, ContributionOf(e)).rarityFactor <= f.rarityFactor
    ensures Apply(f, ContributionOf(e)).countryFactor == f.countryFactor ||
            0.7 <= Apply(f, ContributionOf(e)).countryFactor <= 0.9
  {
    ContributionBounds(e);
  }

  /** Accumulators related as one narrowing step relates them have a strictly
      smaller selection factor. */
  lemma SelectionFactorLower(g: Factors, f: Factors, pow: real -> real)
    requires InRange(f) && 0.0 < pow(g.rarityFactor) <= pow(f.rarityFactor)
    requires g.elementCount == f.elementCount + 1
    requires 0.0 < g.nicheFactor <= f.nicheFactor
    requires g.countryFactor == f.countryFactor || 0.7 <= g.countryFactor <= 0.9
    ensures 0.0 < SelectionFactor(g, pow) < SelectionFactor(f, pow)
  {
    var pf, pg := Pow75(f.elementCount), Pow75(g.elementCount);
    var wf, wg := pow(f.rarityFactor), pow(g.rarityFactor);
    assert SelectionFactor(g, pow) == g.nicheFactor * g.countryFactor * pg * wg;
    assert SelectionFactor(f, pow) == f.nicheFactor * f.countryFactor * pf * wf;
    assert pg == Narrowing * pf;
    NarrowedProductLower(g.nicheFactor, g.countryFactor, pg, wg, f.nicheFactor, f.countryFactor, pf, wf);
  }

  /** The product `niche * country * narrowing * rarity` strictly falls over one
      narrowing step: narrowing is multiplied by 0.75, the country weight is
      kept or set between 0.7 and 0.9, and the other two factors do not grow. */
  lemma NarrowedProductLower(n1: real, c1: real, p1: real, w1: real, n2: real, c2: real, p2: real, w2: real)
    requires 0.0 < n1 <= n2 && 0.0 < w1 <= w2 && 0.7 <= c2 <= 1.0 && 0.0 < p2 && p1 == Narrowing * p2
    requires c1 == c2 || 0.7 <= c1 <= 0.9
    ensures 0.0 < n1 * c1 * p1 * w1 < n2 * c2 * p2 * w2
  {
    CountryNarrowingLess(c1, p1, c2, p2);
    ProductLess(n1, c1, p1, w1, n2, c2, p2, w2);
  }

  /** Accumulators related as one narrowing step relates them give a strictly lower estimate. */
  lemma NarrowerFactorsLower(category: string, g: Factors, f: Factors, pow: real -> real)
    requires IsRarityPower(pow) && InRange(f)
    requires g.elementCount == f.elementCount + 1
    requires 0.0 < g.nicheFactor <= f.nicheFactor && 0.0 < g.rarityFactor <= f.rarityFactor
    requires g.countryFactor == f.countryFactor || 0.7 <= g.countryFactor <= 0.9
    ensures PreFloorCPL(category, g, pow) < PreFloorCPL(category, f, pow)
  {
    assert 0.0 < pow(g.rarityFactor) <= pow(f.rarityFactor);
    SelectionFactorLower(g, f, pow);
    MulLess(BaseCPL * CategoryMultiplier(category), SelectionFactor(g, pow),
            BaseCPL * CategoryMultiplier(category), SelectionFactor(f, pow));
  }

  /** A narrowing record always lowers the pre-floor estimate; any other record leaves it as it is. */
  lemma ApplyLowersEstimate(category: string, f: Factors, e: Element, pow: real -> real)
    requires IsRarityPower(pow) && InRange(f)
    ensures Narrows(e) ==> PreFloorCPL(category, Apply(f, ContributionOf(e)), pow) < PreFloorCPL(category, f, pow)
    ensures !Narrows(e) ==> PreFloorCPL(category, Apply(f, ContributionOf(e)), pow) == PreFloorCPL(category, f, pow)
  {
    if Narrows(e) {
      NarrowingStepBounds(f, e);
      NarrowerFactorsLower(category, Apply(f, ContributionOf(e)), f, pow);
    } else {
      ApplyUnchangedIff(f, e);
    }
  }

  /** Adding a narrowing selection at the end of the list strictly lowers the
      pre-floor estimate, and never raises the CPL. */
  lemma AddingSelectionLowersCpl(st: SelectorState, e: Element, pow: real -> real)
    requires IsRarityPower(pow)
    ensures Narrows(e) ==>
      PreFloorCPL(st.selectedCategory, Accumulate(st.selectedElements + [e]), pow) <
      PreFloorCPL(st.selectedCategory, Accumulate(st.selectedElements), pow)
    ensures Cpl(st.(selectedElements := st.selectedElements + [e]), pow) <= Cpl(st, pow)
  {
    AccumulateAppend(st.selectedElements, e);
    AccumulateInRange(st.selectedElements);
    ApplyLowersEstimate(st.selectedCategory, Accumulate(st.selectedElements), e, pow);
  }

  /** Selecting an option for a dimension not yet selected never raises the CPL. */
  lemma SelectingNewDimensionNeverRaisesCpl(st: SelectorState, t: string, o: string, pow: real -> real)
    requires IsRarityPower(pow) && !HasKind(st.selectedElements, t)
    ensures Cpl(st.(selectedElements := Upsert(st.selectedElements, t, o)), pow) <= Cpl(st, pow)
  {
    UpsertAppendsNew(st.selectedElements, t, o);
    AddingSelectionLowersCpl(st, Element(t, o), pow);
  }

  /** Two contributions of which at most one overwrites `countryFactor` can be applied in either order. */
  lemma ApplyCommutes(f: Factors, c1: Contribution, c2: Contribution)
    requires c1.country == Keep || c2.country == Keep
    ensures Apply(Apply(f, c1), c2) == Apply(Apply(f, c2), c1)
  {
    assert f.nicheFactor * c1.niche * c2.niche == f.nicheFactor * c2.niche * c1.niche;
    assert f.rarityFactor * c1.rarity * c2.rarity == f.rarityFactor * c2.rarity * c1.rarity;
  }

  /** Records of two different dimensions can be visited in either order. */
  lemma RecordsCommute(f: Factors, e1: Element, e2: Element)
    requires e1.kind != e2.kind
    ensures Apply(Apply(f, ContributionOf(e1)), ContributionOf(e2)) ==
            Apply(Apply(f, ContributionOf(e2)), ContributionOf(e1))
  {
    ContributionBounds(e1);
    ContributionBounds(e2);
    ApplyCommutes(f, ContributionOf(e1), ContributionOf(e2));
  }

  /** Swapping two neighbouring records of different dimensions leaves the
      accumulators unchanged. */
  lemma {:induction false} SwapNeighboursKeepsFactors(s: seq<Element>, k: nat)
    requires k + 1 < |s| && s[k].kind != s[k + 1].kind
    ensures Accumulate(s[..k] + [s[k + 1], s[k]] + s[k + 2..]) == Accumulate(s)
  {
    var t := s[..k] + [s[k + 1], s[k]] + s[k + 2..];
    if k + 2 == |s| {
      assert t == (s[..k] + [s[k + 1]]) + [s[k]];
      assert s == (s[..k] + [s[k]]) + [s[k + 1]];
      AccumulateAppend(s[..k] + [s[k + 1]], s[k]);
      AccumulateAppend(s[..k], s[k + 1]);
      AccumulateAppend(s[..k] + [s[k]], s[k + 1]);
      AccumulateAppend(s[..k], s[k]);
      RecordsCommute(Accumulate(s[..k]), s[k], s[k + 1]);
    } else {
      var init := s[..|s| - 1];
      assert init[..k] == s[..k] && init[k] == s[k] && init[k + 1] == s[k + 1];
      assert t == (init[..k] + [init[k + 1], init[k]] + init[k + 2..]) + [s[|s| - 1]];
      assert s == init + [s[|s| - 1]];
      SwapNeighboursKeepsFactors(init, k);
      AccumulateAppend(init[..k] + [init[k + 1], init[k]] + init[k + 2..], s[|s| - 1]);
      AccumulateAppend(init, s[|s| - 1]);
    }
  }

  /** A record whose dimension no later record shares can be moved to the end
      of the list without changing the accumulators. */
  lemma {:induction false} MoveToEndKeepsFactors(s: seq<Element>, k: nat)
    requires k < |s|
    requires forall j :: k < j < |s| ==> s[j].kind != s[k].kind
    ensures Accumulate(s[..k] + s[k + 1..] + [s[k]]) == Accumulate(s)
    decreases |s| - k
  {
    if k + 1 < |s| {
      var t := s[..k] + [s[k + 1], s[k]] + s[k + 2..];
      SwapNeighboursKeepsFactors(s, k);
      SwapShape(s, k);
      MoveToEndKeepsFactors(t, k + 1);
    } else {
      assert s[..k] + s[k + 1..] + [s[k]] == s;
    }
  }

  /** After swapping the neighbours at `k` and `k + 1`, the old `s[k]` sits at
      `k + 1` with the old tail after it, and taking it out leaves what taking
      `s[k]` out of `s` leaves. */
  lemma SwapShape<T>(s: seq<T>, k: nat)
    requires k + 1 < |s|
    ensures var t := s[..k] + [s[k + 1], s[k]] + s[k + 2..];
            |t| == |s| && t[k + 1] == s[k] &&
            (forall j :: k + 1 < j < |t| ==> t[j] == s[j]) &&
            t[..k + 1] + t[k + 2..] == s[..k] + s[k + 1..]
  {
    var t := s[..k] + [s[k + 1], s[k]] + s[k + 2..];
    assert t[k + 2..] == s[k + 2..];
    forall j | k + 1 < j < |t| ensures t[j] == s[j] {
      assert t[j] == t[k + 2..][j - k - 2];
    }
    assert t[..k + 1] + t[k + 2..] == s[..k] + s[k + 1..];
  }

  /** Taking one record out of a list with one record per dimension leaves one
      record per dimension. */
  lemma RemoveKeepsUnique(s: seq<Element>, k: nat)
    requires UniqueKinds(s) && k < |s|
    ensures UniqueKinds(s[..k] + s[k + 1..])
  {
    var rest := s[..k] + s[k + 1..];
    forall i, j | 0 <= i < j < |rest|
      ensures rest[i].kind != rest[j].kind
    {
      var i', j' := if i < k then i else i + 1, if j < k then j else j + 1;
      assert rest[i] == s[i'] && rest[j] == s[j'];
    }
  }

  /** Taking the record at `k` out removes exactly one copy of it from the multiset. */
  lemma RemoveOne(s: seq<Element>, k: nat)
    requires k < |s|
    ensures multiset(s[..k] + s[k + 1..]) == multiset(s) - multiset{s[k]}
  {
    assert s == s[..k] + [s[k]] + s[k + 1..];
  }

  /** With at most one record per dimension the order of the records does not
      matter: any rearrangement of the list gives the same accumulators. */
  lemma {:induction false} PermutationKeepsFactors(s: seq<Element>, u: seq<Element>)
    requires UniqueKinds(s) && multiset(s) == multiset(u)
    ensures Accumulate(u) == Accumulate(s)
    decreases |s|
  {
    if u == [] {
      assert |s| == |multiset(s)| == 0;
    } else {
      var n := |u| - 1;
      var e := u[n];
      assert u == u[..n] + [e];
      assert e in multiset(s);
      var k :| 0 <= k < |s| && s[k] == e;
      var rest := s[..k] + s[k + 1..];
      RemoveOne(s, k);
      RemoveOne(u, n);
      assert u[..n] + u[n + 1..] == u[..n];
      MoveToEndKeepsFactors(s, k);
      RemoveKeepsUnique(s, k);
      PermutationKeepsFactors(rest, u[..n]);
      AccumulateAppend(rest, e);
      AccumulateAppend(u[..n], e);
    }
  }

  /** The CPL of a state with one record per dimension does not depend on the
      order in which the selections were made. */
  lemma SelectionOrderKeepsCpl(st: SelectorState, u: seq<Element>, pow: real -> real)
    requires UniqueKinds(st.selectedElements) && multiset(st.selectedElements) == multiset(u)
    ensures Cpl(st.(selectedElements := u), pow) == Cpl(st, pow)
  {
    PermutationKeepsFactors(st.selectedElements, u);
  }

  /** Selecting the same `(type, option)` twice prices the same as selecting it once. */
  lemma RepeatedSelectKeepsCpl(st: SelectorState, t: string, o: string, pow: real -> real)
    ensures Cpl(st.(selectedElements := Upsert(Upsert(st.selectedElements, t, o), t, o)), pow) ==
            Cpl(st.(selectedElements := Upsert(st.selectedElements, t, o)), pow)
  {
    UpsertIdempotent(st.selectedElements, t, o);
  }
}
