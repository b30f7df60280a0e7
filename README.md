# Super-niche selector: selection state, CPL estimate and sentence

This project models the logic of the React component `SuperNicheSelector`. A
marketer picks a category (Health, Wealth, Relationship). They then pick at
most one option per audience dimension (Country, Language, Religion,
Profession, Age Group, Gender, Race, Marital Status) and type a niche phrase.
The component keeps the choices, estimates a cost per lead (CPL) from them,
and writes a one-line "super niche" sentence.

The model has three parts.

- `Selection` (`selection.dfy`): the component state as an immutable value
  (`SelectorState`), because React setters replace state wholesale. It holds
  the two handlers that change the state:
  - `handleElementSelect`: a `findIndex` loop, then replace in place or append.
    It is proved equal to the record-by-record upsert `Upsert`.
  - `handleCategorySelect`.
  `Step` and `Run` replay any sequence of user actions (category picks,
  option picks, edits of the niche phrase) from a state.
- `Scoring` (`scoring.dfy`): `calculateCPL`. The per-record `switch` is the
  method `VisitElement`, which picks the case label (`CaseOf`) and runs that
  case's statements (`VisitCase`). The `forEach` fold is the loop of `CalculateCPL`. Both
  are proved against reference functions:
  - `ContributionOf` and `CaseContribution`: what one record contributes;
  - `Accumulate`: the fold, written from the back;
  - `FinalCPL`: the narrowing, category, rarity and floor tail.
  `ScoringProperties` (`scoring_properties.dfy`) proves what the estimate
  promises about those functions.
- `Sentence` (`sentence.dfy`): `updateSuperNiche`, with `map`/`join` as
  recursive functions.

Numbers are `real`, and the constants are the ones in the code:
- base CPL 20;
- narrowing 0.75 per counted record;
- floor 0.5;
- category multipliers 1.3, 1.2 and 1.1;
- the rarity tables with their per-dimension fallbacks.

`Math.pow(rarityFactor, 1.5)` is a parameter `pow`. Where a property needs it,
`pow` is assumed to satisfy `IsRarityPower`: it maps (0, 1] into (0, 1], keeps
1 fixed and never decreases, as x^1.5 does. `Math.pow(0.75, n)` is computed
exactly by `Pow75`.

Some details of the code that the model keeps:
- a Country selection overwrites `countryFactor` instead of multiplying it;
- Country "Other" is neutral (it neither counts nor changes `countryFactor`),
  although its table weight is 0.7;
- every rarity lookup has its own fallback for labels the table lacks (0.7 for
  Country and Religion, 0.6 for Language, 0.8 for Profession, 0.9 for Age
  Group, Race and Marital Status).

## Model

| member | source | states |
|---|---|---|
| Selection.InitialState | src/SuperNicheSelector.js:5-7 | the component starts with no category, no records and no niche phrase |
| Selection.Upsert | src/SuperNicheSelector.js:151-158 | the upserted list has the same length when the dimension was present and one more record otherwise |
| Selection.FindIndex | src/SuperNicheSelector.js:153 | `findIndex` returns -1 exactly when no record has the dimension, and otherwise the index of the first record that has it |
| Selection.HandleElementSelect | src/SuperNicheSelector.js:151-160 | the new list is `Upsert` of the old list; the category and the niche phrase are untouched |
| Selection.HandleCategorySelect | src/SuperNicheSelector.js:146-149 | the category is set, the list is emptied, and the niche phrase is kept |
| Selection.UpsertReplacesFirst | src/SuperNicheSelector.js:153-155 | when the dimension is present, the first record of it is overwritten at its own index and every other record is unchanged |
| Selection.UpsertAppendsNew | src/SuperNicheSelector.js:156-157 | when the dimension is absent, the new record is appended after all the old ones |
| Selection.UpsertCounts | src/SuperNicheSelector.js:151-160 | the number of records of the selected dimension becomes max(1, before); every other dimension keeps its count |
| Selection.UpsertKeepsUnique | src/SuperNicheSelector.js:151-160 | with at most one record per dimension before, there is still at most one after, and it carries the new option |
| Selection.UpsertIdempotent | src/SuperNicheSelector.js:151-160 | selecting the same dimension and option twice gives the same list as selecting it once |
| Selection.Step | src/SuperNicheSelector.js:146-160 | a category pick sets the category and empties the list; an option pick upserts the list as `handleElementSelect` does; a niche edit only replaces the niche phrase; each action leaves the other slots alone |
| Selection.RunKeepsUnique | src/SuperNicheSelector.js:146-160 | from a state with at most one record per dimension, no sequence of category picks, option picks and niche edits ever reaches a list with two records of one dimension |
| Selection.ReachableStatesUnique | src/SuperNicheSelector.js:5-7 | every state reachable from the initial one holds at most one record per dimension |
| Scoring.CaseOf | src/SuperNicheSelector.js:64-112 | a record's `type` selects the case whose label it is exactly, and no case for any other string |
| Scoring.RarityScores | src/SuperNicheSelector.js:52-61 | every weight of every dimension's table lies in (0, 1] |
| Scoring.ScoreOr | src/SuperNicheSelector.js:68-111 | the lookup with its fallback is the fallback unless the label is in the table; with a weight fallback it is a weight |
| Scoring.IsNeutral | src/SuperNicheSelector.js:66-102 | only Country, Language, Religion, Profession and Race have options their case skips; each such option is in the table, and all but Country "Other" have weight 1 |
| Scoring.PreFloorCPL | src/SuperNicheSelector.js:117-135 | with in-range accumulators the pre-floor estimate is positive and at most the category-adjusted base |
| Scoring.Cpl | src/SuperNicheSelector.js:44-138 | the estimate of any state is at least 0.5 |
| Scoring.Pow75 | src/SuperNicheSelector.js:117 | `0.75^n` lies in (0, 1], and is at most 0.75 once a record has counted |
| Scoring.CategoryMultiplier | src/SuperNicheSelector.js:120-130 | exactly one multiplier between 1 and 1.3 is applied, and it is 1 if and only if the category is none of Wealth, Health, Relationship |
| Scoring.FinalCPL | src/SuperNicheSelector.js:135-138 | the estimate is never below 0.5; it is the pre-floor product whenever that product is at least 0.5, and 0.5 otherwise |
| Scoring.VisitElement | src/SuperNicheSelector.js:64-113 | one pass of the `switch` updates the four accumulators exactly as the record's reference contribution `ContributionOf` says, and a `type` with no case changes nothing |
| Scoring.VisitCase | src/SuperNicheSelector.js:65-112 | the statements under one case label update the accumulators exactly as that case's reference contribution `CaseContribution` says |
| Scoring.CalculateCPL | src/SuperNicheSelector.js:44-139 | the loop over the records, then the tail, returns `FinalCPL` of the category and the fold `Accumulate` of the whole list |
| ScoringProperties.ScoreOrLookup | src/SuperNicheSelector.js:52-61 | the lookup with its fallback (`table[option] or fallback`) is the table weight for a listed label and the fallback for any other; with a weight fallback it is always a weight in (0, 1] |
| ScoringProperties.CountryScore | src/SuperNicheSelector.js:66-68 | a non-neutral Country option writes a `countryFactor` between 0.7 and 0.9 |
| ScoringProperties.ContributionBounds | src/SuperNicheSelector.js:63-114 | every record counts at most once and multiplies by weights in (0, 1]; it counts if and only if its dimension has a case and the option is not that dimension's neutral one; otherwise it changes nothing; only Country overwrites `countryFactor` |
| ScoringProperties.AccumulateAppend | src/SuperNicheSelector.js:63 | the fold visits the records in list order: one more record at the end is one more step |
| ScoringProperties.AccumulateInRange | src/SuperNicheSelector.js:46-49 | for every list, `nicheFactor` and `rarityFactor` stay in (0, 1] and `countryFactor` in [0.7, 1] |
| ScoringProperties.ApplyInRange | src/SuperNicheSelector.js:63-114 | one step keeps the accumulators in range |
| ScoringProperties.ApplyUnchangedIff | src/SuperNicheSelector.js:63-114 | a record leaves the accumulators as they were if and only if it does not narrow; a narrowing record adds exactly one to `elementCount` |
| ScoringProperties.NonNarrowingRecordIgnored | src/SuperNicheSelector.js:66-106 | a neutral record (Country USA/Other, Language English, Religion No Religion, Profession No Specific Profession, Race White/No Specific) or one with an unknown dimension can be removed from anywhere in the list without changing the accumulators |
| ScoringProperties.NeutralSelectionKeepsCpl | src/SuperNicheSelector.js:63-138 | taking a non-narrowing record out of the state leaves the CPL unchanged |
| ScoringProperties.AlwaysCountedKinds | src/SuperNicheSelector.js:92-112 | an Age Group, Gender or Marital Status record always adds one to `elementCount`, whatever its option |
| ScoringProperties.UnscoredKindIgnored | src/SuperNicheSelector.js:64-113 | a record whose dimension matches no `case` contributes nothing |
| ScoringProperties.NarrowingCountAppend | src/SuperNicheSelector.js:63-114 | the number of narrowing records grows by one exactly for a narrowing record |
| ScoringProperties.ElementCountIsNarrowingCount | src/SuperNicheSelector.js:48 | `elementCount` is the number of narrowing records in the list |
| ScoringProperties.CategoryFactorsOut | src/SuperNicheSelector.js:120-135 | the category scales the whole pre-floor estimate by its multiplier (1.3, 1.2, 1.1 or 1), independently of the selections |
| ScoringProperties.CplAtMostCategoryBase | src/SuperNicheSelector.js:44-138 | whatever is selected, the CPL lies between the 0.5 floor and 20 times the category multiplier |
| ScoringProperties.NoSelectionsCpl | src/SuperNicheSelector.js:44-138 | with no records the CPL is 20 times the category multiplier |
| ScoringProperties.InitialCpl | src/SuperNicheSelector.js:5-9 | the start state is priced at exactly 20, the value the `cpl` slot starts with |
| ScoringProperties.CategorySelectResetsCpl | src/SuperNicheSelector.js:146-149 | right after a category is picked the CPL is the category-adjusted base: 26 for Wealth, 24 for Health, 22 for Relationship, 20 otherwise |
| ScoringProperties.CountryNarrowingLess | src/SuperNicheSelector.js:67-68 | one more count multiplies the narrowing by 0.75, and raising `countryFactor` from at least 0.7 to at most 0.9 cannot offset it |
| ScoringProperties.NarrowingStepBounds | src/SuperNicheSelector.js:63-114 | a narrowing step adds one count, does not raise the niche or rarity factors, and keeps `countryFactor` or sets it to a weight between 0.7 and 0.9 |
| ScoringProperties.SelectionFactorLower | src/SuperNicheSelector.js:117-135 | one narrowing step strictly lowers the product of the niche, country, narrowing and amplified rarity factors |
| ScoringProperties.NarrowerFactorsLower | src/SuperNicheSelector.js:117-135 | one narrowing step strictly lowers the pre-floor estimate |
| ScoringProperties.ApplyLowersEstimate | src/SuperNicheSelector.js:63-135 | a narrowing record strictly lowers the pre-floor estimate and any other record leaves it equal |
| ScoringProperties.AddingSelectionLowersCpl | src/SuperNicheSelector.js:63-138 | appending a narrowing record strictly lowers the pre-floor estimate, and appending any record never raises the CPL |
| ScoringProperties.SelectingNewDimensionNeverRaisesCpl | src/SuperNicheSelector.js:151-160 | selecting an option for a dimension not yet selected never raises the CPL |
| ScoringProperties.ApplyCommutes | src/SuperNicheSelector.js:63-114 | two steps of which at most one overwrites `countryFactor` give the same accumulators in either order |
| ScoringProperties.RecordsCommute | src/SuperNicheSelector.js:63-114 | records of two different dimensions can be visited in either order |
| ScoringProperties.SwapNeighboursKeepsFactors | src/SuperNicheSelector.js:63-114 | swapping two neighbouring records of different dimensions leaves the accumulators unchanged |
| ScoringProperties.MoveToEndKeepsFactors | src/SuperNicheSelector.js:63-114 | a record whose dimension no later record shares can be moved to the end of the list without changing the accumulators |
| ScoringProperties.RemoveKeepsUnique | src/SuperNicheSelector.js:151-160 | removing one record from a list with at most one record per dimension keeps that property |
| ScoringProperties.PermutationKeepsFactors | src/SuperNicheSelector.js:63-114 | for a list with at most one record per dimension, every rearrangement of it (the same multiset of records) gives the same accumulators |
| ScoringProperties.SelectionOrderKeepsCpl | src/SuperNicheSelector.js:44-139 | with at most one record per dimension, the CPL does not depend on the order in which the selections were made |
| ScoringProperties.RepeatedSelectKeepsCpl | src/SuperNicheSelector.js:151-160 | selecting the same option twice prices the same as selecting it once |
| Sentence.Options | src/SuperNicheSelector.js:172 | `map(el => el.option)` keeps the length and the order of the records |
| Sentence.UpdateSuperNiche | src/SuperNicheSelector.js:170-177 | the sentence is empty exactly when the niche phrase or the category is empty; otherwise it is the niche phrase, " for ", the options joined by ", ", " in the ", the category and " niche", each part at its own position |
| Sentence.Join | src/SuperNicheSelector.js:172 | `join` of no items is "", and a non-empty list's joined text starts with its first item |
| Sentence.JoinEnd | src/SuperNicheSelector.js:172 | the joined text ends with the last item: its length is the last item's offset plus the last item's length |
| Sentence.JoinPieces | src/SuperNicheSelector.js:172 | every item stands whole in the joined text, starting after all earlier items and their separators |
| Sentence.JoinSeparators | src/SuperNicheSelector.js:172 | the separator stands between each item and the next, so the items appear in list order |
| Sentence.JoinedItemAt | src/SuperNicheSelector.js:172-173 | inside any text that holds the joined options at some position, each option stands at that position plus its offset |
| Sentence.SentenceListsOptions | src/SuperNicheSelector.js:170-177 | every selected option appears whole in the sentence, after the niche phrase, " for " and all earlier options with their ", " |
| Sentence.JoinAppend | src/SuperNicheSelector.js:172 | joining one more option appends ", " and the option (or is the option alone when the list was empty) |
| Sentence.OptionsAppend | src/SuperNicheSelector.js:172 | appending a record appends its option |
| Sentence.SentenceAfterCategorySelect | src/SuperNicheSelector.js:146-177 | right after a category is picked, the options part of the sentence is empty: "niche for  in the C niche" |
| Sentence.SentenceAfterNewSelection | src/SuperNicheSelector.js:151-177 | selecting a new dimension adds ", " and the option at the end of the options part of the sentence; when nothing was selected yet the option becomes the whole options part |
| Sentence.OptionsAfterReplace | src/SuperNicheSelector.js:151-177 | re-selecting a dimension replaces only that dimension's option, at the same position in the sentence |

## Left out

- `toFixed(2)`: the component rounds the estimate to a two-decimal string. The model returns the exact real value.
- `Math.pow(x, 1.5)` is the parameter `pow`. Only `IsRarityPower` is assumed of it, and only where a property needs it.
- IEEE double arithmetic: every product is exact over the reals.
- A lookup of a label that is an inherited property of a JavaScript object (such as `toString`) is not modelled. Such a lookup would return a function, not `undefined`. The model treats every label outside the table as absent.
- Fetching the country list from the REST Countries service is I/O, and the service is not part of this model. A Country record is any string.
- The JSX rendering, `buttonStyle`, the `popularNiches` and `topCountries` lists, and the option lists are presentation only.
- `handleCountrySelect` and `handleQuickCountrySelect` only call `handleElementSelect` with the dimension "Country". They are covered by `Selection.HandleElementSelect` with that kind.
- The `useState`/`useEffect` wiring is not modelled. This includes the effect that recomputes the sentence and the CPL after each change. The model applies `UpdateSuperNiche` and `CalculateCPL` to the state directly. The niche input's `setCustomNiche` calls (src/SuperNicheSelector.js:242-258) are the `EditNiche` action of `Selection.Step`.
- `src/index.js` only mounts the component and is not part of this model.
