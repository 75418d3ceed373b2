# EB-1 eligibility screener: the classification engine in Dafny

The screener asks a candidate 21 questions about their qualifications. It then
places them in exactly one outcome of a prioritised rule chain covering the
three EB-1 categories:

- EB-1A: extraordinary ability.
- EB-1B: outstanding researcher or professor.
- EB-1C: multinational manager or executive.

This project models the core of that program:

- the flat answer record, where an absent key means `False`;
- the merge that folds the two EB-1B-section copies of the shared facts ("lesser award", "membership") into their canonical keys;
- the two criteria counters and the derived eligibility facts;
- the chain of sixteen early-return rules (the major-award override and fifteen numbered outcomes).

Everything is pure, so the model is datatypes, functions and lemmas:

- `decimal.dfy` (module `Decimal`): decimal rendering of the counts embedded
  in score labels (`f'{n}/10'`) and the parser that inverts it.
- `criteria.dfy` (module `Criteria`): `Answers` (one field per key),
  `Default()` (every key absent), `Merge`.
- `engine.dfy` (module `Engine`):
  - `CountA`/`CountB` (Python `sum` over the fixed boolean lists) and the derived `Profile`, which is everything the chain reads;
  - `Decide`, the chain itself, with `Classify(x) == Decide(ProfileOf(x))`;
  - the same chain written as an ordered table: `Guard`, `RULE_ORDER`, `Priority`, `FirstMatch`.
- `properties.dfy` (module `EngineProperties`): the lemmas.

The outcome record keeps the fields that carry behaviour:

- `category`, `status` (its leading glyph dropped), `score`, `strength` and `color`;
- `rule`, the branch taken. Together with the count that `score` already holds, it fixes the title, the details text, the next steps and the processing note;
- `paths`, the pathway fragments that the dual-potential details list.

`score` is a datatype. `ScoreText` renders it to the source's exact label, and
`ScoreTextInjective` proves that two different scores never produce the same label.

Notable behaviour the model makes explicit:

- The default outcome "NOT ELIGIBLE", with score label "0 criteria", is also
  reached by a candidate who meets two or more EB-1B criteria but has neither
  the offer nor three years of experience, has no major award, meets none of
  the nine counted EB-1A criteria and is not fully EB-1C eligible
  (`NotEligibleOutcome`, `NotEligibleWithTwoEB1BCriteria`).
- The weak-profile outcome fires only when one counter is 1 and the other is 0,
  and only if no EB-1B outcome and no full EB-1C eligibility fired first
  (`WeakProfileOutcome`).

In a few places the code's own comments and messages describe it differently
from what it does. The model follows what the code does:

- The comment at zz.py:72 ("15 Scenarios") and the message at zz.py:587
  ("all 15 possible EB-1 outcomes") give fifteen outcomes. The function has sixteen returns:
  the major-award override at zz.py:15-33 plus fifteen numbered outcomes.
- The comment at zz.py:399 names the last branch "Not Eligible (0 criteria)".
  That branch also covers two or more EB-1B criteria when neither the offer nor the
  experience is present, as described above.
- The comment at zz.py:320 calls the dual outcome "1 EB-1A + 1 EB-1B partial".
  Its guard is an EB-1B count of at least 1. With an EB-1A count of 1 at most one
  shared fact is set, so the EB-1B count is 1 to 5 (`DualPotentialBCountRange`). It fires only when nothing earlier fired:
  no major award (zz.py:15), no qualified EB-1B outcome (zz.py:141-204), no full
  EB-1C eligibility (zz.py:207) and none of the EB-1B near misses at zz.py:228-293.

## Model

| member | source | states |
|---|---|---|
| Criteria.Default | zz.py:476 | with every key absent, no boolean flag is set, experience is not '3_years' and no yes/no answer is 'yes' |
| Criteria.Merge | zz.py:593-594 | each canonical shared key becomes the OR of its two channels; the channel keys and all other keys are unchanged |
| Criteria.MergeIdempotent | zz.py:593-594 | merging twice is the same as merging once |
| Criteria.MergeKeepsMergedInput | zz.py:593-594 | input whose B-channel facts are already on the canonical keys is left unchanged |
| Decimal.DecimalString | zz.py:79 | the rendering of a count is a non-empty digit string with no leading zero except for 0 |
| Decimal.ParseDecimalString | zz.py:79 | parsing the rendered count gives back the count |
| Decimal.DecimalStringInjective | zz.py:79 | distinct counts render to distinct digit strings |
| Engine.CountTrue | zz.py:36-56 | `sum` over a boolean list is at most the list's length |
| Engine.CountA | zz.py:36-46 | the EB-1A count is between 0 and 9 |
| Engine.CountB | zz.py:49-56 | the EB-1B count is between 0 and 6 |
| Engine.EB1CEligible | zz.py:66-70 | all three EB-1C answers are yes, which implies the partial fact; described further by `EB1CQualified` |
| Engine.EB1CPartial | zz.py:376 | some EB-1C answer is yes; described by `PartialEB1COutcome` and `NotEligibleOutcome` |
| Engine.Basics | zz.py:58-61 | experience is '3_years' and offer is 'yes'; described by `EB1BGate` and `EB1BNearMisses` |
| Engine.EligibleB | zz.py:63 | the basics plus an EB-1B count of at least 2; described by `EB1BGate` |
| Engine.ProfileOf | zz.py:36-70 | the profile the chain reads carries counts within 0..9 and 0..6 |
| Engine.ScoreText | zz.py:19-403 | renders each score as the source's label ('10/10', '{a}/10', '{b}/6', 'Met', '{n} criteria', '1 criterion met', 'Incomplete', '0 criteria'); the label starts with a digit exactly when it reports a count; see also `ScoreTextShape` and `ScoreTextInjective` |
| Engine.Decide | zz.py:15-420 | the early-return chain on the derived facts; the branch taken always has a guard that holds; described in full by `DecideFollowsRuleOrder` and the outcome lemmas below, which together fix the category, status, score and strength of every branch |
| Engine.Classify | zz.py:6-420 | the screener's classification of one answer record; its branch fires on the record's profile; described by `ClassifyIsFirstMatch` |
| Engine.Screen | zz.py:593-596 | one run: merge, then classify; on answers already merged it equals plain classification; described by `ChannelsInterchangeable` and `MergeCountsSharedFacts` |
| Engine.Guard | zz.py:15-420 | the condition of each branch read on its own; the last branch always fires, so the chain is total |
| EngineProperties.PriorityOfRuleOrder | zz.py:15-420 | RULE_ORDER, the sixteen branches in source order, lists each rule exactly once |
| Engine.Priority | zz.py:15-420 | each rule's position in the chain, with RULE_ORDER at that position giving the rule back |
| Engine.FirstMatch | zz.py:15-420 | the index of the first rule in a list whose guard holds, with no earlier guard holding |
| EngineProperties.DecideFollowsRuleOrder | zz.py:15-420 | the branch taken has a guard that holds, and every branch before it has a guard that fails |
| EngineProperties.ClassifyIsFirstMatch | zz.py:15-420 | every input gets exactly one outcome: that of the first rule in chain order whose guard holds (the last guard is always true) |
| EngineProperties.EarlierRuleShadowsLater | zz.py:15-420 | when an earlier rule's guard holds, no later rule is ever the outcome |
| EngineProperties.MajorAwardOverride | zz.py:15-33 | a major award gives EB-1A, HIGHLY LIKELY, score 10/10 and strength EXCEPTIONAL, whatever else holds |
| EngineProperties.EB1ABands | zz.py:74-138 | without a major award: an EB-1A outcome other than one-short happens exactly when the count is at least 3; it then has score "{count}/10" and status and band EXCEPTIONAL (7+), VERY STRONG (5-6) or QUALIFIED (3-4), whatever the EB-1B/EB-1C facts; any EB-1A outcome has count at least 2 |
| EngineProperties.ABandOfCount | zz.py:74-318 | the rung on the EB-1A ladder that each EB-1A count leads to |
| EngineProperties.CountTrueMonotone | zz.py:36-46 | ticking more entries never lowers the sum, and leaves it equal only when nothing new was ticked |
| EngineProperties.MoreACriteriaNeverLowerBand | zz.py:74-318 | ticking more EB-1A criteria, with everything else equal, never moves the outcome down the EB-1A ladder |
| EngineProperties.EB1BGate | zz.py:58-204 | a qualified EB-1B outcome happens exactly when there is no major award, the EB-1A count is at most 2, experience is '3_years', offer is 'yes' and the EB-1B count is at least 2; score is "{count}/6", status and band EXCEPTIONAL (5+), VERY STRONG (3-4) or QUALIFIED (2) |
| EngineProperties.EB1CQualified | zz.py:206-226 | the EB-1C "Met" outcome happens exactly when there is no major award, the EB-1A count is at most 2, the candidate is not EB-1B eligible (basics plus two EB-1B criteria) and all three EB-1C answers are yes; its status and strength are QUALIFIED |
| EngineProperties.EB1BNearMisses | zz.py:228-293 | with no major award, an EB-1A count of at most 2 and no full EB-1C eligibility: NEEDS EXPERIENCE happens exactly when the EB-1B count is at least 2, offer is 'yes' and experience is not '3_years'; NEEDS JOB OFFER exactly when the count is at least 2, experience is '3_years' and offer is not 'yes'; the EB-1B one-short outcome exactly when the basics hold and the count is 1 (an EB-1A count of 2 does not hide any of them); all three have category EB-1B and score "{count}/6", and statuses NEEDS EXPERIENCE, NEEDS JOB OFFER and ONE CRITERION SHORT |
| EngineProperties.EB1AOneShort | zz.py:295-318 | the EB-1A one-short outcome (score 2/10, status ONE CRITERION SHORT) happens exactly when there is no major award, the EB-1A count is 2, there is no full EB-1C eligibility and no EB-1B outcome fired first |
| EngineProperties.DualPotentialOutcome | zz.py:320-348 | the 'EB-1A/EB-1B' outcome happens exactly when there is no major award, the EB-1A count is 1, the EB-1B count is at least 1, there is no full EB-1C eligibility and no EB-1B outcome fired first; its score is "{max} criteria" with max the EB-1B count, its status is POTENTIAL, its strength DEVELOPING, and both pathways are listed |
| EngineProperties.DualPotentialBCountRange | zz.py:321 | on any answer record, the dual outcome occurs only with an EB-1B count between 1 and 5, since one EB-1A criterion leaves room for at most one shared fact |
| EngineProperties.WeakProfileOutcome | zz.py:350-372 | WEAK happens exactly when there is no major award, one counter is 1, the other is 0, there is no full EB-1C eligibility and no EB-1B outcome fired first; its category is EB-1, its status WEAK PROFILE and its label "1 criterion met" |
| EngineProperties.PartialEB1COutcome | zz.py:374-397 | PARTIAL EB-1C happens exactly when there is no major award, both counts are 0 and some, but not all, EB-1C answers are yes; its category is EB-1C, its status PARTIAL EB-1C, its score "Incomplete" and its strength INCOMPLETE |
| EngineProperties.NotEligibleOutcome | zz.py:399-420 | NOT ELIGIBLE happens exactly on the remaining region (no major award, EB-1A count 0, no full EB-1C eligibility, no EB-1B outcome, EB-1B count not 1, and no EB-1C answer yes when the EB-1B count is 0); its category is EB-1, its status and strength NOT ELIGIBLE, and its label always "0 criteria" |
| EngineProperties.DefaultIsNotEligible | zz.py:399-420 | all-default input gives category EB-1 and NOT ELIGIBLE |
| EngineProperties.NotEligibleWithTwoEB1BCriteria | zz.py:228-271 | example: an input with two EB-1B criteria but no offer and under three years reaches the default outcome labelled "0 criteria" |
| EngineProperties.ScoreTextInjective | zz.py:79-403 | distinct scores render to distinct score labels |
| EngineProperties.SharedFactsCountInBoth | zz.py:36-56 | the two shared facts are counted once in the EB-1A sum and once in the EB-1B sum |
| EngineProperties.EngineIgnoresChannelKeys | zz.py:36-70 | the engine never reads the two B-channel keys: inputs that differ only there classify alike |
| EngineProperties.ChannelsInterchangeable | zz.py:593-596 | in a run of the screener, entering a shared fact through the EB-1A key, the EB-1B key or both gives the same counts and the same outcome |
| EngineProperties.MergeCountsSharedFacts | zz.py:593-594 | for both shared facts, each one entered only on its EB-1B key is counted only after the merge, which raises each count by exactly the number of such facts (0, 1 or 2) and changes nothing else in the counts |

## Left out

- The Streamlit user interface is not modelled: `display_results`, the widget layout, the HTML rendering and the `st.session_state` handling in `main`. They hold no classification logic.
  - As a result, the model does not capture which dictionary object the session holds, or when that object is merged.
  - The model's only input is one complete answer snapshot.
- The title, details text, next-step lists and processing notes are not modelled as strings. Each is determined by the `rule` field together with the counts the outcome already carries:
  - The details of ten branches insert the live counter (zz.py:82, 104, 126, 148, 170, 192, 236, 258, 280, 303). That counter is the one the branch's `score` reports.
  - The dual-potential details list the pathway fragments, which are the `paths` field.
- The leading glyph of `status` is not modelled. It is decoration chosen per branch.
- Non-boolean flag values and unrecognised enum strings are not modelled. The form only produces booleans and the listed options.
  - The experience answer is two-valued, because the engine only tests it against `'3_years'`.
  - Every yes/no answer other than `'yes'` behaves like `'no'`.
