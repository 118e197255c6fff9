# Ideology questionnaire classifier — a verified model

The repository classifies questionnaire answers into a political-ideology
label. This project models its decision logic in Dafny:

- **Box classifier** (`ideology_map.js`). Forty-four named boxes over three
  axes (economic, culture, authority). `classifyIdeology` clamps the score
  vector to [-10, 10] and keeps the boxes that contain it. A single match
  wins. Several matches: the nearest box centre wins. No match: the nearest
  centre over the whole catalog wins. Ties go to the earliest entry.
- **Two-stage survey page** (`main.js`).
  - Fifteen axis questions are summed per axis.
  - The sums rank the categories: a containing box scores `1000 - distance`,
    any other box `100 * contained axes + mean axis fit`. The ranking uses a
    stable sort, and its head is the category.
  - Five category questions then add their score to every ideology term
    they list. The first term with the highest total is the ideology.
  - The page is a class `Survey` with the handlers that record answers, go
    forward, go back and restart.
- **Single-stage questionnaire page** (`ideology_survey_complete.js`). A
  Fisher–Yates shuffle of the pool, a cyclic fill of thirty slots, per-axis
  means of the answers, and the forward and back handlers, as a class
  `QuizSession`.
- **Visualiser helpers** (`model_catagories.py`). Box centres, closed-interval
  containment and a first-match search that may find nothing.
- **Income classifier** (`app2.py`). Four labels.

Distances are compared squared: `sqrt` is monotone, so every argmin is
unchanged. The ranking score `1000 - sqrt(d)` is kept exact by the `Score`
datatype: `Full(d)` holds the squared distance of a containing box,
`Partial(v)` the score of any other box. They are compared through
`(1000 - v)^2`, and that comparison is proved a total preorder. All numbers
are `real`.

Modules:
- `Optional`: the Option type.
- `Geometry`: axes, ranges, boxes, points, containment, centres, squared distance.
- `Extremes`: the first argmin and argmax of a sequence.
- `IdeologyMap`: the catalog and the classifier.
- `IdeologyExamples`: the worked point (5, 5, 5).
- `Ranking`: match scores, the stable ranking, the category.
- `Funnel`: the stage-1 and stage-2 accumulators and the term argmax.
- `SurveyPage`: the two-stage page state.
- `Quiz`: the single-stage page.
- `Categories`: the Python helpers.
- `Income`: the income classifier.

## Model

| member | source | states |
|---|---|---|
| Geometry.InRange | ideology_map.js:67 | definition of `isWithinRange`: the value lies in the closed interval, both ends included |
| Geometry.Contains | ideology_map.js:83-87 | definition: every axis score lies in its closed interval; the same test is written out at main.js:390-394 and model_catagories.py:37-41, and `Categories.IsPointInCategory` is defined by it |
| Geometry.Mid | ideology_map.js:70-72 | definition: the midpoint `(min + max) / 2` of an interval, as at main.js:396-398 and model_catagories.py:25-27 |
| Geometry.Center | ideology_map.js:70-72 | definition: the per-axis midpoints of a box; `SqDist` is zero exactly there and `CenterContained` puts it inside a well-formed box |
| Geometry.SqDist | ideology_map.js:69-75 | the squared centre distance is never negative, and it is zero exactly at the box's midpoint on all three axes |
| Geometry.ContainedNearCenter | main.js:389-405 | a point inside a box is no farther from its centre than the half-diagonal |
| Geometry.CenterContained | model_catagories.py:24-28 | a well-formed box contains its own centre, at distance zero |
| Extremes.FirstMin | ideology_map.js:91-96 | the index of the first smallest element: no element is smaller and every earlier one is strictly larger |
| Extremes.FirstMax | main.js:311-316 | the index of the first largest element: no element is larger and every earlier one is strictly smaller |
| Extremes.FirstMinStep | ideology_map.js:101-106 | extending the scanned prefix by one keeps the running best unless the new element is strictly smaller |
| Extremes.FirstMaxStep | main.js:311-316 | extending the scanned prefix by one keeps the running best unless the new element is strictly larger |
| IdeologyMap.RightWing | ideology_map.js:8-18 | definition: the nine conservative and right-wing entries, names and intervals as listed |
| IdeologyMap.Statist | ideology_map.js:19-28 | definition: the eight statist and far-right authoritarian entries |
| IdeologyMap.Socialist | ideology_map.js:29-39 | definition: the nine socialist entries |
| IdeologyMap.Anarchist | ideology_map.js:40-49 | definition: the eight anarchist entries |
| IdeologyMap.CommunistSchools | ideology_map.js:50-59 | definition: the eight communist-school entries |
| IdeologyMap.Others | ideology_map.js:60-62 | definition: the last two entries |
| IdeologyMap.IdeologyRanges | ideology_map.js:7-63 | definition of `IDEOLOGY_RANGES`: the six groups concatenated in declaration order, 44 entries; `IdeologyExamples.GroupOffsets` fixes where each group starts |
| IdeologyMap.Clamp | ideology_map.js:65 | the result is inside [lo, hi], equals v when v is inside, and is the nearer bound otherwise |
| IdeologyMap.ClampScores | ideology_map.js:78-80 | every clamped axis lies in [-10, 10] |
| IdeologyMap.Matches | ideology_map.js:83-87 | definition: the `filter` result, the entries whose boxes contain the point, in catalog order; `MatchPositionsSpec` proves it keeps exactly those |
| IdeologyMap.MatchPositionsSpec | ideology_map.js:83-87 | the kept boxes are exactly the containing catalog entries, in catalog order |
| IdeologyMap.Distances | ideology_map.js:69-75 | definition: one squared centre distance per box, in order; what a scan over it returns is stated by `NearestMatch` and `ClassificationSpec` |
| IdeologyMap.NearestMatch | ideology_map.js:89-97 | with matches, the winner contains the point, is no farther than any containing entry, and every earlier containing entry is strictly farther |
| IdeologyMap.NoMatch | ideology_map.js:100-107 | without matches, no catalog entry contains the clamped point |
| IdeologyMap.Classification | ideology_map.js:77-108 | definition of what `classifyIdeology` returns: clamp, filter, a single match wins, several go to the first nearest match, none to the first nearest entry; `ClassificationSpec` states what that result means |
| IdeologyMap.ClassificationSpec | ideology_map.js:77-108 | the result is the name of a catalog entry that is nearest among the containing entries when there are any, and nearest overall otherwise, with the earliest entry winning ties |
| IdeologyMap.UniqueMatchWins | ideology_map.js:88 | a single containing box wins |
| IdeologyMap.ClassificationInCatalog | ideology_map.js:77-108 | the classifier always returns some catalog entry's name |
| IdeologyMap.ShadowedEntryNeverWins | ideology_map.js:89-107 | a later entry whose box repeats an earlier box's can never be returned, because of the strict comparison |
| IdeologyMap.ClampedFirst | ideology_map.js:78-80 | classifying a point equals classifying its clamped point, so a score beyond ±10 on an axis classifies like ±10 |
| IdeologyMap.Classify | ideology_map.js:77-108 | the filter-then-scan procedure returns the classification |
| IdeologyMap.NearestName | ideology_map.js:100-107 | the running-best loop returns the name at the first minimal distance |
| IdeologyMap.ClassifyIdeology | ideology_map.js:77-108 | the classifier applied to the 44-entry catalog |
| IdeologyExamples.RightWingHoldsFive | ideology_map.js:8-18 | among the right-wing group, (5, 5, 5) lies in 保守主义, 新保守主义, 资本主义 and 麦卡锡主义 only |
| IdeologyExamples.NoStatistBoxHoldsFive | ideology_map.js:19-28 | no statist box holds (5, 5, 5) |
| IdeologyExamples.NoSocialistBoxHoldsFive | ideology_map.js:29-39 | no socialist box holds (5, 5, 5) |
| IdeologyExamples.NoAnarchistBoxHoldsFive | ideology_map.js:40-49 | no anarchist box holds (5, 5, 5) |
| IdeologyExamples.NoCommunistSchoolsBoxHoldsFive | ideology_map.js:50-59 | no communist-school box holds (5, 5, 5) |
| IdeologyExamples.OthersHoldFive | ideology_map.js:60-62 | 民粹主义 holds (5, 5, 5) at squared distance 35, and 民主主义 does not hold it |
| IdeologyExamples.ConservativeDistances | ideology_map.js:9-10 | squared distances 2.25 (distance 1.5) for 保守主义 and 5 for 新保守主义 |
| IdeologyExamples.CapitalistDistances | ideology_map.js:12-13 | squared distances 22 for 资本主义 and 8 for 麦卡锡主义 |
| IdeologyExamples.GroupOffsets | ideology_map.js:7-62 | the catalog has 44 entries, and each source group starts at its offset |
| IdeologyExamples.ConservatismExample | ideology_map.js:9-62 | (5, 5, 5) lies in exactly five boxes, and 保守主义, the nearest, is returned |
| Ranking.AtLeast | main.js:459 | definition of the comparator `b.score - a.score` on `1000 - distance` and partial scores, compared through squares; the three lemmas below prove it a total preorder |
| Ranking.AtLeastReflexive | main.js:459 | every score ranks at least as high as itself |
| Ranking.AtLeastTotal | main.js:459 | any two scores are comparable |
| Ranking.AtLeastTransitive | main.js:459 | the order on `1000 - distance` and partial scores is transitive |
| Ranking.Fit | main.js:413-444 | an axis fit lies in [0, 100]; it is 100 on an axis in range, and below 100 off range of a well-formed interval |
| Ranking.Count | main.js:412-437 | definition: an axis in range adds 1 to `matchScore`, any other adds 0 |
| Ranking.MatchOf | main.js:380-455 | one match per category with its name and box; it is a full match exactly when the box contains the point, carrying the squared centre distance and details 100; otherwise a partial score in [0, 300], below 300 for a well-formed box; all details are in [0, 100] |
| Ranking.AllMatches | main.js:380-456 | definition: one match per category, in category order; `MatchOf` states what each match holds |
| Ranking.IsRanking | main.js:459 | definition of a stable descending sort: every index exactly once, each earlier index scoring at least as high, and equal scores kept in original order |
| Ranking.Reorder | main.js:459-461 | definition: the matches listed in the given index order, which is the sorted array the function returns |
| Ranking.InsertKeepsRanking | main.js:459 | inserting the next index after every entry that scores at least as high keeps the list ordered and stable |
| Ranking.RankOrder | main.js:459 | the stable insertion sort lists every index once, by non-increasing score, equal scores in original order |
| Ranking.CalculateAllMatches | main.js:376-462 | the returned list is the ranking of all matches, a permutation of them |
| Ranking.RankingIsPermutation | main.js:459 | a ranking of all indices repeats none |
| Ranking.DropLast | main.js:459 | removing the largest index from an index permutation leaves a permutation of the rest |
| Ranking.ReorderSplit | main.js:459 | reordering with the last element removed leaves a gap exactly where it stood |
| Ranking.ReorderPermutes | main.js:459 | reordering by an index permutation preserves the multiset |
| Ranking.RankingPermutes | main.js:459 | the sorted list has the same elements as the unsorted one |
| Ranking.RankingHead | main.js:459-466 | the head of the ranking scores highest, and every earlier category scores strictly less |
| Ranking.TopUnique | main.js:464-467 | only one category can be at the head |
| Ranking.DetermineCategory | main.js:464-467 | no category exactly when the catalog is empty; otherwise the name of the first highest-scoring category |
| Ranking.ContainingCategoryWins | main.js:394-459 | when every half-diagonal is below 700 and some box contains the point, the head contains it, is nearest among the containing boxes, and every earlier containing box is strictly farther; `ContainingFirst` extends this to the whole sorted list |
| Ranking.ContainingOutranks | main.js:394-447 | a box holding the point with half-diagonal below 700 scores strictly higher than every box not holding it |
| Ranking.ContainingFirst | main.js:394-459 | when every half-diagonal is below 700, in the sorted list every entry ranked ahead of a box holding the point holds it too, so all holding boxes precede all others |
| Ranking.AgreesWithClassification | main.js:464-467 | under those conditions, and for a point inside [-10, 10]^3, the category equals the box classifier's answer |
| Funnel.ContributionOf | main.js:271-273 | definition: an answer adds its score to the axis it carries, and nothing when it lacks the axis or the score |
| Funnel.Contribution | main.js:270-273 | definition: an unanswered index adds nothing, an answered one its contribution |
| Funnel.AxisSum | main.js:269-274 | definition: the sum of one axis's scores over the answered indices below n |
| Funnel.Stage1Totals | main.js:267-276 | definition: the three axis sums over indices 0..14; `Survey.UpdateStage1Scores` is proved to produce it |
| Funnel.AxisSumOverwrite | main.js:172-177 | re-answering a stage-1 question replaces its old contribution; nothing is counted twice |
| Funnel.AxisSumUnaffected | main.js:268-275 | an answer at or beyond index n does not change the sum over the first n |
| Funnel.Stage1IgnoresStage2 | main.js:270 | stage-2 answers never move the axis totals |
| Funnel.AxisSumEmpty | main.js:268 | without answers every axis total is zero |
| Funnel.Position | main.js:296-299 | a found position holds the key; no position exactly when no entry has the key |
| Funnel.ValueOf | main.js:299 | definition of `stage2Scores.get`: the stored total, and zero for a key never set |
| Funnel.PositionByKeys | main.js:296-299 | lookup depends only on the keys |
| Funnel.PositionAppend | main.js:296-297 | appending a new key leaves existing keys where they were |
| Funnel.Add | main.js:296-299 | after adding v to a term, the term is present and its total has grown by v |
| Funnel.AddElsewhere | main.js:296-299 | adding to one term leaves every other term's presence and total alone |
| Funnel.AddUnique | main.js:296-297 | a key is appended only when absent, so no key is stored twice |
| Funnel.Gain | main.js:295-300 | definition of the reference gain: v once for each time the term is listed |
| Funnel.GainUnlisted | main.js:295-300 | a term the question does not list gains nothing |
| Funnel.AddAll | main.js:295-300 | definition: the `forEach` as a fold, one `Add` per listed term, in listing order; its lemmas below state its effect |
| Funnel.AddAllValue | main.js:295-300 | after a question's terms are added, each term's total has grown by its gain, v per listing, so a term listed twice counts twice |
| Funnel.AddAllKeys | main.js:295-300 | the keys gained are exactly the listed terms |
| Funnel.AddAllUnique | main.js:295-300 | adding a list of terms keeps keys unique |
| Funnel.AddTerms | main.js:295-300 | the term loop adds the score to each listed term in order |
| Funnel.Weight | main.js:288-289 | definition: the score of an index that was answered with one, and nothing otherwise |
| Funnel.TermsAt | main.js:290-293 | definition: the `ideology_terms` of the question at index i - 15, and no terms when that question or its list is missing |
| Funnel.TermTotalsUpTo | main.js:287-302 | definition: the term map after folding the answered stage-2 indices below n |
| Funnel.Stage2Totals | main.js:278-304 | definition: empty without a question set, otherwise the term map after indices 15..19 |
| Funnel.TermSum | main.js:287-302 | definition of the independent reference: the gains of every answered stage-2 question for one term, with no map involved; `TermTotalsValue` equates the two |
| Funnel.TermTotalsValue | main.js:278-304 | each term's total equals the sum, over answered stage-2 questions, of the score once for every time the question lists the term |
| Funnel.ListedStep | main.js:286-301 | a term is listed up to n exactly when it was listed before n-1, or question n-1 is answered and lists it |
| Funnel.TermTotalsKeys | main.js:278-304 | the map's keys are exactly the terms some answered stage-2 question lists |
| Funnel.TermTotalsUnique | main.js:278-304 | no term is stored twice |
| Funnel.NoQuestionSetNoTerms | main.js:280-284 | without a question set for the category the map is empty |
| Funnel.Values | main.js:311 | definition: the totals, in insertion order; `IdeologyOf` and `DetermineIdeology` state what is picked from them |
| Funnel.FirstBest | main.js:311-316 | definition: entry w has the highest total and every earlier entry a strictly lower one, the entry the strict `>` scan keeps |
| Funnel.IdeologyOf | main.js:306-319 | 未确定 for an empty map; otherwise the first term with the highest total, with an empty name also giving 未确定 |
| Funnel.FirstBestUnique | main.js:310-316 | there is only one first-best entry |
| Funnel.DetermineIdeology | main.js:306-319 | the running-best loop, with `-Infinity` as no best yet, returns that term |
| SurveyPage.PrevAsWritten | main.js:508-524 | definition: `prevQuestion` as written; its lemmas below exhibit the faulty step |
| SurveyPage.Prev | main.js:508-524 | definition: `prevQuestion` as intended, going from the first stage-2 question to the last stage-1 question |
| SurveyPage.PrevAsWrittenLeavesStage2 | main.js:508-524 | the handler as written stays on a valid position from every valid position except the first stage-2 question |
| SurveyPage.PrevAsWrittenExample | main.js:205-210 | as written, going back from stage 2 index 15 gives stage 2 index 14, where the page looks up question -1 |
| SurveyPage.PrevKeepsPosition | main.js:508-524 | the intended handler always lands on a valid position, and stays put only at the very first question |
| SurveyPage.QuestionsFor | main.js:282-284 | definition: `stage2Questions[determinedCategory]`, present only when there is a category and it has a question set |
| SurveyPage.Survey.constructor | main.js:12-23 | the initial page: stage 1, index 0, no answers, zero totals, empty term map, no category or ideology |
| SurveyPage.Survey.UpdateStage1Scores | main.js:267-276 | the totals are recomputed from zero as the per-axis sums over indices 0..14, so replaying them gives the same totals |
| SurveyPage.Survey.UpdateStage2Scores | main.js:278-304 | the term map is cleared and rebuilt as the stage-2 totals for the current category's question set |
| SurveyPage.Survey.RecordStage1Answer | main.js:172-177 | the answer with its axis overwrites the current index; each axis total moves by the new contribution minus the old one; the position stays |
| SurveyPage.Survey.RecordStage2Answer | main.js:238-246 | the answer without axis overwrites the current index and the term map is rebuilt; the axis totals do not move |
| SurveyPage.Survey.NextOrSubmit | main.js:469-506 | nothing changes without an answer. Stage 1 below 14 advances. At 14 the first highest-ranked category is fixed and the page enters stage 2 at index 15; with no categories nothing changes. Stage 2 below 19 advances. At 19 the term totals are rebuilt and the ideology is their first argmax. The page invariant is kept |
| SurveyPage.Survey.PrevQuestion | main.js:508-524 | the intended step back, which keeps the page invariant |
| SurveyPage.Survey.RestartSurvey | main.js:583-589 | stage 1, index 0, no answers, zero totals, no category; the term map and the ideology are untouched |
| Quiz.Recorded | ideology_survey_complete.js:262-267 | definition: a missing axis score is recorded as 0 |
| Quiz.Sum | ideology_survey_complete.js:328-336 | definition: the sum of one axis's scores over answered indices below n |
| Quiz.Answered | ideology_survey_complete.js:328-336 | definition: the number of answered indices below n |
| Quiz.MeanOver | ideology_survey_complete.js:338-343 | definition: the sum divided by the count, or the plain sum (zero) when nothing is answered |
| Quiz.Mean | ideology_survey_complete.js:323-346 | definition: the mean over indices 0..29 |
| Quiz.Means | ideology_survey_complete.js:323-346 | definition: the three per-axis means that `computeScores` returns |
| Quiz.ComputeScores | ideology_survey_complete.js:323-346 | the loop returns the per-axis means over answered indices 0..29 |
| Quiz.NothingAnswered | ideology_survey_complete.js:328-336 | with nothing answered every sum is zero |
| Quiz.NoAnswersOrigin | ideology_survey_complete.js:339-345 | with nothing answered the scores are (0, 0, 0) |
| Quiz.AnsweredCounts | ideology_survey_complete.js:330-335 | the divisor is the number of answered indices: every recorded answer counts once |
| Quiz.SumBounds | ideology_survey_complete.js:328-336 | if every answered score on an axis lies in [lo, hi], the sum lies between count·lo and count·hi |
| Quiz.MeanOverBounds | ideology_survey_complete.js:323-346 | the mean over indices below n respects bounds that all answered scores respect |
| Quiz.MeanBounds | ideology_survey_complete.js:323-346 | the computed mean on an axis lies in [lo, hi] when every answered score on that axis does |
| Quiz.Swap | ideology_survey_complete.js:235 | the two cells trade values, and every other cell keeps its value |
| Quiz.SwapPermutes | ideology_survey_complete.js:235 | a swap preserves the multiset |
| Quiz.ValidPicks | ideology_survey_complete.js:234 | definition: one draw per cell, the draw for cell i lying in 0..i, as `Math.floor(Math.random() * (i + 1))` gives |
| Quiz.Shuffled | ideology_survey_complete.js:232-238 | definition of the downward pass: cell i swapped with its draw, from n-1 down to 1, keeping the length |
| Quiz.ShuffledPermutes | ideology_survey_complete.js:232-238 | the shuffle preserves the multiset |
| Quiz.ShuffleInPlace | ideology_survey_complete.js:232-238 | the array ends as the shuffle of its old contents by the given draws, with the same multiset |
| Quiz.PickBalancedQuestions | ideology_survey_complete.js:215-230 | an empty pool gives no questions; otherwise 30 entries, entry i being the shuffled pool's element at i mod the pool size, every entry drawn from the pool |
| Quiz.QuizSession.constructor | ideology_survey_complete.js:24-25 | the first question, no answers |
| Quiz.QuizSession.RecordAnswer | ideology_survey_complete.js:262-267 | the recorded answer overwrites the current index |
| Quiz.QuizSession.NextOrSubmit | ideology_survey_complete.js:348-361 | nothing without an answer; below 29 the index advances; at 29 the verdict is the box classifier applied to the means; the index stays in 0..29 |
| Quiz.QuizSession.PrevQuiz | ideology_survey_complete.js:363-368 | the index decreases only when above 0, so it stays in 0..29 |
| Quiz.QuizSession.Restart | ideology_survey_complete.js:427-431 | the first question, no answers |
| Categories.CenterMap | model_catagories.py:19-30 | definition: each entry's name mapped to its box centre, later entries overwriting earlier ones |
| Categories.GetCategoryCenters | model_catagories.py:19-30 | the dict-filling loop gives the centre map |
| Categories.CenterMapKeys | model_catagories.py:19-30 | every category name, and only those, is a key |
| Categories.CenterMapValue | model_catagories.py:22-29 | a name maps to its box's per-axis midpoints; when a name repeats, the last entry's box counts |
| Categories.IsPointInCategory | model_catagories.py:33-41 | definition: true exactly when each score lies in its axis's closed interval; `CenterInCategory` and `SearchAgreesWithFirst` are built on it |
| Categories.CenterInCategory | model_catagories.py:24-28 | a well-formed category holds the centre the map gives it |
| Categories.FirstContaining | model_catagories.py:44-49 | the first index holding the point, none earlier holding it; nothing exactly when no category holds it |
| Categories.GetIdeologyCategory | model_catagories.py:44-49 | the scan returns the first category in dict order holding the point, and nothing exactly when none does |
| Categories.SearchAgreesWithFirst | model_catagories.py:44-49 | the first holding entry is the one the first-match function finds |
| Income.Classify | app2.py:14-22 | "low", "middle" and "high" map to working_class, middle_class and capitalist_class, in both directions; everything else is unknown |
| Income.ClassifyLabels | app2.py:14-22 | the label is always one of the four |

## Left out

- DOM rendering and event wiring are not modelled: the `render*` functions, progress bars, badges, alerts, the HTML of the result pages and the Enter-key handlers. The answer handlers are methods whose preconditions name the stage in which the page shows them.
- Network I/O is not modelled: question and category loading through `fetch`, result submission, the ipify call in `script.js`, and the Flask route and CSV writes of `app2.py`.
- Persistence and timers are not modelled: `localStorage` (`saveData`, `restoreData`, which trusts a saved stage and index unchecked), `debounce`, `setTimeout`, and the asynchronous reload that `restartSurvey` starts.
- `script.js` (form plumbing), the `geoData` cascade of the single-stage page and the matplotlib visualiser of `model_catagories.py` are not part of this model.
- `Math.random` becomes a parameter: `ShuffleInPlace` and `PickBalancedQuestions` take the drawn indices, one per cell, each at most the cell's index.
- Floating point is not modelled. Numbers are exact reals, `Math.sqrt` is replaced by comparing squares, and the `Math.round` and `toFixed` display rounding is left out.
- `showFinalResults` of the two-stage page is not modelled: the sorted display list, the top-three list and the match percentage at main.js:536-537, which divides by 10 with no upper clamp.
- Axis names in answers are `Option<Axis>`: an answer whose axis string is missing or is not one of the three names contributes nothing. The page would store such a score under a fourth key that nothing reads.
- Category dictionaries (`ideologyCategories`, the Python `categories`) are sequences of named boxes in insertion order. For the JavaScript catalog, names are the object's keys. Duplicate names do not arise there; the Python centre map lets the last entry win.
- Ranking.DetermineCategory: with an empty catalog the page throws at `matches[0].name`. The model returns no category instead, and `NextOrSubmit` then leaves the state unchanged, since the assignment never happens.
- Ranking.ContainingCategoryWins: stated, like `Ranking.ContainingFirst`, only for catalogs whose boxes have half-diagonals below 700. For larger boxes a containing box can rank below a partial one.
- Quiz.QuizSession.NextOrSubmit: assumes the box classifier is loaded. The page's `'未识别'` fallback for a missing classifier is not modelled.
- Quiz.Recorded: `opt.economic_score || 0` also maps `NaN` to 0. Without floating point, the model only maps a missing score to 0.
- SurveyPage.Survey.PrevQuestion: models the intended behaviour described under Findings, not the handler as written. The written handler is `SurveyPage.PrevAsWritten`.

## Findings

| source | as written | input that shows it | evidently intended | confidence | as-written member | corrected member |
|---|---|---|---|---|---|---|
| main.js:508-524 | `prevQuestion` decrements any index above 0 and keeps the stage. The stage-2 to stage-1 branch fires only at index 0. | On the first stage-2 question (stage 2, index 15), press back. The page is now in stage 2 at index 14. `renderStage2Question` computes question index -1 and shows 题目索引超出范围 (main.js:205-210). | Going back from the first stage-2 question returns to the last stage-1 question (stage 1, index 14), as the branch at main.js:517-522 does. | high; not executed | SurveyPage.PrevAsWrittenLeavesStage2 | SurveyPage.Survey.PrevQuestion |
