# Teacher leaderboard: scoring and ranking model

This project models the scoring and ranking core of a static teacher
leaderboard page (`app.js`). Each teacher record in the teachers document
assigns a tier label (such as `"T1"` or `"LT2"`) to some of the declared
categories. The page does four things with these records:

- It resolves each tier label to points through the `pointsByTier` table.
- It folds the points into a per-category breakdown and a total for each teacher.
- It ranks the aggregated teachers by total points.
- It ranks the raw teacher records by `lessonsMissed`.

Both rankings put the highest value first and break ties by ascending name.

Modules, leaf first:

- `Wrappers` (`wrappers.dfy`): `Option`, used for JSON values that may be missing or null.
- `Tiers` (`tiers.dfy`): `normalizeTier`, `tierLabel`, `top3Class` and `pointsForTier` as functions. It also defines the string operations they rest on (`trim`, `toUpperCase`) and lemmas about all of them.
- `Aggregation` (`aggregation.dfy`): the teacher, breakdown and document datatypes, and `computeTeacherTotals` as functions. It also has the total that the detail modal recomputes, and the lemmas that tie that total to the breakdown.
- `Ordering` (`ordering.dfy`): the comparator shared by both sorts. It has lemmas that the comparator is a total order, and that any two sorted arrangements of the same elements agree on every key.
- `Ranking` (`ranking.dfy`): `sortByPointsDesc` and `sortByAbsenceDesc` as methods. Each copies the input array into a fresh array and sorts the copy in place by insertion. The result is proved to be a permutation of the input and ordered by the comparator. The input array is never written, because no method has it in its `modifies` clause.

Behaviours of the code worth knowing, each proved:

- `normalizeTier` is not idempotent on whitespace-only labels. `"  "` is truthy, so it gives `""`, and `""` then gives `null` (`Tiers.NormalizeTierIdempotent`). On every other label, normalizing twice equals normalizing once. Everything downstream treats `""` and `null` alike (`Tiers.PointsForNormalizedTier`, `Tiers.TierLabelOfNormalizedTier`).
- `tierLabel` returns `"-"` for a falsy tier, and also for a tier whose normalized text is itself `"-"` (`Tiers.TierLabel`).
- Absence counts sit on the teacher record (app.js:217), and the absence ranking sorts the raw records; nothing is joined.

Assumptions:

- Names are compared ordinally, character by character. The code uses `localeCompare` (`app.js:57`, `app.js:64`).
- Points, totals and absence counts are unbounded integers.

## Model

| member | source | states |
|---|---|---|
| `Tiers.TrimStart` | app.js:6 | the result is the suffix of the label left after a run of leading whitespace, and does not itself start with whitespace |
| `Tiers.TrimEnd` | app.js:6 | the result is the prefix of the label left before a run of trailing whitespace, and does not itself end with whitespace |
| `Tiers.Trim` | app.js:6 | `trim` gives a string with no whitespace at either end, never longer than its input |
| `Tiers.UpperChar` | app.js:6 | a lower-case ASCII letter becomes its capital (32 code points lower) and every other character is unchanged; so the result is never a lower-case ASCII letter, and whitespace stays whitespace |
| `Tiers.Upper` | app.js:6 | the ASCII-only upper-casing keeps the length and leaves no lower-case ASCII letter |
| `Tiers.UpperLetters` | app.js:6 | at every position, `toUpperCase` turns a lower-case ASCII letter into its capital and keeps any other character |
| `Tiers.TrimSplit` | app.js:6 | every label is its trimmed form with whitespace runs before and after it |
| `Tiers.TrimIgnoresPadding` | app.js:6 | adding whitespace around a label does not change its trimmed form |
| `Tiers.TrimCommutesWithUpper` | app.js:6 | trimming then upper-casing equals upper-casing then trimming |
| `Tiers.NormalizeTier` | app.js:4-7 | null exactly for a missing or empty tier; otherwise a string with no whitespace at either end that upper-casing leaves unchanged |
| `Tiers.NormalizeTierOfPadded` | app.js:4-7 | a non-empty trimmed label surrounded by any whitespace normalizes to exactly its upper-cased text |
| `Tiers.NormalizeTierIgnoresPadding` | app.js:4-7 | surrounding whitespace does not change whether a label counts, nor what a non-empty label normalizes to |
| `Tiers.NormalizeTierIgnoresCase` | app.js:4-7 | labels equal up to letter case normalize to the same tier |
| `Tiers.NormalizeTierIdempotent` | app.js:4-7 | normalizing twice equals normalizing once, except that a whitespace-only label gives "" and then null |
| `Tiers.NormalizeTierExample` | app.js:4-7 | " t3 " and "T3" both normalize to "T3" |
| `Tiers.TierLabel` | app.js:9-17 | "-" when the normalized tier is null or empty (or is the text "-"), and the normalized tier on every other branch |
| `Tiers.Top3Class` | app.js:19-24 | ranks 1, 2 and 3 get "gold", "silver" and "bronze", and every other rank gets "" |
| `Tiers.PointsForTier` | app.js:26-30 | 0 for a falsy normalized tier and for one missing from the table; otherwise the table's value for the normalized tier |
| `Tiers.PointsForTierDefaults` | app.js:26-30 | a missing, empty or whitespace-only tier is worth 0 points whatever the table |
| `Tiers.PointsIgnoreCaseAndPadding` | app.js:26-30 | a label padded with whitespace scores the same as any label equal to it up to letter case |
| `Tiers.PointsForNormalizedTier` | app.js:175-176 | scoring the already normalized tier, as the modal does, gives the same points as scoring the raw tier |
| `Tiers.TierLabelOfNormalizedTier` | app.js:175-182 | labelling the already normalized tier, as the modal does, gives the same label as labelling the raw tier |
| `Aggregation.AssignedTier` | app.js:37-39 | null when the teacher has no category map, or no entry or a null entry for the category; otherwise the assigned label |
| `Aggregation.ScoreCategory` | app.js:39-41 | a breakdown row names its category; a row whose tier is null or empty scores 0; an unassigned category gives a null tier and 0 points |
| `Aggregation.PerCategory` | app.js:38-42 | one row per declared category, in the declared order; rows without a tier score 0; unassigned categories give a null tier and 0 points |
| `Aggregation.SumPoints` | app.js:44 | the total of a breakdown is 0 when every row scores 0, and never negative when no row is negative |
| `Aggregation.ModalTotal` | app.js:192 | the modal's total is 0 for a teacher with no category map, and never negative when the points table has no negative value |
| `Aggregation.BreakdownSumIsModalTotal` | app.js:44 | the left-fold sum of the breakdown's points equals the modal's own fold over the categories (app.js:192) |
| `Aggregation.AggregateTeacher` | app.js:36-50 | keeps every field of the teacher record; one breakdown row per declared category, in order, each holding the category's normalized tier and points; an unassigned category gives null and 0; the total is the sum of the rows and equals the modal's total |
| `Aggregation.ComputeTeacherTotals` | app.js:32-52 | one aggregated teacher per input teacher, in the same order and with the same record; every breakdown has one row per declared category, in order, holding that category's normalized tier and its points; an unassigned category gives null and 0; each total is the sum of its rows and equals the modal's total; a missing table, category list or teacher list is treated as empty |
| `Aggregation.ModalRowsMatchBreakdown` | app.js:174-184 | each row the modal shows (normalized tier, its points, its label) agrees with the aggregated breakdown and with the raw tier's label |
| `Aggregation.ExampleRows` | app.js:38-42 | in the worked example, Math assigned "t1" gives the row (Math, T1, 10) and the unassigned Science gives (Science, null, 0) |
| `Aggregation.AggregateExample` | app.js:36-50 | Math assigned "t1" and Science unassigned, with T1 worth 10, give total 10 and rows (Math, T1, 10), (Science, null, 0) |
| `Ordering.LexCompare` | app.js:57 | the name comparison returns -1, 0 or 1, and 0 exactly for equal names |
| `Ordering.LexCompareProperPrefix` | app.js:57 | a name that is a proper prefix of another sorts before it |
| `Ordering.LexCompareFirstDifference` | app.js:57 | at the first position where two names differ, the name with the smaller character sorts first |
| `Ordering.LexCompareAntisymmetric` | app.js:57 | swapping the arguments of the name comparison negates it |
| `Ordering.LexCompareTransitive` | app.js:57 | the name order is transitive |
| `Ordering.Compare` | app.js:55-58 | non-positive exactly when the first key has the higher metric, or the same metric and a name that sorts before or with the other; zero exactly for equal keys |
| `Ordering.CompareExamples` | app.js:55-58 | at equal totals "Amy" goes before "Zed"; a total of 12 goes before a total of 5 whatever the names |
| `Ordering.CompareAntisymmetric` | app.js:55-58 | the comparator is negative one way exactly when it is positive the other way |
| `Ordering.CompareTransitive` | app.js:55-58 | the comparator's order is transitive |
| `Ordering.CompareBothWaysIsEqual` | app.js:55-58 | two keys that may each precede the other are equal |
| `Ordering.AdjacentSortedIsSorted` | app.js:55 | an arrangement whose neighbours are in order is ordered throughout |
| `Ordering.SortedFrontsAgree` | app.js:55 | two sorted arrangements of the same elements start with the same key |
| `Ordering.SwapEqualKeysToFront` | app.js:55 | exchanging the front with an element of the same key keeps the arrangement sorted and a permutation |
| `Ordering.SortedArrangementsAgree` | app.js:54-66 | any two sorted arrangements of the same elements carry the same key at every position, so a ranking is fixed up to exact (value, name) ties |
| `Ranking.SwapWithPrevious` | app.js:55 | exchanges two neighbours, changes nothing else, and keeps the same elements |
| `Ranking.Insert` | app.js:55 | after inserting the i-th element, the first i+1 elements are in order, everything after position i is untouched, and the array holds the same elements |
| `Ranking.SortInPlace` | app.js:55 | the in-place sort leaves a permutation of the array that is ordered by the comparator |
| `Ranking.SortedCopy` | app.js:55 | copying then sorting gives a fresh array that is a sorted permutation of the input |
| `Ranking.SortByPointsDesc` | app.js:54-59 | a fresh permutation of the teachers in which each teacher has a higher total than every later one, or the same total and a name that sorts before or with the later one |
| `Ranking.SortByAbsenceDesc` | app.js:61-66 | a fresh permutation of the teachers in which each teacher has more lessons missed than every later one, or as many and a name that sorts before or with the later one |

## Left out

- `Tiers.UpperChar`: upper-cases ASCII letters only. `toUpperCase` maps every Unicode letter, and that table is not modelled.
- `Tiers.Upper`: gives one output character per input character. `toUpperCase` can lengthen a string (`"ß"` gives `"SS"`, `"ﬁ"` gives `"FI"`). `Tiers.UpperDistributes` and `Tiers.TrimCommutesWithUpper` rely on the length staying the same, so they hold for the model only.
- `Aggregation.AssignedTier`: category names are looked up only among the record's own keys. In JavaScript, `cat[c]` and `teacher.categories?.[c]` also read members inherited from `Object.prototype` (`constructor`, `toString`, `__proto__`, …). An unassigned category with such a name gives a non-null tier in the page (for `constructor`, the text of the `Object` function, upper-cased), which the model does not capture.
- `Ordering.LexCompare`: compares names ordinally, by Unicode scalar value. `localeCompare` uses the host's collation, which the model does not describe.
- `Ranking.SortInPlace`: stands in for the engine's `Array.prototype.sort` with an insertion sort. `Ordering.SortedArrangementsAgree` proves that any sort obeying the comparator gives the same keys at every position. The model does not prove that the order among teachers with an equal value and an equal name is stable.
- `Ranking.SortByAbsenceDesc`: absence counts are integers. `Number(lessonsMissed)` of a missing or malformed count (NaN) is not modelled.
- `Tiers.PointsForTier`: table values are integers. A null entry (which `?? 0` turns into 0), a non-numeric entry (`Number(...)` gives NaN) and floating-point sums are not modelled.
- `Tiers.NormalizeTier`: a tier label is a string or null/missing. `String(tier)` of a number or another JSON value is not modelled.
- `Aggregation.AggregateTeacher`: a teacher record has only the fields `id`, `name`, `range`, `description`, `categories` and `lessonsMissed`. The object spread copies whatever other fields the JSON record carries; those are not modelled.
- `Aggregation.ComputeTeacherTotals`: only well-shaped documents are modelled, because the datatypes admit nothing else. On ill-shaped JSON the code throws: a `null` entry in `teachers` at `teacher.categories` (app.js:37), or a truthy `categories` that is not an array at `.map` (app.js:38). `loadData` then rejects, and `main` shows the load-failure message.
- `loadData` and `main` (app.js:209-225, 310-333): fetching, JSON parsing and the load-failure message are I/O.
- Rendering (`makeLeaderboardItem`, `renderTop3Points`, `renderTop3Absence`, `renderFullPoints`, `renderFullAbsence`) and the modal's DOM work (`modalApi`) only build page elements. The modal's per-row values and its total are modelled: `Aggregation.ModalTotal` and `Aggregation.ModalRowsMatchBreakdown`.
- `setActiveNav`, `setupReveal` and the page-transition and `pageshow` listeners are browser events and timers.
- `server.py` serves a fixed page and has no logic.
