# Festival judging: a verified model of the scoring core

The judging app lets judges score six dance contestants in two categories: festival (category 0) and street (category 1). Each category has a fixed table of weighted criteria. A leaderboard then blends the two categories 40/60. This project models the scoring bookkeeping of that app in Dafny and proves what it promises. The model covers three parts:

- **The server** (`server.dfy`, module `Server`). Class `ScoreServer` holds the `judges` table, its auto-increment counter and the `scores` table, a sequence of rows with unique four-part keys (contestant, category, judge name, criterion). The routes are methods:
  - create a judge, with trimming, the blank check and the duplicate check;
  - upsert a score, with the missing-field check.

  The SQL reads are functions:
  - judges ordered by name;
  - one category's rows ordered by (contestant, judge);
  - `GROUP BY` with `SUM(CASE ...)` for the raw per-judge totals.

  The grouping loop of `GET /api/scores` is an imperative method over a map.
- **The judge page** (`grid.dfy`, module `ScoreGrid`, and `home.dfy`, module `Home`). This part covers:
  - the two criteria tables;
  - the grid category → contestant → criterion → cell and its nested initialisation loops;
  - the loop that merges fetched scores for the selected judge;
  - the one-cell edit;
  - the two nested loops of "Submit All Scores", which stop at a write that throws;
  - the per-contestant totals and the stable descending ranking.

  Class `ScoringPanel` holds the page's state (`category`, `allJudgeScores`, `judges`, `selectedJudge`, `newJudgeInput`), and its handlers are methods.
- **The leaderboard** (`leaderboard.dfy`, module `Leaderboard`). This part covers:
  - the per-row percentages and the 40/60 blend;
  - the two-decimal rounding that the sort key goes through;
  - the stable sort by final score;
  - the `ranks` reduce, in which a later row of the same contestant overwrites an earlier one.

Shared pieces:
- `common.dfy` holds `Option`, filters, maps and permutation facts.
- `text.dfy` holds JavaScript `trim`, lower-casing and a binary string order, which models the database's string order.
- `sorting.dfy` holds a stable insertion sort, de-duplication and the "write each index into a record" reduce.

I/O is replaced by parameters:
- a fetched list or map;
- an `Option` for a fetch that fails;
- the reply of `POST /api/judges`;
- the number of the write that throws.

Four behaviours of the code are easy to miss:
- **Submit stops at the first error.** A thrown write in "Submit All Scores" ends the whole submission (the `try` encloses both loops, `my-app/src/Component/home.tsx:150-174`). The later writes are not attempted.
- **The raw-score columns are swapped.** The raw-scores query sums category 0 into `street_total` (`my-app/server/server.js:108`), while the judge page files festival scores under category 0 (`my-app/src/Component/home.tsx:9`). See Findings.
- **Ranks are per contestant, not per row.** On the leaderboard the rank is keyed by contestant, so every row of a contestant shows the place of that contestant's last row (`my-app/src/Component/Score.tsx:52-55, 81`).
- **A refused "add judge" still appends an entry.** When the server refuses a new judge, the page still appends the error body to its judge list and selects its (missing) name (`my-app/src/Component/home.tsx:135-137`).

## Model

| member | source | states |
|---|---|---|
| Server.Upsert | my-app/server/server.js:85-90 | after the write the key reads the new score, every other key reads what it did before, and every row is the written one or an old row |
| Server.UpsertKeysUnique | my-app/server/server.js:85-90 | on a table with unique keys the upsert keeps keys unique and leaves exactly one row for the written key |
| Server.UpsertLastWins | my-app/server/server.js:88 | of two writes to one key the later one wins |
| Server.UpsertIdempotent | my-app/server/server.js:88 | repeating a write changes nothing |
| Server.UniqueNameCount | my-app/server/server.js:41-47 | in a table of unique names every stored name occurs exactly once |
| Server.NameOrderIsTotal | my-app/server/server.js:27 | `ORDER BY name` is a total, transitive order on judges |
| Server.PairOrderIsTotal | my-app/server/server.js:58 | `ORDER BY contestant_id, judgeName` is total, transitive and antisymmetric on pairs, and total and transitive on rows |
| Server.CategoryRows | my-app/server/server.js:58 | defines the rows of one category, in table order |
| Server.CategorySum | my-app/server/server.js:108-109 | defines `SUM(CASE WHEN category = c THEN score ELSE 0 END)` for one (contestant, judge) pair |
| Server.CategorySumAfterUpsert | my-app/server/server.js:85-90 | a write moves the category sum of its own (contestant, judge, category) by the change of score and leaves every other sum as it was |
| Server.GroupStepAt | my-app/server/server.js:63-67 | pushing one row keeps each contestant's group equal to its rows' entries and their sum |
| Server.GroupStepOwn | my-app/server/server.js:65-67 | for the row's own contestant the list gains that row's entry and the total gains its score, creating the group if absent |
| Server.GroupStep | my-app/server/server.js:63-68 | one pass of the `forEach` keeps the whole grouping exact |
| Server.GroupByContestant | my-app/server/server.js:62-68 | a group exists exactly for the contestants with rows; its entries are those rows in order and its total is their sum |
| Server.ScoreServer.constructor | my-app/server/server.js:10-18 | stands for the server started on a fresh database behind this pool: both tables empty, ids starting at 1, the constraints holding |
| Server.ScoreServer.ListJudges | my-app/server/server.js:25-33 | the result is a permutation of the judges table, ordered by name |
| Server.ScoreServer.CreateJudge | my-app/server/server.js:36-51 | a missing or blank name gives 400 "Name required" and a trimmed name already stored gives 400 "Judge exists", both changing nothing; otherwise the trimmed name is appended with the next id and then occurs exactly once |
| Server.ScoreServer.MissingField | my-app/server/server.js:81 | defines the field check: some field of the body is `undefined` |
| Server.ScoreServer.PostScore | my-app/server/server.js:78-96 | any missing field gives 400 "Missing fields" and leaves the scores unchanged; otherwise the upsert leaves exactly one row for the key, holding the score, and all other keys unchanged |
| Server.ScoreServer.QueryCategory | my-app/server/server.js:57-60 | the result is a permutation of the category's rows, ordered by (contestant, judge name) |
| Server.ScoreServer.GetScores | my-app/server/server.js:54-75 | with the category defaulting to 0, a group exists exactly for the contestants with rows in that category; its entries are exactly those rows, in judge-name order, and its total is their sum |
| Server.ScoreServer.RawPairs | my-app/server/server.js:111-112 | the groups are exactly the (contestant, judge) pairs present in the table, in pair order, each once |
| Server.ScoreServer.RawTotals | my-app/server/server.js:104-113 | every pair present gets a row, and each row's two columns are its pair's sums for the two chosen categories |
| Server.ScoreServer.RawTotalsFromTable | my-app/server/server.js:110-111 | every result row is a pair present in the table |
| Server.ScoreServer.RawTotalsOrdered | my-app/server/server.js:111-112 | the result rows are in pair order and pairwise distinct |
| Server.ScoreServer.RawRows | my-app/server/server.js:108-109 | one row per pair, carrying that pair's two category sums |
| Server.ScoreServer.RawScores | my-app/server/server.js:102-120 | as written: `street_total` is each pair's category-0 sum and `festival_total` its category-1 sum; every pair present appears, each once |
| Server.ScoreServer.RawScoresCorrected | my-app/server/server.js:108-109 | the same query with category 1 summed into `street_total` and category 0 into `festival_total` |
| Text.Trim | my-app/server/server.js:39-41 | the trimmed name has no white space at either end |
| Text.TrimSlices | my-app/server/server.js:41 | `trim` removes only white space and keeps the input's middle unchanged |
| Text.TrimBlank | my-app/server/server.js:39 | a name trims to nothing exactly when it is all white space |
| Text.TrimIdempotent | my-app/src/Component/home.tsx:123 | trimming the client's already-trimmed name again changes nothing |
| Text.ToLower | my-app/src/Component/home.tsx:125 | defines `toLowerCase()` on ASCII letters, one character at a time |
| Text.ToLowerEq | my-app/src/Component/home.tsx:125 | two names are equal after lower-casing exactly when they have the same length and each pair of characters is equal or the same ASCII letter in the other case |
| Text.ToLowerIdempotent | my-app/src/Component/home.tsx:125 | lower-casing twice is lower-casing once |
| Text.StrLeTotal | my-app/server/server.js:27 | any two names are ordered one way or the other |
| Text.StrLeAntisymmetric | my-app/server/server.js:27 | names ordered both ways are equal |
| Text.StrLeTransitive | my-app/server/server.js:27 | the name order is transitive |
| Sorting.InsertionSort | my-app/src/Component/home.tsx:182 | sorting permutes its input |
| Sorting.SortSorted | my-app/src/Component/home.tsx:182 | the result is sorted under any total, transitive order |
| Sorting.SortDesc | my-app/src/Component/Score.tsx:50 | a descending sort by key returns a permutation of the input, largest key first |
| Sorting.SortDescTieBreak | my-app/src/Component/home.tsx:182 | the stable sort of a list with ascending ids keeps equal keys in ascending id order |
| Sorting.FilterSorted | my-app/server/server.js:58 | a filtered sorted list is sorted |
| Sorting.Dedupe | my-app/server/server.js:111 | grouping keeps exactly the values present and the first one |
| Sorting.DedupeSorted | my-app/server/server.js:111-112 | grouping a sorted list gives a sorted list of distinct values |
| Sorting.RankMap | my-app/src/Component/Score.tsx:52-55 | every id seen gets a rank past each of its positions, and the rank is one past its last position |
| ScoreGrid.CriteriaFor | my-app/src/Component/home.tsx:31 | defines the criteria of a category: street for category 1, festival otherwise |
| ScoreGrid.CellAt | my-app/src/Component/home.tsx:153 | defines `scores?.[c]?.[name]`, blank when the contestant or criterion is absent |
| ScoreGrid.CriteriaTables | my-app/src/Component/home.tsx:13-27 | both criteria tables' percentages sum to 100 and their names are distinct |
| ScoreGrid.BlankRowShape | my-app/src/Component/home.tsx:59-61 | a fresh row has exactly the category's criterion names, all blank |
| ScoreGrid.RowsForShape | my-app/src/Component/home.tsx:57-58 | the initial grid has a row for exactly the listed contestants |
| ScoreGrid.InitialGridShape | my-app/src/Component/home.tsx:56-62 | after initialisation the grid has exactly contestants 1 to 6, each with exactly the category's criterion names, every cell blank |
| ScoreGrid.InitGrid | my-app/src/Component/home.tsx:56-62 | the nested loops build exactly the initial grid |
| ScoreGrid.LastHit | my-app/src/Component/home.tsx:75-79 | finds the last entry for a cell that matches the selected judge, or reports that none does |
| ScoreGrid.MergeEntries | my-app/src/Component/home.tsx:75-79 | defines the row after the `forEach` over a contestant's fetched entries |
| ScoreGrid.MergeEntriesCell | my-app/src/Component/home.tsx:75-79 | a cell ends up holding the score of the last entry for it that matches the judge (any entry when none is selected); a cell no matching entry names keeps its value |
| ScoreGrid.MergeRow | my-app/src/Component/home.tsx:75-79 | the inner loop computes the merged row |
| ScoreGrid.MergedGrid | my-app/src/Component/home.tsx:70-80 | defines the grid after merging every fetched contestant |
| ScoreGrid.MergedGridAt | my-app/src/Component/home.tsx:70-80 | the merged grid holds the initial and the fetched contestants; a fetched one (a fresh row if unknown) gets its merged row and every other row is kept |
| ScoreGrid.MergeFetched | my-app/src/Component/home.tsx:70-80 | the `for ... in` loop computes exactly the merged grid |
| ScoreGrid.SetCell | my-app/src/Component/home.tsx:97-103 | exactly the one cell is set; every other contestant and criterion keeps its value |
| Home.WritesPassFieldCheck | my-app/src/Component/home.tsx:155-165 | every write the page sends passes the server's field check and targets the key of its cell |
| Home.WriteKey | my-app/server/server.js:85-87 | defines the table key a page write lands on |
| Home.ApplyWrites | my-app/server/server.js:85-90 | defines the scores table after the server has accepted a sequence of page writes, in order |
| Home.ApplyWritesLookup | my-app/server/server.js:85-90 | after writes to distinct keys, each written key holds its score and every other key holds what it held before |
| Home.SubmitStoresGrid | my-app/src/Component/home.tsx:150-169 | a submission that succeeds leaves every non-blank cell of contestants 1 to 6 and the category's criteria stored under the judge's name with its number; every other key (another category or judge, a contestant or criterion the loops do not visit, a blank cell) keeps its score |
| Home.RowWrites | my-app/src/Component/home.tsx:152-166 | defines the writes for one contestant's non-blank cells, in criteria order |
| Home.PlanWrites | my-app/src/Component/home.tsx:151-168 | defines all writes of "Submit All Scores", contestant by contestant |
| Home.RowWritesExact | my-app/src/Component/home.tsx:152-166 | one contestant's writes are exactly its non-blank cells, with their numbers, one per criterion |
| Home.PlanWritesExact | my-app/src/Component/home.tsx:151-168 | the planned writes are exactly the non-blank cells of the category, one per (contestant, criterion) |
| Home.RowWritesPrefix | my-app/src/Component/home.tsx:152 | the writes of the first criteria are a prefix of the row's writes |
| Home.PlanWritesPrefix | my-app/src/Component/home.tsx:151 | the writes of the first contestants are a prefix of all writes |
| Home.SendRow | my-app/src/Component/home.tsx:152-167 | the inner loop sends the row's writes in criteria order, stopping right after a write that throws |
| Home.SendPlan | my-app/src/Component/home.tsx:150-174 | both loops send the planned writes in contestant then criteria order, up to and including a write that throws; success only when none throws |
| Home.Total | my-app/src/Component/home.tsx:177-180 | defines a contestant's total, with a blank cell counting 0 |
| Home.TotalBounded | my-app/src/Component/home.tsx:177-180 | a total of dropdown-chosen cells, with blanks counting 0, lies between 0 and the sum of the percentages |
| Home.TotalAtMost100 | my-app/src/Component/home.tsx:265 | with every cell chosen from 0 to its percentage, a contestant's total is between 0 and 100 |
| Home.Ranked | my-app/src/Component/home.tsx:182 | defines `ranked`, the stable descending sort of the totals |
| Home.RankedEntries | my-app/src/Component/home.tsx:177-182 | `ranked` lists each of the six contestants with its own total |
| Home.RankedIsRanking | my-app/src/Component/home.tsx:182 | `ranked` puts larger totals first and ties in ascending contestant order |
| Home.RankingOrder | my-app/src/Component/home.tsx:182 | in the ranking, an earlier position means a higher total, or an equal total and a smaller id |
| Home.RanksCoverContestants | my-app/src/Component/home.tsx:183 | exactly the six contestants get a rank |
| Home.RanksDistinct | my-app/src/Component/home.tsx:183 | the ranks are distinct and lie in 1 to 6 |
| Home.RanksFollowOrder | my-app/src/Component/home.tsx:182-183 | a smaller rank exactly when ranked above |
| Home.Ranks | my-app/src/Component/home.tsx:182-183 | the ranks are a permutation of 1 to 6 over contestants 1 to 6; a strictly higher total gets a strictly smaller rank, and ties rank in ascending id |
| Home.ScanJudges | my-app/src/Component/home.tsx:125 | over a list of real judges, reports a duplicate exactly when some name equals the new one ignoring case; it throws only on an entry without a name |
| Home.ScoringPanel.constructor | my-app/src/Component/home.tsx:30-38 | the festival category, no grids, no judges, no selection, empty input |
| Home.ScoringPanel.Scores | my-app/src/Component/home.tsx:34 | defines the grid of the current category, empty when none is loaded |
| Home.ScoringPanel.LoadJudges | my-app/src/Component/home.tsx:41-52 | the judge list becomes the fetched list; nothing else changes |
| Home.ScoringPanel.SelectJudge | my-app/src/Component/home.tsx:189-191 | the selection becomes the chosen name; nothing else changes |
| Home.ScoringPanel.TypeNewJudge | my-app/src/Component/home.tsx:202-203 | the input becomes the typed text; nothing else changes |
| Home.ScoringPanel.SwitchCategory | my-app/src/Component/home.tsx:212 | festival and street swap; nothing else changes |
| Home.ScoringPanel.LoadCategory | my-app/src/Component/home.tsx:54-89 | the category's grid becomes the initial grid, and with a successful fetch the fetched scores merged in for the selected judge; other categories are kept |
| Home.ScoringPanel.HandleChange | my-app/src/Component/home.tsx:91-120 | with no judge selected nothing changes and nothing is sent; otherwise exactly the one cell of the current category is set and one write of its number (a blank as 0) is sent |
| Home.ScoringPanel.HandleAddJudge | my-app/src/Component/home.tsx:122-142 | no request for a blank trimmed name or a case-insensitive duplicate; otherwise the trimmed name is posted, and the reply is appended and selected, the input cleared |
| Home.ScoringPanel.HandleSubmitScores | my-app/src/Component/home.tsx:144-175 | nothing is sent without a selected judge; otherwise one write per non-blank cell, in contestant then criteria order, up to a write that throws |
| Leaderboard.Percentage | my-app/src/Component/Score.tsx:33-36 | a non-positive maximum gives 0; otherwise percentage × maximum = total × 100 |
| Leaderboard.Blend | my-app/src/Component/Score.tsx:38-39 | the final score lies between the two percentages |
| Leaderboard.Cents | my-app/src/Component/Score.tsx:43-45 | rounds x × 100 to the nearest whole number, and a tie away from zero: c − 0.5 ≤ 100x < c + 0.5 for x ≥ 0, and c − 0.5 < 100x ≤ c + 0.5 for x < 0 |
| Leaderboard.Round2 | my-app/src/Component/Score.tsx:43-45 | the shown value is a multiple of 0.01 within 0.005 of the exact one, a half-cent going away from zero: x − 0.005 < r ≤ x + 0.005 for x ≥ 0, and x − 0.005 ≤ r < x + 0.005 for x < 0 |
| Leaderboard.Round2Exact | my-app/src/Component/Score.tsx:43-45 | a multiple of 0.01 is shown as it is |
| Leaderboard.ShownJudge | my-app/src/Component/Score.tsx:48 | defines `judgeName \|\| "N/A"` |
| Leaderboard.ToStanding | my-app/src/Component/Score.tsx:32-49 | defines the `map` callback that turns one raw row into a standing |
| Leaderboard.StandingExact | my-app/src/Component/Score.tsx:32-49 | with both maxima 100 the percentages equal the totals, the final score is exactly 0.4 × street + 0.6 × festival, a missing judge name shows "N/A", and both raw totals are carried unchanged |
| Leaderboard.StandingBounded | my-app/src/Component/Score.tsx:33-39 | totals within the maxima give percentages and a final score between 0 and 100 |
| Leaderboard.Results | my-app/src/Component/Score.tsx:32-50 | one standing per raw row, a permutation of the mapped rows, ordered by non-increasing final score |
| Leaderboard.RanksOfDistinct | my-app/src/Component/Score.tsx:52-55 | with one row per contestant, the rank is the row's place |
| Leaderboard.Ranks | my-app/src/Component/Score.tsx:52-55 | every listed contestant's rank is in 1 to the row count and is the place of its last row; with distinct contestants, the rank is the place |
| Leaderboard.OneRowExample | my-app/src/Component/Score.tsx:32-50 | one row with totals 80 and 90 shows 80%, 90% and a final score of 86 |
| Leaderboard.OneRowRawTotals | my-app/server/server.js:104-113 | a table with one score row gives one raw row carrying its sums |
| Leaderboard.AsWrittenWeights | my-app/server/server.js:108-109 | as written, a row's final score weighs the judge's festival scores (category 0) by 40% and street scores (category 1) by 60% |
| Leaderboard.FestivalScoreWeighedAsStreet | my-app/server/server.js:108-109 | one festival score of 10 gives a final score of 4 as written, and 6 with the columns filled as named |
| Leaderboard.CorrectedWeights | my-app/server/server.js:108-109 | with the columns filled as named, street scores weigh 40% and festival scores 60%, as the leaderboard headings say |

## Left out

- **HTTP and the database.** Express routing, CORS and JSON middleware, the MySQL pool, environment configuration and `listen` are not modelled. Request bodies, query strings and replies are values. A fetch is a parameter: a list, a map, an `Option` for a failed fetch, or the reply of `POST /api/judges`.
- **500 "DB error" paths.** Storage failures are not modelled.
- **`GET /api/contestant-totals`.** It orders a table that this code does not compute.
- **String collation.** SQL string equality and order are modelled as a binary collation: equal code points and code-point order. A case- or accent-insensitive MySQL collation is not modelled. This affects the following members:
  - Server.ScoreServer.CreateJudge: the unique index on judge names;
  - Server.ScoreServer.ListJudges: `ORDER BY name`;
  - Server.ScoreServer.QueryCategory and Server.ScoreServer.GetScores: `ORDER BY contestant_id, judgeName`;
  - Server.ScoreServer.RawPairs and Server.ScoreServer.RawScores: `GROUP BY` and `ORDER BY` on judgeName;
  - Server.Upsert: the unique key, which includes judgeName and criteria.
- **Auto-increment gaps.** Ids are consecutive in the model.
- **Server.ScoreServer.GetScores: row order within a pair.** The entry list is stated as the contestant's rows in judge-name order, as a multiset. The order of several rows of one (contestant, judge) pair is the database's and is left open.
- **Type coercion.** `Number(...)` of request and cell values is not modelled. Scores and category numbers are integers, and a cell is either blank or holds a whole number.
- **The fetched data itself.** `(scores || [])` of a fetched group is not modelled; every fetched group carries a list. Neither is a fetched body that is an error object rather than a map.
- **Leaderboard.Round2: exact reals, not IEEE doubles.** It rounds the exact value with `real` arithmetic. It does not model the binary approximation that makes, for example, `(1.005).toFixed(2)` print `1.00`. The `toFixed` strings, and `Number` of them, are their values.
- **Text.ToLower: ASCII only.** It folds A–Z only. Unicode case mapping is not modelled.
- **The judge page's rendering.** JSX, the loading flag, `alert`, `setTimeout`, the submitted banner, descriptions and hook scheduling are not modelled.
- **Asynchronous effects.** The model runs each effect to completion, one at a time. Races between effects, and between fire-and-forget writes, are not modelled.
- **Aliasing of copied objects.** The shallow copies `{ ...initialScoresForCategory }` are treated as values, so the mutation through them that the page performs is not modelled.
- **`my-app/src/App.tsx`.** It holds only navigation, so it is not part of this model.

## Findings

| source | as written | input that shows it | evidently intended | confidence | as-written member | corrected member |
|---|---|---|---|---|---|---|
| my-app/server/server.js:108-109 | `street_total` sums category 0 and `festival_total` category 1, but the judge page files festival scores under category 0 and street scores under 1 (my-app/src/Component/home.tsx:9-10), so the leaderboard's "Street Dance 40%" column shows festival scores | one festival score of 10 by judge A for contestant 1: the leaderboard shows street 10%, festival 0%, final 4 | category 1 summed into `street_total` and category 0 into `festival_total`, giving street 0%, festival 10%, final 6 | not executed; medium: the two files disagree, and either could be the one meant to change | Leaderboard.FestivalScoreWeighedAsStreet | Server.ScoreServer.RawScoresCorrected |
