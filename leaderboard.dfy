/** The leaderboard page: for each raw row (one per contestant and judge)
    the two category percentages, their 40/60 blend, the rows sorted by
    the rounded final score, and the rank shown for each contestant. */
module Leaderboard {
  import opened Common
  import opened Sorting
  import Server
  import ScoreGrid

  const MAX_STREET: int := 100
  const MAX_FESTIVAL: int := 100

  /** One row of `results`. The three percentages are the values their
      two-decimal texts denote. */
  datatype Standing = Standing(
    contestant: int,
    streetPercentage: real,
    festivalPercentage: real,
    finalScore: real,
    streetTotal: int,
    festivalTotal: int,
    judgeName: string)

  /** `max > 0 ? (total / max) * 100 : 0`. */
  function Percentage(total: int, max: int): (p: real)
    ensures max <= 0 ==> p == 0.0
    ensures max > 0 ==> p * (max as real) == (total as real) * 100.0
  {
    if max > 0 then (total as real / max as real) * 100.0 else 0.0
  }

  /** `street * 0.4 + festival * 0.6`: lies between the two percentages. */
  function Blend(street: real, festival: real): (f: real)
    ensures street <= festival ==> street <= f <= festival
    ensures festival <= street ==> festival <= f <= street
  {
    street * 0.4 + festival * 0.6
  }

  /** `x * 100` rounded to a whole number, a half away from zero: the
      digits `x.toFixed(2)` prints. */
  function Cents(x: real): (c: int)
    ensures x >= 0.0 ==> c as real - 0.5 <= x * 100.0 < c as real + 0.5
    ensures x < 0.0 ==> c as real - 0.5 < x * 100.0 <= c as real + 0.5
    ensures x >= 0.0 ==> c >= 0
    ensures x < 0.0 ==> c <= 0
  {
    var y := x * 100.0;
    if y >= 0.0 then (y + 0.5).Floor else -((-y + 0.5).Floor)
  }

  /** The value of `x.toFixed(2)`: the nearest multiple of 0.01, a half
      rounded away from zero. */
  function Round2(x: real): (r: real)
    ensures x >= 0.0 ==> x - 0.005 < r <= x + 0.005
    ensures x < 0.0 ==> x - 0.005 <= r < x + 0.005
    ensures (r * 100.0).Floor as real == r * 100.0
  {
    Cents(x) as real / 100.0
  }

  /** A multiple of 0.01 is shown as it is. */
  lemma Round2Exact(x: real, k: int)
    requires x * 100.0 == k as real
    ensures Round2(x) == x
  {
    assert Cents(x) == k;
  }

  /** `item.judgeName || "N/A"`. */
  function ShownJudge(name: string): string {
    if name == "" then "N/A" else name
  }

  /** The `scores.map(...)` callback for one raw row. */
  function ToStanding(raw: Server.RawTotal): Standing {
    var sp := Percentage(raw.streetTotal, MAX_STREET);
    var fp := Percentage(raw.festivalTotal, MAX_FESTIVAL);
    Standing(raw.contestantId, Round2(sp), Round2(fp), Round2(Blend(sp, fp)),
             raw.streetTotal, raw.festivalTotal, ShownJudge(raw.judgeName))
  }

  /** With both maxima 100 and whole-number totals nothing is lost to
      rounding: the percentages are the totals and the final score is
      exactly `0.4 * street + 0.6 * festival`. */
  lemma StandingExact(raw: Server.RawTotal)
    ensures var s := ToStanding(raw);
      && s.contestant == raw.contestantId
      && s.streetPercentage == raw.streetTotal as real
      && s.festivalPercentage == raw.festivalTotal as real
      && s.finalScore == 0.4 * raw.streetTotal as real + 0.6 * raw.festivalTotal as real
      && s.judgeName == (if raw.judgeName == "" then "N/A" else raw.judgeName)
      && s.streetTotal == raw.streetTotal && s.festivalTotal == raw.festivalTotal
  {
    var a, b := raw.streetTotal, raw.festivalTotal;
    assert Percentage(a, MAX_STREET) == a as real;
    assert Percentage(b, MAX_FESTIVAL) == b as real;
    Round2Exact(a as real, 100 * a);
    Round2Exact(b as real, 100 * b);
    Round2Exact(Blend(a as real, b as real), 40 * a + 60 * b);
  }

  /** Totals between 0 and the maxima give percentages and a final score
      between 0 and 100. */
  lemma StandingBounded(raw: Server.RawTotal)
    requires 0 <= raw.streetTotal <= MAX_STREET && 0 <= raw.festivalTotal <= MAX_FESTIVAL
    ensures var s := ToStanding(raw);
      && 0.0 <= s.streetPercentage <= 100.0
      && 0.0 <= s.festivalPercentage <= 100.0
      && 0.0 <= s.finalScore <= 100.0
  {
    StandingExact(raw);
  }

  function FinalKey(s: Standing): real {
    s.finalScore
  }

  /** `results`: the standings sorted by `Number(b.finalScore) - Number(a.finalScore)`,
      a stable sort; a permutation of the raw rows' standings, highest
      final score first. */
  function Results(raw: seq<Server.RawTotal>): (r: seq<Standing>)
    ensures |r| == |raw|
    ensures multiset(r) == multiset(MapSeq(raw, ToStanding))
    ensures forall i, j :: 0 <= i < j < |r| ==> r[i].finalScore >= r[j].finalScore
  {
    SortDesc(MapSeq(raw, ToStanding), FinalKey)
  }

  function ContestantOf(s: Standing): int {
    s.contestant
  }

  /** Reads the facts `RankMap` states through `ContestantOf` off the rows'
      own `contestant` field. */
  lemma RankMapByContestant(results: seq<Standing>, ranks: map<int, nat>)
    requires forall i :: 0 <= i < |results| ==> ContestantOf(results[i]) in ranks && i < ranks[ContestantOf(results[i])]
    requires forall c :: c in ranks ==> 1 <= ranks[c] <= |results| && ContestantOf(results[ranks[c] - 1]) == c
    requires forall c, j :: c in ranks && ranks[c] <= j < |results| ==> ContestantOf(results[j]) != c
    ensures forall i :: 0 <= i < |results| ==> results[i].contestant in ranks && i + 1 <= ranks[results[i].contestant]
    ensures forall c :: c in ranks ==>
      && 1 <= ranks[c] <= |results|
      && results[ranks[c] - 1].contestant == c
      && forall j :: ranks[c] <= j < |results| ==> results[j].contestant != c
  {
  }

  /** With one row per contestant, a contestant's rank is its row's place. */
  lemma RanksOfDistinct(results: seq<Standing>, ranks: map<int, nat>)
    requires forall i, j :: 0 <= i < j < |results| ==> results[i].contestant != results[j].contestant
    requires forall i :: 0 <= i < |results| ==> results[i].contestant in ranks && i + 1 <= ranks[results[i].contestant]
    requires forall c :: c in ranks ==> 1 <= ranks[c] <= |results| && results[ranks[c] - 1].contestant == c
    ensures forall i :: 0 <= i < |results| ==> ranks[results[i].contestant] == i + 1
  {
  }

  /** `ranks`: the reduce over `results` writing `idx + 1` under each
      contestant. Every listed contestant gets a rank; it is the place of
      that contestant's LAST row, so no row shows a better rank than its
      own place, and with one row per contestant the rank is the place. */
  method Ranks(results: seq<Standing>) returns (ranks: map<int, nat>)
    ensures forall i :: 0 <= i < |results| ==> results[i].contestant in ranks && i + 1 <= ranks[results[i].contestant]
    ensures forall c :: c in ranks ==>
      && 1 <= ranks[c] <= |results|
      && results[ranks[c] - 1].contestant == c
      && forall j :: ranks[c] <= j < |results| ==> results[j].contestant != c
    ensures (forall i, j :: 0 <= i < j < |results| ==> results[i].contestant != results[j].contestant) ==>
      forall i :: 0 <= i < |results| ==> ranks[results[i].contestant] == i + 1
  {
    ranks := RankMap(results, ContestantOf);
    RankMapByContestant(results, ranks);
    if forall i, j :: 0 <= i < j < |results| ==> results[i].contestant != results[j].contestant {
      RanksOfDistinct(results, ranks);
    }
  }

  /** The worked example: one row with street 80 and festival 90 gives
      80%, 90% and a final score of 86. */
  lemma OneRowExample()
    ensures Results([Server.RawTotal(1, "A", 80, 90)]) == [Standing(1, 80.0, 90.0, 86.0, 80, 90, "A")]
  {
    var raw := Server.RawTotal(1, "A", 80, 90);
    StandingExact(raw);
    var r := Results([raw]);
    assert multiset(r) == multiset{ToStanding(raw)};
    assert r[0] in multiset(r);
  }

  // ---------------------------------------------------------------- the category columns

  /** As written, the `street_total` a row of `GET /api/raw-scores` shows
      sums the scores of category 0, the category the judging page files
      festival scores under; `festival_total` sums its street scores. So
      the leaderboard weighs a judge's festival scores by 40% and street
      scores by 60%. */
  lemma AsWrittenWeights(rs: seq<Server.ScoreRow>)
    ensures var raw := Server.ScoreServer.RawTotals(rs, 0, 1);
      forall i :: 0 <= i < |raw| ==>
        ToStanding(raw[i]).finalScore ==
          0.4 * Server.CategorySum(rs, raw[i].contestantId, raw[i].judgeName, ScoreGrid.CATEGORY_FESTIVAL) as real
          + 0.6 * Server.CategorySum(rs, raw[i].contestantId, raw[i].judgeName, ScoreGrid.CATEGORY_STREET) as real
  {
    var raw := Server.ScoreServer.RawTotals(rs, 0, 1);
    forall i | 0 <= i < |raw| ensures ToStanding(raw[i]).finalScore ==
      0.4 * Server.CategorySum(rs, raw[i].contestantId, raw[i].judgeName, ScoreGrid.CATEGORY_FESTIVAL) as real
      + 0.6 * Server.CategorySum(rs, raw[i].contestantId, raw[i].judgeName, ScoreGrid.CATEGORY_STREET) as real
    {
      StandingExact(raw[i]);
    }
  }

  /** One festival score of 10 and nothing else: as written the
      leaderboard shows a final score of 4, where weighing festival by 60%
      gives 6. */
  lemma FestivalScoreWeighedAsStreet()
    ensures var rs := [Server.ScoreRow(Server.ScoreKey(1, ScoreGrid.CATEGORY_FESTIVAL, "A", "Musicality"), 10)];
      && Results(Server.ScoreServer.RawTotals(rs, 0, 1)) == [Standing(1, 10.0, 0.0, 4.0, 10, 0, "A")]
      && Results(Server.ScoreServer.RawTotals(rs, 1, 0)) == [Standing(1, 0.0, 10.0, 6.0, 0, 10, "A")]
  {
    var rs := [Server.ScoreRow(Server.ScoreKey(1, ScoreGrid.CATEGORY_FESTIVAL, "A", "Musicality"), 10)];
    OneRowRawTotals(rs, 0, 1);
    OneRowRawTotals(rs, 1, 0);
    var a := Server.RawTotal(1, "A", 10, 0);
    var b := Server.RawTotal(1, "A", 0, 10);
    StandingExact(a);
    StandingExact(b);
    var ra := Results([a]);
    var rb := Results([b]);
    assert multiset(ra) == multiset{ToStanding(a)} && ra[0] in multiset(ra);
    assert multiset(rb) == multiset{ToStanding(b)} && rb[0] in multiset(rb);
  }

  /** A table with a single row has a single raw row. */
  lemma OneRowRawTotals(rs: seq<Server.ScoreRow>, streetCat: int, festivalCat: int)
    requires |rs| == 1
    ensures var k := rs[0].key;
      Server.ScoreServer.RawTotals(rs, streetCat, festivalCat) == [Server.RawTotal(
        k.contestant, k.judgeName,
        Server.CategorySum(rs, k.contestant, k.judgeName, streetCat),
        Server.CategorySum(rs, k.contestant, k.judgeName, festivalCat))]
  {
    var p := Server.PairOf(rs[0]);
    var all := MapSeq(rs, Server.PairOf);
    assert all == [p];
    assert InsertionSort(all, Server.PairLe) == [p] by {
      assert all[1..] == [];
    }
    assert Server.ScoreServer.RawPairs(rs) == [p];
    var ps := [p];
    assert ps[1..] == [];
  }

  /** With the columns filled as their names say, the leaderboard weighs
      street scores by 40% and festival scores by 60%, as the page's
      headings promise. */
  lemma CorrectedWeights(rs: seq<Server.ScoreRow>)
    ensures var raw := Server.ScoreServer.RawTotals(rs, ScoreGrid.CATEGORY_STREET, ScoreGrid.CATEGORY_FESTIVAL);
      forall i :: 0 <= i < |raw| ==>
        ToStanding(raw[i]).finalScore ==
          0.4 * Server.CategorySum(rs, raw[i].contestantId, raw[i].judgeName, ScoreGrid.CATEGORY_STREET) as real
          + 0.6 * Server.CategorySum(rs, raw[i].contestantId, raw[i].judgeName, ScoreGrid.CATEGORY_FESTIVAL) as real
  {
    var raw := Server.ScoreServer.RawTotals(rs, ScoreGrid.CATEGORY_STREET, ScoreGrid.CATEGORY_FESTIVAL);
    forall i | 0 <= i < |raw| ensures ToStanding(raw[i]).finalScore ==
      0.4 * Server.CategorySum(rs, raw[i].contestantId, raw[i].judgeName, ScoreGrid.CATEGORY_STREET) as real
      + 0.6 * Server.CategorySum(rs, raw[i].contestantId, raw[i].judgeName, ScoreGrid.CATEGORY_FESTIVAL) as real
    {
      StandingExact(raw[i]);
    }
  }
}
