/** The judge's scoring page: the writes it sends, the per-contestant
    totals and ranks it shows, and the handlers that edit, load and submit
    the grid of the current category. */
module Home {
  import opened Common
  import opened Text
  import opened Sorting
  import opened ScoreGrid
  import Server

  // ---------------------------------------------------------------- writes

  /** The body of one `POST /api/scores` the page sends. */
  datatype ScoreWrite = ScoreWrite(contestant: int, category: int, judgeName: string, criteria: string, score: int)

  function ToRequest(w: ScoreWrite): Server.ScoreRequest {
    Server.ScoreRequest(Some(w.contestant), Some(w.category), Some(w.judgeName), Some(w.criteria), Some(w.score))
  }

  /** Every write the page sends passes the server's field check and lands
      on the key of the cell it came from. */
  lemma WritesPassFieldCheck(w: ScoreWrite)
    ensures !Server.ScoreServer.MissingField(ToRequest(w))
    ensures Server.ScoreServer.KeyOf(ToRequest(w)) == Server.ScoreKey(w.contestant, w.category, w.judgeName, w.criteria)
  {
  }

  /** The writes for one contestant's non-blank cells, in criteria order. */
  function RowWrites(g: Grid, c: int, cs: seq<Criterion>, cat: int, judge: string): seq<ScoreWrite> {
    if cs == [] then []
    else
      var n := cs[|cs| - 1].name;
      RowWrites(g, c, cs[..|cs| - 1], cat, judge)
      + (if CellAt(g, c, n) != Blank then [ScoreWrite(c, cat, judge, n, CellNumber(CellAt(g, c, n)))] else [])
  }

  /** The writes of "Submit All Scores": contestant order, then criteria order. */
  function PlanWrites(g: Grid, cids: seq<int>, cs: seq<Criterion>, cat: int, judge: string): seq<ScoreWrite> {
    if cids == [] then []
    else PlanWrites(g, cids[..|cids| - 1], cs, cat, judge) + RowWrites(g, cids[|cids| - 1], cs, cat, judge)
  }

  /** A write is planned exactly for a non-blank cell, carrying that cell's number. */
  lemma {:induction false} RowWritesExact(g: Grid, c: int, cs: seq<Criterion>, cat: int, judge: string)
    ensures forall w :: w in RowWrites(g, c, cs, cat, judge) ==>
      && w.contestant == c && w.category == cat && w.judgeName == judge
      && (exists k :: 0 <= k < |cs| && cs[k].name == w.criteria)
      && CellAt(g, c, w.criteria) != Blank && w.score == CellNumber(CellAt(g, c, w.criteria))
    ensures forall k :: 0 <= k < |cs| && CellAt(g, c, cs[k].name) != Blank ==>
      ScoreWrite(c, cat, judge, cs[k].name, CellNumber(CellAt(g, c, cs[k].name))) in RowWrites(g, c, cs, cat, judge)
    ensures NamesDistinct(cs) ==> forall i, j :: 0 <= i < j < |RowWrites(g, c, cs, cat, judge)| ==>
      RowWrites(g, c, cs, cat, judge)[i].criteria != RowWrites(g, c, cs, cat, judge)[j].criteria
  {
    if cs != [] {
      var init := cs[..|cs| - 1];
      RowWritesExact(g, c, init, cat, judge);
      assert forall k :: 0 <= k < |init| ==> init[k] == cs[k];
    }
  }

  lemma {:induction false} PlanWritesExact(g: Grid, cids: seq<int>, cs: seq<Criterion>, cat: int, judge: string)
    ensures forall w :: w in PlanWrites(g, cids, cs, cat, judge) ==>
      && w.contestant in cids && w.category == cat && w.judgeName == judge
      && (exists k :: 0 <= k < |cs| && cs[k].name == w.criteria)
      && CellAt(g, w.contestant, w.criteria) != Blank && w.score == CellNumber(CellAt(g, w.contestant, w.criteria))
    ensures forall c, k :: c in cids && 0 <= k < |cs| && CellAt(g, c, cs[k].name) != Blank ==>
      ScoreWrite(c, cat, judge, cs[k].name, CellNumber(CellAt(g, c, cs[k].name))) in PlanWrites(g, cids, cs, cat, judge)
    ensures NamesDistinct(cs) && (forall i, j :: 0 <= i < j < |cids| ==> cids[i] != cids[j]) ==>
      forall i, j :: 0 <= i < j < |PlanWrites(g, cids, cs, cat, judge)| ==>
        var p := PlanWrites(g, cids, cs, cat, judge);
        (p[i].contestant, p[i].criteria) != (p[j].contestant, p[j].criteria)
  {
    if cids != [] {
      var init := cids[..|cids| - 1];
      var c := cids[|cids| - 1];
      PlanWritesExact(g, init, cs, cat, judge);
      RowWritesExact(g, c, cs, cat, judge);
      var a := PlanWrites(g, init, cs, cat, judge);
      var b := RowWrites(g, c, cs, cat, judge);
      assert forall x :: x in init ==> x in cids;
      forall d | d in cids ensures d in init || d == c {
        var m :| 0 <= m < |cids| && cids[m] == d;
        if m < |cids| - 1 { assert init[m] == d; }
      }
      if NamesDistinct(cs) && (forall i, j :: 0 <= i < j < |cids| ==> cids[i] != cids[j]) {
        assert forall i, j :: 0 <= i < j < |init| ==> init[i] != init[j] by {
          assert forall i :: 0 <= i < |init| ==> init[i] == cids[i];
        }
        assert c !in init;
        var p := a + b;
        forall i, j | 0 <= i < j < |p| ensures (p[i].contestant, p[i].criteria) != (p[j].contestant, p[j].criteria) {
          if j < |a| {
          } else if i >= |a| {
            assert p[i] == b[i - |a|] && p[j] == b[j - |a|];
          } else {
            assert p[i] in a && p[j] in b;
          }
        }
      }
    }
  }

  predicate IsPrefix(a: seq<ScoreWrite>, b: seq<ScoreWrite>) {
    |a| <= |b| && b[..|a|] == a
  }

  lemma {:induction false} RowWritesPrefix(g: Grid, c: int, cs: seq<Criterion>, cat: int, judge: string, j: nat)
    requires j <= |cs|
    ensures IsPrefix(RowWrites(g, c, cs[..j], cat, judge), RowWrites(g, c, cs, cat, judge))
    decreases |cs| - j
  {
    if j < |cs| {
      RowWritesPrefix(g, c, cs[..|cs| - 1], cat, judge, j);
      assert cs[..|cs| - 1][..j] == cs[..j];
    } else {
      assert cs[..j] == cs;
    }
  }

  lemma {:induction false} PlanWritesPrefix(g: Grid, cids: seq<int>, cs: seq<Criterion>, cat: int, judge: string, i: nat)
    requires i <= |cids|
    ensures IsPrefix(PlanWrites(g, cids[..i], cs, cat, judge), PlanWrites(g, cids, cs, cat, judge))
    decreases |cids| - i
  {
    if i < |cids| {
      PlanWritesPrefix(g, cids[..|cids| - 1], cs, cat, judge, i);
      assert cids[..|cids| - 1][..i] == cids[..i];
    } else {
      assert cids[..i] == cids;
    }
  }

  /** The writes sent when the `await fetch` of write number `k` throws:
      the `try` encloses both loops, so that write is the last one sent. */
  function Attempted(plan: seq<ScoreWrite>, failAt: Option<nat>): seq<ScoreWrite> {
    if failAt.Some? && failAt.value < |plan| then plan[..failAt.value + 1] else plan
  }

  /** The inner loop of "Submit All Scores" for contestant `c`, after the
      writes `before`: it stops (`failed`) right after write number
      `failAt` is sent, if that write belongs to this row. */
  method SendRow(g: Grid, c: int, cs: seq<Criterion>, cat: int, judge: string,
                 before: seq<ScoreWrite>, failAt: Option<nat>) returns (sent: seq<ScoreWrite>, failed: bool)
    requires failAt.None? || failAt.value >= |before|
    ensures var full := before + RowWrites(g, c, cs, cat, judge);
      if failed then failAt.Some? && failAt.value < |full| && sent == full[..failAt.value + 1]
      else sent == full && (failAt.None? || failAt.value >= |full|)
  {
    sent := before;
    for j := 0 to |cs|
      invariant sent == before + RowWrites(g, c, cs[..j], cat, judge)
      invariant failAt.None? || failAt.value >= |sent|
    {
      assert cs[..j + 1][..j] == cs[..j];
      var v := CellAt(g, c, cs[j].name);
      if v != Blank {
        sent := sent + [ScoreWrite(c, cat, judge, cs[j].name, CellNumber(v))];
        if failAt == Some(|sent| - 1) {
          RowWritesPrefix(g, c, cs, cat, judge, j + 1);
          return sent, true;
        }
      }
    }
    assert cs[..|cs|] == cs;
    failed := false;
  }

  /** Both loops of "Submit All Scores": the planned writes in order, up to
      and including write number `failAt` when that one throws. */
  method SendPlan(g: Grid, cs: seq<Criterion>, cat: int, judge: string, failAt: Option<nat>)
    returns (sent: seq<ScoreWrite>, succeeded: bool)
    ensures var plan := PlanWrites(g, Contestants, cs, cat, judge);
      sent == Attempted(plan, failAt) && succeeded == (failAt.None? || failAt.value >= |plan|)
  {
    sent := [];
    for i := 0 to |Contestants|
      invariant sent == PlanWrites(g, Contestants[..i], cs, cat, judge)
      invariant failAt.None? || failAt.value >= |sent|
    {
      assert Contestants[..i + 1][..i] == Contestants[..i];
      var s, failed := SendRow(g, Contestants[i], cs, cat, judge, sent, failAt);
      if failed {
        PlanWritesPrefix(g, Contestants, cs, cat, judge, i + 1);
        return s, false;
      }
      sent := s;
    }
    assert Contestants[..|Contestants|] == Contestants;
    succeeded := true;
  }

  // ---------------------------------------------------------------- what the server stores

  function WriteKey(w: ScoreWrite): Server.ScoreKey {
    Server.ScoreKey(w.contestant, w.category, w.judgeName, w.criteria)
  }

  /** The scores table after `POST /api/scores` has accepted the writes in
      the order they were sent. */
  function ApplyWrites(rs: seq<Server.ScoreRow>, ws: seq<ScoreWrite>): seq<Server.ScoreRow>
    decreases |ws|
  {
    if ws == [] then rs
    else
      WritesPassFieldCheck(ws[0]);
      var req := ToRequest(ws[0]);
      ApplyWrites(Server.Upsert(rs, Server.ScoreServer.KeyOf(req), req.score.value), ws[1..])
  }

  /** After writes to distinct keys, each written key holds its score and
      every other key holds what it held before. */
  lemma {:induction false} ApplyWritesLookup(rs: seq<Server.ScoreRow>, ws: seq<ScoreWrite>)
    requires forall i, j :: 0 <= i < j < |ws| ==> WriteKey(ws[i]) != WriteKey(ws[j])
    ensures forall i :: 0 <= i < |ws| ==> Server.Lookup(ApplyWrites(rs, ws), WriteKey(ws[i])) == Some(ws[i].score)
    ensures forall k :: (forall i :: 0 <= i < |ws| ==> WriteKey(ws[i]) != k) ==>
      Server.Lookup(ApplyWrites(rs, ws), k) == Server.Lookup(rs, k)
    decreases |ws|
  {
    if ws != [] {
      WritesPassFieldCheck(ws[0]);
      var rs' := Server.Upsert(rs, WriteKey(ws[0]), ws[0].score);
      var tail := ws[1..];
      ApplyWritesLookup(rs', tail);
      assert ApplyWrites(rs, ws) == ApplyWrites(rs', tail);
      forall i | 0 <= i < |ws|
        ensures Server.Lookup(ApplyWrites(rs, ws), WriteKey(ws[i])) == Some(ws[i].score)
      {
        if i == 0 {
          assert forall j :: 0 <= j < |tail| ==> WriteKey(tail[j]) != WriteKey(ws[0]) by {
            assert forall j :: 0 <= j < |tail| ==> tail[j] == ws[j + 1];
          }
        } else {
          assert ws[i] == tail[i - 1];
        }
      }
      forall k | forall i :: 0 <= i < |ws| ==> WriteKey(ws[i]) != k
        ensures Server.Lookup(ApplyWrites(rs, ws), k) == Server.Lookup(rs, k)
      {
        assert WriteKey(ws[0]) != k;
        assert forall j :: 0 <= j < |tail| ==> WriteKey(tail[j]) != k by {
          assert forall j :: 0 <= j < |tail| ==> tail[j] == ws[j + 1];
        }
      }
    }
  }

  /** A "Submit All Scores" that succeeds leaves every non-blank cell of the
      grid stored under the judge's name with the cell's number, and leaves
      every stored score of a blank cell, of another category or of another
      judge as it was. */
  lemma SubmitStoresGrid(rs: seq<Server.ScoreRow>, g: Grid, cs: seq<Criterion>, cat: int, judge: string)
    requires NamesDistinct(cs)
    ensures var after := ApplyWrites(rs, PlanWrites(g, Contestants, cs, cat, judge));
      && (forall c, k :: c in Contestants && 0 <= k < |cs| && CellAt(g, c, cs[k].name) != Blank ==>
            Server.Lookup(after, Server.ScoreKey(c, cat, judge, cs[k].name)) == Some(CellNumber(CellAt(g, c, cs[k].name))))
      && (forall key: Server.ScoreKey ::
            (key.category != cat || key.judgeName != judge || key.contestant !in Contestants
             || key.criteria !in Names(cs) || CellAt(g, key.contestant, key.criteria) == Blank) ==>
            Server.Lookup(after, key) == Server.Lookup(rs, key))
  {
    var plan := PlanWrites(g, Contestants, cs, cat, judge);
    PlanWritesExact(g, Contestants, cs, cat, judge);
    assert forall i, j :: 0 <= i < j < |Contestants| ==> Contestants[i] != Contestants[j];
    assert forall i, j :: 0 <= i < j < |plan| ==> WriteKey(plan[i]) != WriteKey(plan[j]) by {
      forall i, j | 0 <= i < j < |plan| ensures WriteKey(plan[i]) != WriteKey(plan[j]) {
        assert (plan[i].contestant, plan[i].criteria) != (plan[j].contestant, plan[j].criteria);
      }
    }
    ApplyWritesLookup(rs, plan);
    forall c, k | c in Contestants && 0 <= k < |cs| && CellAt(g, c, cs[k].name) != Blank
      ensures Server.Lookup(ApplyWrites(rs, plan), Server.ScoreKey(c, cat, judge, cs[k].name))
        == Some(CellNumber(CellAt(g, c, cs[k].name)))
    {
      var w := ScoreWrite(c, cat, judge, cs[k].name, CellNumber(CellAt(g, c, cs[k].name)));
      assert w in plan;
      var i := IndexOf(plan, w);
      assert WriteKey(plan[i]) == Server.ScoreKey(c, cat, judge, cs[k].name);
    }
    forall key: Server.ScoreKey | key.category != cat || key.judgeName != judge || key.contestant !in Contestants
        || key.criteria !in Names(cs) || CellAt(g, key.contestant, key.criteria) == Blank
      ensures Server.Lookup(ApplyWrites(rs, plan), key) == Server.Lookup(rs, key)
    {
      forall i | 0 <= i < |plan| ensures WriteKey(plan[i]) != key {
        assert plan[i] in plan;
        if key.criteria !in Names(cs) {
          var k :| 0 <= k < |cs| && cs[k].name == plan[i].criteria;
          assert cs[k] in cs;
        }
      }
    }
  }

  // ---------------------------------------------------------------- totals and ranks

  /** `currentCriteria.reduce((sum, crit) => sum + Number(scores?.[c]?.[crit.name] || 0), 0)`. */
  function Total(g: Grid, c: int, cs: seq<Criterion>): int {
    if cs == [] then 0 else CellNumber(CellAt(g, c, cs[0].name)) + Total(g, c, cs[1..])
  }

  /** A value the cell's dropdown offers: blank, or 0 to the percentage. */
  predicate Offered(cell: Cell, percentage: nat) {
    cell.Blank? || 0 <= cell.value <= percentage
  }

  /** A contestant's total, with every cell chosen from its dropdown, lies
      between 0 and the sum of the percentages. */
  lemma {:induction false} TotalBounded(g: Grid, c: int, cs: seq<Criterion>)
    requires forall k :: 0 <= k < |cs| ==> Offered(CellAt(g, c, cs[k].name), cs[k].percentage)
    ensures 0 <= Total(g, c, cs) <= PercentSum(cs)
  {
    if cs != [] {
      TotalBounded(g, c, cs[1..]);
    }
  }

  /** So a dropdown-chosen total is a percentage: at most 100. */
  lemma TotalAtMost100(g: Grid, c: int, category: int)
    requires var cs := CriteriaFor(category);
      forall k :: 0 <= k < |cs| ==> Offered(CellAt(g, c, cs[k].name), cs[k].percentage)
    ensures 0 <= Total(g, c, CriteriaFor(category)) <= 100
  {
    TotalBounded(g, c, CriteriaFor(category));
    CriteriaTables(category);
  }

  datatype ContestantTotal = ContestantTotal(contestant: int, total: int)

  /** `totals`: one entry per contestant, in contestant order. */
  function Totals(g: Grid, cs: seq<Criterion>): seq<ContestantTotal> {
    MapSeq(Contestants, (c: int) => ContestantTotal(c, Total(g, c, cs)))
  }

  function TotalKey(t: ContestantTotal): real {
    t.total as real
  }

  function ContestantOf(t: ContestantTotal): int {
    t.contestant
  }

  /** `ranked`: the totals sorted by `b.total - a.total`, stably. */
  function Ranked(g: Grid, cs: seq<Criterion>): seq<ContestantTotal> {
    SortDesc(Totals(g, cs), TotalKey)
  }

  /** The contestant ranked before another. */
  predicate RanksAbove(g: Grid, cs: seq<Criterion>, a: int, b: int) {
    Total(g, a, cs) > Total(g, b, cs) || (Total(g, a, cs) == Total(g, b, cs) && a < b)
  }

  /** `r` holds each contestant once, with its own total, larger totals
      first and equal totals in ascending contestant order. */
  predicate IsRanking(g: Grid, cs: seq<Criterion>, r: seq<ContestantTotal>) {
    && ListsContestants(r)
    && DescThenAsc(r, TotalKey, ContestantOf)
    && (forall i :: 0 <= i < 6 ==> r[i].total == Total(g, r[i].contestant, cs))
  }

  /** `r` has six entries, each for a contestant, and every contestant has one. */
  predicate ListsContestants(r: seq<ContestantTotal>) {
    && |r| == 6
    && (forall i :: 0 <= i < 6 ==> r[i].contestant in Contestants)
    && (forall c :: c in Contestants ==> exists i :: 0 <= i < 6 && r[i].contestant == c)
  }

  /** Every entry of `ranked` is a contestant with its own total, and every
      contestant has an entry. */
  lemma RankedEntries(g: Grid, cs: seq<Criterion>)
    ensures var r := Ranked(g, cs);
      && |r| == 6
      && (forall i :: 0 <= i < 6 ==> r[i].contestant in Contestants && r[i].total == Total(g, r[i].contestant, cs))
      && (forall c :: c in Contestants ==> exists i :: 0 <= i < 6 && r[i].contestant == c)
  {
    var t := Totals(g, cs);
    var r := Ranked(g, cs);
    assert multiset(r) == multiset(t);
    forall i | 0 <= i < 6 ensures r[i].contestant in Contestants && r[i].total == Total(g, r[i].contestant, cs) {
      assert r[i] in multiset(t);
    }
    forall c | c in Contestants ensures exists i :: 0 <= i < 6 && r[i].contestant == c {
      var m :| 0 <= m < 6 && Contestants[m] == c;
      assert t[m] in multiset(r);
    }
  }

  /** `ranked` is such a ranking. */
  lemma RankedIsRanking(g: Grid, cs: seq<Criterion>)
    ensures IsRanking(g, cs, Ranked(g, cs))
  {
    RankedEntries(g, cs);
    SortDescTieBreak(Totals(g, cs), TotalKey, ContestantOf);
  }

  /** In a ranking, position decides who ranks above whom. */
  lemma RankingOrder(g: Grid, cs: seq<Criterion>, r: seq<ContestantTotal>, i: nat, j: nat)
    requires IsRanking(g, cs, r) && i < 6 && j < 6
    ensures i < j <==> RanksAbove(g, cs, r[i].contestant, r[j].contestant)
  {
    assert DescThenAsc(r, TotalKey, ContestantOf);
    if j < i {
      assert TotalKey(r[j]) > TotalKey(r[i]) || (TotalKey(r[j]) == TotalKey(r[i]) && ContestantOf(r[j]) < ContestantOf(r[i]));
    } else if i < j {
      assert TotalKey(r[i]) > TotalKey(r[j]) || (TotalKey(r[i]) == TotalKey(r[j]) && ContestantOf(r[i]) < ContestantOf(r[j]));
    }
  }

  /** Reading the ranks off a ranking gives a rank to exactly the six
      contestants. */
  lemma RanksCoverContestants(r: seq<ContestantTotal>, ranks: map<int, nat>)
    requires ListsContestants(r)
    requires forall i :: 0 <= i < |r| ==> ContestantOf(r[i]) in ranks && i < ranks[ContestantOf(r[i])]
    requires forall c :: c in ranks ==> 1 <= ranks[c] <= |r| && ContestantOf(r[ranks[c] - 1]) == c
    ensures forall c :: c in ranks <==> c in Contestants
  {
    forall c | c in Contestants ensures c in ranks {
      var i :| 0 <= i < 6 && r[i].contestant == c;
      assert ContestantOf(r[i]) == c;
    }
  }

  /** ... and each of them a different rank from 1 to 6. */
  lemma RanksDistinct(r: seq<ContestantTotal>, ranks: map<int, nat>)
    requires |r| == 6
    requires forall c :: c in ranks ==> 1 <= ranks[c] <= |r| && ContestantOf(r[ranks[c] - 1]) == c
    ensures forall c :: c in ranks ==> 1 <= ranks[c] <= 6
    ensures forall a, b :: a in ranks && b in ranks && a != b ==> ranks[a] != ranks[b]
  {
    forall a, b | a in ranks && b in ranks && a != b ensures ranks[a] != ranks[b] {
      assert ContestantOf(r[ranks[a] - 1]) == a && ContestantOf(r[ranks[b] - 1]) == b;
    }
  }

  /** Reading the ranks off a ranking: a smaller rank means ranked above. */
  lemma RanksFollowOrder(g: Grid, cs: seq<Criterion>, r: seq<ContestantTotal>, ranks: map<int, nat>)
    requires IsRanking(g, cs, r)
    requires forall c :: c in ranks ==> 1 <= ranks[c] <= |r| && ContestantOf(r[ranks[c] - 1]) == c
    ensures forall a, b :: a in ranks && b in ranks ==> (ranks[a] < ranks[b] <==> RanksAbove(g, cs, a, b))
  {
    forall a, b | a in ranks && b in ranks ensures ranks[a] < ranks[b] <==> RanksAbove(g, cs, a, b) {
      RankingOrder(g, cs, r, ranks[a] - 1, ranks[b] - 1);
    }
  }

  /** `ranks`: each contestant's 1-based place in `ranked`. The ranks are a
      permutation of 1 to 6; a higher total ranks strictly better, and equal
      totals rank in ascending contestant order. */
  method Ranks(g: Grid, cs: seq<Criterion>) returns (ranks: map<int, nat>)
    ensures forall c :: c in ranks <==> c in Contestants
    ensures forall c :: c in ranks ==> 1 <= ranks[c] <= 6
    ensures forall a, b :: a in ranks && b in ranks && a != b ==> ranks[a] != ranks[b]
    ensures forall a, b :: a in ranks && b in ranks ==> (ranks[a] < ranks[b] <==> RanksAbove(g, cs, a, b))
  {
    var r := Ranked(g, cs);
    RankedIsRanking(g, cs);
    ranks := RankMap(r, ContestantOf);
    RanksCoverContestants(r, ranks);
    RanksDistinct(r, ranks);
    RanksFollowOrder(g, cs, r, ranks);
  }

  // ---------------------------------------------------------------- the page

  /** A judge in the page's list: one fetched or created, or the error body
      of a refused `POST /api/judges`, which the page appends all the same. */
  datatype ClientJudge = Listed(id: int, name: string) | ErrorBody(error: string)

  /** What `res.json()` of `POST /api/judges` yields, or a thrown fetch. */
  datatype JudgeReply = Created(judge: Server.Judge) | Refused(error: string) | NetworkError

  /** `judges.some(j => j.name.toLowerCase() === trimmed.toLowerCase())`;
      reaching an entry without a name throws. */
  datatype Scan = Found | NotFound | Throws

  function ScanJudges(js: seq<ClientJudge>, t: string): (r: Scan)
    ensures (forall i :: 0 <= i < |js| ==> js[i].Listed?) ==>
      r != Throws && (r == Found <==> exists i :: 0 <= i < |js| && ToLower(js[i].name) == ToLower(t))
    ensures r == Throws ==> exists i :: 0 <= i < |js| && js[i].ErrorBody?
  {
    if js == [] then NotFound
    else if js[0].ErrorBody? then Throws
    else if ToLower(js[0].name) == ToLower(t) then Found
    else ScanJudges(js[1..], t)
  }

  function ListedOf(j: Server.Judge): ClientJudge {
    Listed(j.id, j.name)
  }

  class ScoringPanel {
    var category: int
    var allJudgeScores: map<int, Grid>
    var judges: seq<ClientJudge>
    var selectedJudge: string
    var newJudgeInput: string

    constructor ()
      ensures category == CATEGORY_FESTIVAL && allJudgeScores == map[] && judges == []
      ensures selectedJudge == "" && newJudgeInput == ""
    {
      category, allJudgeScores, judges := CATEGORY_FESTIVAL, map[], [];
      selectedJudge, newJudgeInput := "", "";
    }

    /** `scores`: the current category's grid, or an empty one. */
    function Scores(): Grid
      reads this
    {
      if category in allJudgeScores then allJudgeScores[category] else map[]
    }

    /** The list `GET /api/judges` returned on mount. */
    method LoadJudges(fetched: seq<Server.Judge>)
      modifies this
      ensures judges == MapSeq(fetched, ListedOf)
      ensures category == old(category) && allJudgeScores == old(allJudgeScores)
      ensures selectedJudge == old(selectedJudge) && newJudgeInput == old(newJudgeInput)
    {
      judges := MapSeq(fetched, ListedOf);
    }

    /** The judge selector. */
    method SelectJudge(name: string)
      modifies this
      ensures selectedJudge == name
      ensures category == old(category) && allJudgeScores == old(allJudgeScores)
      ensures judges == old(judges) && newJudgeInput == old(newJudgeInput)
    {
      selectedJudge := name;
    }

    /** The "Add new judge" text box. */
    method TypeNewJudge(text: string)
      modifies this
      ensures newJudgeInput == text
      ensures category == old(category) && allJudgeScores == old(allJudgeScores)
      ensures judges == old(judges) && selectedJudge == old(selectedJudge)
    {
      newJudgeInput := text;
    }

    /** The "Switch to ..." button. */
    method SwitchCategory()
      modifies this
      ensures category == if old(category) == CATEGORY_FESTIVAL then CATEGORY_STREET else CATEGORY_FESTIVAL
      ensures allJudgeScores == old(allJudgeScores) && judges == old(judges)
      ensures selectedJudge == old(selectedJudge) && newJudgeInput == old(newJudgeInput)
    {
      category := if category == CATEGORY_FESTIVAL then CATEGORY_STREET else CATEGORY_FESTIVAL;
    }

    /** `fetchScoresForCategory`: the category's grid is reset, then, if the
        fetch of `GET /api/scores?category=...` succeeds, replaced by the
        fetched scores merged in for the selected judge. */
    method LoadCategory(fetched: Option<map<int, Server.Group>>)
      modifies this
      ensures var init := InitialGrid(CriteriaFor(category));
        allJudgeScores == old(allJudgeScores)[category :=
          if fetched.None? then init else MergedGrid(init, fetched.value, selectedJudge)]
      ensures category == old(category) && judges == old(judges)
      ensures selectedJudge == old(selectedJudge) && newJudgeInput == old(newJudgeInput)
    {
      var init := InitGrid(CriteriaFor(category));
      allJudgeScores := allJudgeScores[category := init];
      if fetched.Some? {
        var merged := MergeFetched(init, fetched.value, selectedJudge);
        allJudgeScores := allJudgeScores[category := merged];
      }
    }

    /** `handleChange`: without a selected judge nothing happens; otherwise
        the one cell is set and its write is sent, a blank as 0. */
    method HandleChange(contestantNo: int, criteria: string, value: Cell) returns (sent: Option<ScoreWrite>)
      modifies this
      ensures old(selectedJudge) == "" ==> sent == None && unchanged(this)
      ensures old(selectedJudge) != "" ==>
        && allJudgeScores == old(allJudgeScores)[category := SetCell(old(Scores()), contestantNo, criteria, value)]
        && sent == Some(ScoreWrite(contestantNo, category, selectedJudge, criteria, CellNumber(value)))
      ensures category == old(category) && judges == old(judges)
      ensures selectedJudge == old(selectedJudge) && newJudgeInput == old(newJudgeInput)
    {
      if selectedJudge == "" {
        return None;
      }
      allJudgeScores := allJudgeScores[category := SetCell(Scores(), contestantNo, criteria, value)];
      sent := Some(ScoreWrite(contestantNo, category, selectedJudge, criteria, CellNumber(value)));
    }

    /** `handleAddJudge`: a blank name, a case-insensitive duplicate, or a
        list entry without a name stops it before any request; otherwise the
        trimmed name is posted and whatever comes back is appended and
        selected. `sent` is the name in the request body. */
    method HandleAddJudge(reply: JudgeReply) returns (sent: Option<string>)
      modifies this
      ensures var t := Trim(old(newJudgeInput));
        sent == if t != [] && ScanJudges(old(judges), t) == NotFound then Some(t) else None
      ensures sent.None? || reply.NetworkError? ==> unchanged(this)
      ensures sent.Some? && reply.Created? ==>
        && judges == old(judges) + [ListedOf(reply.judge)]
        && selectedJudge == reply.judge.name && newJudgeInput == ""
      ensures sent.Some? && reply.Refused? ==>
        && judges == old(judges) + [ErrorBody(reply.error)]
        && selectedJudge == "" && newJudgeInput == ""
      ensures category == old(category) && allJudgeScores == old(allJudgeScores)
    {
      var t := Trim(newJudgeInput);
      if t == [] || ScanJudges(judges, t) != NotFound {
        return None;
      }
      sent := Some(t);
      match reply
      case Created(j) =>
        judges := judges + [ListedOf(j)];
        selectedJudge := j.name;
        newJudgeInput := "";
      case Refused(e) =>
        judges := judges + [ErrorBody(e)];
        selectedJudge := "";
        newJudgeInput := "";
      case NetworkError =>
    }

    /** `handleSubmitScores`: one write per non-blank cell of the current
        category, contestant by contestant, criterion by criterion; none
        without a selected judge. When write number `k` (`failAt`) throws,
        the writes after it are not sent and no success is reported. */
    method HandleSubmitScores(failAt: Option<nat>) returns (sent: seq<ScoreWrite>, succeeded: bool)
      ensures selectedJudge == "" ==> sent == [] && !succeeded
      ensures selectedJudge != "" ==>
        var plan := PlanWrites(Scores(), Contestants, CriteriaFor(category), category, selectedJudge);
        sent == Attempted(plan, failAt) && succeeded == (failAt.None? || failAt.value >= |plan|)
    {
      if selectedJudge == "" {
        return [], false;
      }
      sent, succeeded := SendPlan(Scores(), CriteriaFor(category), category, selectedJudge, failAt);
    }
  }
}
