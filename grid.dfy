/** The judge page's data: the fixed criteria tables and the grid of cells
    each category keeps (contestant -> criterion -> cell), how it starts,
    how fetched scores are merged into it and how one cell is set. */
module ScoreGrid {
  import opened Common
  import Server

  const CATEGORY_FESTIVAL: int := 0
  const CATEGORY_STREET: int := 1
  const Contestants: seq<int> := [1, 2, 3, 4, 5, 6]

  // ---------------------------------------------------------------- criteria

  /** A criterion: its name and the number before the `%` of its percentage. */
  datatype Criterion = Criterion(name: string, percentage: nat)

  const FestivalCriteria: seq<Criterion> := [
    Criterion("Performance Quality", 25),
    Criterion("Choreography", 20),
    Criterion("Theme Interpretation", 20),
    Criterion("Costume & Props", 15),
    Criterion("Musicality", 10),
    Criterion("Overall Impact", 10)
  ]

  const StreetCriteria: seq<Criterion> := [
    Criterion("Theme/Concept", 35),
    Criterion("Choreography", 30),
    Criterion("Performance", 25),
    Criterion("Props and Costume", 10)
  ]

  /** `currentCriteria`: the street table for category 1, the festival table otherwise. */
  function CriteriaFor(category: int): seq<Criterion> {
    if category == CATEGORY_STREET then StreetCriteria else FestivalCriteria
  }

  function PercentSum(cs: seq<Criterion>): nat {
    if cs == [] then 0 else cs[0].percentage + PercentSum(cs[1..])
  }

  predicate NamesDistinct(cs: seq<Criterion>) {
    forall i, j :: 0 <= i < j < |cs| ==> cs[i].name != cs[j].name
  }

  /** Both tables weigh their criteria to 100% and name each criterion once. */
  lemma CriteriaTables(category: int)
    ensures PercentSum(CriteriaFor(category)) == 100
    ensures NamesDistinct(CriteriaFor(category))
  {
  }

  function Names(cs: seq<Criterion>): set<string> {
    set k | k in cs :: k.name
  }

  // ---------------------------------------------------------------- the grid

  /** A cell's text: `""`, or the decimal text of a whole number. */
  datatype Cell = Blank | Mark(value: int)

  type Row = map<string, Cell>
  type Grid = map<int, Row>

  /** `Number(cell || 0)`: a blank cell counts 0. */
  function CellNumber(c: Cell): int {
    if c.Blank? then 0 else c.value
  }

  /** `scores?.[c]?.[name] || ""`. */
  function CellAt(g: Grid, c: int, name: string): Cell {
    if c in g && name in g[c] then g[c][name] else Blank
  }

  function RowOr(g: Grid, c: int): Row {
    if c in g then g[c] else map[]
  }

  /** A contestant's row before any score: every criterion blank. */
  function BlankRow(cs: seq<Criterion>): Row {
    if cs == [] then map[] else BlankRow(cs[..|cs| - 1])[cs[|cs| - 1].name := Blank]
  }

  /** Gives each of `cids` the row `row`. */
  function RowsFor(cids: seq<int>, row: Row): Grid {
    if cids == [] then map[] else RowsFor(cids[..|cids| - 1], row)[cids[|cids| - 1] := row]
  }

  /** The grid a category starts from: each contestant, each criterion, blank. */
  function InitialGrid(cs: seq<Criterion>): Grid {
    RowsFor(Contestants, BlankRow(cs))
  }

  lemma {:induction false} BlankRowShape(cs: seq<Criterion>)
    ensures BlankRow(cs).Keys == Names(cs)
    ensures forall n :: n in BlankRow(cs) ==> BlankRow(cs)[n] == Blank
  {
    if cs != [] {
      BlankRowShape(cs[..|cs| - 1]);
      assert cs == cs[..|cs| - 1] + [cs[|cs| - 1]];
      assert Names(cs) == Names(cs[..|cs| - 1]) + {cs[|cs| - 1].name};
    }
  }

  lemma {:induction false} RowsForShape(cids: seq<int>, row: Row)
    ensures forall c :: c in RowsFor(cids, row) <==> c in cids
    ensures forall c :: c in RowsFor(cids, row) ==> RowsFor(cids, row)[c] == row
  {
    if cids != [] {
      RowsForShape(cids[..|cids| - 1], row);
      assert cids == cids[..|cids| - 1] + [cids[|cids| - 1]];
    }
  }

  /** After initialisation the grid has exactly contestants 1 to 6, each
      with exactly the category's criterion names, and every cell blank. */
  lemma InitialGridShape(category: int)
    ensures var g := InitialGrid(CriteriaFor(category));
      && g.Keys == {1, 2, 3, 4, 5, 6}
      && (forall c :: c in g ==> g[c].Keys == Names(CriteriaFor(category)))
      && (forall c, n :: c in g && n in g[c] ==> g[c][n] == Blank)
  {
    BlankRowShape(CriteriaFor(category));
    RowsForShape(Contestants, BlankRow(CriteriaFor(category)));
    var g := InitialGrid(CriteriaFor(category));
    forall c ensures c in g.Keys <==> c in {1, 2, 3, 4, 5, 6} {
      assert c in Contestants <==> c in {1, 2, 3, 4, 5, 6};
    }
  }

  /** The nested `forEach` that fills `initialScoresForCategory`. */
  method InitGrid(cs: seq<Criterion>) returns (g: Grid)
    ensures g == InitialGrid(cs)
  {
    g := map[];
    for i := 0 to |Contestants|
      invariant g == RowsFor(Contestants[..i], BlankRow(cs))
    {
      var row: Row := map[];
      for j := 0 to |cs|
        invariant row == BlankRow(cs[..j])
      {
        assert cs[..j + 1][..j] == cs[..j];
        row := row[cs[j].name := Blank];
      }
      assert cs[..|cs|] == cs;
      assert Contestants[..i + 1][..i] == Contestants[..i];
      g := g[Contestants[i] := row];
    }
    assert Contestants[..|Contestants|] == Contestants;
  }

  /** `!selectedJudge || s.judgeName === selectedJudge`. */
  predicate Matches(e: Server.Entry, judge: string) {
    judge == "" || e.judgeName == judge
  }

  predicate Hits(e: Server.Entry, judge: string, n: string) {
    Matches(e, judge) && e.criteria == n
  }

  /** One step of the merge: a matching entry overwrites its cell. */
  function ApplyEntry(row: Row, e: Server.Entry, judge: string): Row {
    if Matches(e, judge) then row[e.criteria := Mark(e.score)] else row
  }

  /** The `forEach` over one contestant's fetched entries, in list order. */
  function MergeEntries(row: Row, es: seq<Server.Entry>, judge: string): Row {
    if es == [] then row else ApplyEntry(MergeEntries(row, es[..|es| - 1], judge), es[|es| - 1], judge)
  }

  /** The position of the last entry that names `n` and matches the judge, or -1. */
  function LastHit(es: seq<Server.Entry>, judge: string, n: string): (k: int)
    ensures -1 <= k < |es|
    ensures k >= 0 ==> Hits(es[k], judge, n)
    ensures forall j :: k < j < |es| ==> !Hits(es[j], judge, n)
  {
    if es == [] then -1
    else if Hits(es[|es| - 1], judge, n) then |es| - 1
    else LastHit(es[..|es| - 1], judge, n)
  }

  /** A cell after the merge holds the score of the LAST entry for it that
      matches the judge; a cell no matching entry names keeps its value. */
  lemma {:induction false} MergeEntriesCell(row: Row, es: seq<Server.Entry>, judge: string, n: string)
    ensures var r := MergeEntries(row, es, judge); var k := LastHit(es, judge, n);
      && (k >= 0 ==> n in r && r[n] == Mark(es[k].score))
      && (k < 0 ==> (n in r <==> n in row) && (n in row ==> r[n] == row[n]))
  {
    if es != [] {
      MergeEntriesCell(row, es[..|es| - 1], judge, n);
    }
  }

  /** The grid after merging the fetched `{ contestant: { scores } }` object:
      fetched contestants get their merged row (a fresh one when unknown),
      every other row is kept. */
  function MergedGrid(init: Grid, data: map<int, Server.Group>, judge: string): Grid {
    map id | id in init.Keys + data.Keys ::
      if id in data then MergeEntries(RowOr(init, id), data[id].scores, judge) else init[id]
  }

  /** The inner `forEach` for one contestant's entries. */
  method MergeRow(row: Row, es: seq<Server.Entry>, judge: string) returns (r: Row)
    ensures r == MergeEntries(row, es, judge)
  {
    r := row;
    for k := 0 to |es|
      invariant r == MergeEntries(row, es[..k], judge)
    {
      assert es[..k + 1][..k] == es[..k];
      r := ApplyEntry(r, es[k], judge);
    }
    assert es[..|es|] == es;
  }

  /** The merged grid holds the initial contestants and the fetched ones;
      a fetched contestant's row is its merged row, any other row is kept. */
  lemma MergedGridAt(init: Grid, data: map<int, Server.Group>, judge: string)
    ensures MergedGrid(init, data, judge).Keys == init.Keys + data.Keys
    ensures forall id :: id in data ==>
      MergedGrid(init, data, judge)[id] == MergeEntries(RowOr(init, id), data[id].scores, judge)
    ensures forall id :: id in init && id !in data ==> MergedGrid(init, data, judge)[id] == init[id]
  {
  }

  lemma MergedGridEq(g: Grid, init: Grid, data: map<int, Server.Group>, judge: string)
    requires forall id :: id in g <==> id in init || id in data
    requires forall id :: id in data ==> g[id] == MergeEntries(RowOr(init, id), data[id].scores, judge)
    requires forall id :: id in init && id !in data ==> g[id] == init[id]
    ensures g == MergedGrid(init, data, judge)
  {
    var m := MergedGrid(init, data, judge);
    MergedGridAt(init, data, judge);
    forall id ensures id in g.Keys <==> id in m.Keys {
    }
    forall id | id in g ensures g[id] == m[id] {
    }
  }

  /** The `for ... in data` loop that fills `transformedScores`. */
  method MergeFetched(init: Grid, data: map<int, Server.Group>, judge: string) returns (g: Grid)
    ensures g == MergedGrid(init, data, judge)
  {
    g := init;
    var todo := data.Keys;
    while todo != {}
      invariant todo <= data.Keys
      invariant forall id :: id in g <==> id in init || (id in data && id !in todo)
      invariant forall id :: id in g && (id !in data || id in todo) ==> g[id] == init[id]
      invariant forall id :: id in data && id !in todo ==> g[id] == MergeEntries(RowOr(init, id), data[id].scores, judge)
      decreases |todo|
    {
      var c := Pick(todo);
      assert RowOr(g, c) == RowOr(init, c);
      var row := MergeRow(RowOr(g, c), data[c].scores, judge);
      g := g[c := row];
      todo := todo - {c};
    }
    MergedGridEq(g, init, data, judge);
  }

  /** Sets one cell: `{ ...prev[category], [c]: { ...prev[category]?.[c], [name]: value } }`. */
  function SetCell(g: Grid, c: int, name: string, v: Cell): (r: Grid)
    ensures CellAt(r, c, name) == v
    ensures r.Keys == g.Keys + {c} && r[c].Keys == RowOr(g, c).Keys + {name}
    ensures forall c' :: c' in g && c' != c ==> r[c'] == g[c']
    ensures forall n :: n in RowOr(g, c) && n != name ==> r[c][n] == g[c][n]
  {
    g[c := RowOr(g, c)[name := v]]
  }
}
