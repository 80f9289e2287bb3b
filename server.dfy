/** The Express server: the `judges` and `scores` tables and the routes
    that read and write them. A route is a method of `ScoreServer`; a SQL
    read is a function of the tables. The scores table is a list of rows
    whose four-part keys are unique (the table's unique key); the order of
    its rows carries no meaning. */
module Server {
  import opened Common
  import opened Text
  import opened Sorting

  datatype Judge = Judge(id: nat, name: string)

  /** The unique key of the scores table. */
  datatype ScoreKey = ScoreKey(contestant: int, category: int, judgeName: string, criteria: string)

  datatype ScoreRow = ScoreRow(key: ScoreKey, score: int)

  /** The body of `POST /api/scores`; `None` is a field left `undefined`. */
  datatype ScoreRequest = ScoreRequest(
    contestant: Option<int>, category: Option<int>, judgeName: Option<string>,
    criteria: Option<string>, score: Option<int>)

  /** A route's answer: its JSON body, or status 400 with `{ error }`. */
  datatype Reply<T> = Ok(body: T) | BadRequest(error: string)

  /** One element of a contestant's `scores` list in `GET /api/scores`. */
  datatype Entry = Entry(criteria: string, score: int, judgeName: string)

  /** `{ total, scores }` for one contestant in `GET /api/scores`. */
  datatype Group = Group(total: int, scores: seq<Entry>)

  /** One row of `GET /api/raw-scores`. */
  datatype RawTotal = RawTotal(contestantId: int, judgeName: string, streetTotal: int, festivalTotal: int)

  // ---------------------------------------------------------------- scores table

  predicate KeysUnique(rs: seq<ScoreRow>) {
    forall i, j :: 0 <= i < j < |rs| ==> rs[i].key != rs[j].key
  }

  /** The score stored under `k`, if any. */
  function Lookup(rs: seq<ScoreRow>, k: ScoreKey): (v: Option<int>)
    ensures v.None? <==> forall i :: 0 <= i < |rs| ==> rs[i].key != k
    ensures v.Some? ==> ScoreRow(k, v.value) in rs
  {
    if rs == [] then None
    else if rs[0].key == k then Some(rs[0].score)
    else Lookup(rs[1..], k)
  }

  /** The number of rows whose key is `k`. */
  function CountKey(rs: seq<ScoreRow>, k: ScoreKey): (n: nat)
    ensures n == 0 <==> forall i :: 0 <= i < |rs| ==> rs[i].key != k
  {
    if rs == [] then 0 else (if rs[0].key == k then 1 else 0) + CountKey(rs[1..], k)
  }

  /** `INSERT ... ON DUPLICATE KEY UPDATE score = VALUES(score)`. */
  function Upsert(rs: seq<ScoreRow>, k: ScoreKey, v: int): (r: seq<ScoreRow>)
    ensures Lookup(r, k) == Some(v)
    ensures forall k' :: k' != k ==> Lookup(r, k') == Lookup(rs, k')
    ensures forall i :: 0 <= i < |r| ==> r[i].key == k || r[i] in rs
  {
    if rs == [] then [ScoreRow(k, v)]
    else if rs[0].key == k then [ScoreRow(k, v)] + rs[1..]
    else [rs[0]] + Upsert(rs[1..], k, v)
  }

  /** The write keeps the key unique: the table then holds exactly one row for `k`. */
  lemma {:induction false} UpsertKeysUnique(rs: seq<ScoreRow>, k: ScoreKey, v: int)
    requires KeysUnique(rs)
    ensures KeysUnique(Upsert(rs, k, v)) && CountKey(Upsert(rs, k, v), k) == 1
  {
    if rs != [] && rs[0].key != k {
      UpsertKeysUnique(rs[1..], k, v);
      var t := Upsert(rs[1..], k, v);
      forall i | 0 <= i < |t| ensures t[i].key != rs[0].key {
        if t[i].key != k {
          assert t[i] in rs[1..];
        }
      }
    }
  }

  /** Of two writes to one key, the later wins. */
  lemma {:induction false} UpsertLastWins(rs: seq<ScoreRow>, k: ScoreKey, v1: int, v2: int)
    ensures Upsert(Upsert(rs, k, v1), k, v2) == Upsert(rs, k, v2)
  {
    if rs != [] && rs[0].key != k {
      UpsertLastWins(rs[1..], k, v1, v2);
    }
  }

  /** Repeating a write changes nothing. */
  lemma UpsertIdempotent(rs: seq<ScoreRow>, k: ScoreKey, v: int)
    ensures Upsert(Upsert(rs, k, v), k, v) == Upsert(rs, k, v)
  {
    UpsertLastWins(rs, k, v, v);
  }

  // ---------------------------------------------------------------- judges table

  ghost predicate NamesUnique(js: seq<Judge>) {
    forall i, j :: 0 <= i < j < |js| ==> js[i].name != js[j].name
  }

  function CountName(js: seq<Judge>, n: string): nat {
    if js == [] then 0 else (if js[0].name == n then 1 else 0) + CountName(js[1..], n)
  }

  lemma {:induction false} UniqueNameCount(js: seq<Judge>, i: nat)
    requires NamesUnique(js) && i < |js|
    ensures CountName(js, js[i].name) == 1
  {
    if i == 0 {
      NameAbsent(js[1..], js[0].name);
    } else {
      UniqueNameCount(js[1..], i - 1);
    }
  }

  lemma {:induction false} NameAbsent(js: seq<Judge>, n: string)
    requires forall i :: 0 <= i < |js| ==> js[i].name != n
    ensures CountName(js, n) == 0
  {
    if js != [] {
      NameAbsent(js[1..], n);
    }
  }

  /** `ORDER BY name`. */
  predicate NameLe(a: Judge, b: Judge) {
    StrLe(a.name, b.name)
  }

  lemma NameOrderIsTotal()
    ensures Total(NameLe) && Transitive(NameLe)
  {
    forall a: Judge, b: Judge ensures NameLe(a, b) || NameLe(b, a) {
      StrLeTotal(a.name, b.name);
    }
    forall a: Judge, b: Judge, c: Judge | NameLe(a, b) && NameLe(b, c) ensures NameLe(a, c) {
      StrLeTransitive(a.name, b.name, c.name);
    }
  }

  // ---------------------------------------------------------------- SQL reads

  function PairOf(r: ScoreRow): (int, string) {
    (r.key.contestant, r.key.judgeName)
  }

  /** `ORDER BY contestant_id, judgeName`. */
  predicate PairLe(a: (int, string), b: (int, string)) {
    a.0 < b.0 || (a.0 == b.0 && StrLe(a.1, b.1))
  }

  predicate RowLe(a: ScoreRow, b: ScoreRow) {
    PairLe(PairOf(a), PairOf(b))
  }

  lemma PairOrderIsTotal()
    ensures Total(PairLe) && Transitive(PairLe) && Antisymmetric(PairLe)
    ensures Total(RowLe) && Transitive(RowLe)
  {
    forall a: (int, string), b: (int, string) ensures PairLe(a, b) || PairLe(b, a) {
      StrLeTotal(a.1, b.1);
    }
    forall a: (int, string), b: (int, string), c: (int, string) | PairLe(a, b) && PairLe(b, c)
      ensures PairLe(a, c)
    {
      if a.0 == b.0 == c.0 {
        StrLeTransitive(a.1, b.1, c.1);
      }
    }
    forall a: (int, string), b: (int, string) | PairLe(a, b) && PairLe(b, a) ensures a == b {
      StrLeAntisymmetric(a.1, b.1);
    }
  }

  /** `WHERE category = c`. */
  function CategoryRows(rs: seq<ScoreRow>, c: int): seq<ScoreRow> {
    Filter(rs, (r: ScoreRow) => r.key.category == c)
  }

  /** The rows of one contestant. */
  function ContestantRows(rs: seq<ScoreRow>, id: int): seq<ScoreRow> {
    Filter(rs, (r: ScoreRow) => r.key.contestant == id)
  }

  lemma ContestantRowsSnoc(rs: seq<ScoreRow>, r: ScoreRow, id: int)
    ensures ContestantRows(rs + [r], id) == ContestantRows(rs, id) + (if r.key.contestant == id then [r] else [])
  {
    FilterAppend(rs, [r], (x: ScoreRow) => x.key.contestant == id);
  }

  function EntryOf(r: ScoreRow): Entry {
    Entry(r.key.criteria, r.score, r.key.judgeName)
  }

  function SumScores(es: seq<Entry>): int {
    if es == [] then 0 else SumScores(es[..|es| - 1]) + es[|es| - 1].score
  }

  /** Entries whose judge names never decrease. */
  predicate JudgeOrdered(es: seq<Entry>) {
    forall i, j :: 0 <= i < j < |es| ==> StrLe(es[i].judgeName, es[j].judgeName)
  }

  /** `SUM(CASE WHEN category = cat THEN score ELSE 0 END)` over the rows of
      the pair (contestant, judgeName). */
  function CategorySum(rs: seq<ScoreRow>, contestant: int, judgeName: string, cat: int): int {
    if rs == [] then 0
    else
      var k := rs[0].key;
      (if k.contestant == contestant && k.judgeName == judgeName && k.category == cat then rs[0].score else 0)
      + CategorySum(rs[1..], contestant, judgeName, cat)
  }

  /** A write moves the sum of its own (contestant, judge, category) by the
      change of score, and no other sum. */
  lemma {:induction false} CategorySumAfterUpsert(rs: seq<ScoreRow>, k: ScoreKey, v: int, contestant: int, judgeName: string, cat: int)
    requires KeysUnique(rs)
    ensures var old_ := Lookup(rs, k).GetOr(0);
      CategorySum(Upsert(rs, k, v), contestant, judgeName, cat) ==
        if k.contestant == contestant && k.judgeName == judgeName && k.category == cat
        then CategorySum(rs, contestant, judgeName, cat) - old_ + v
        else CategorySum(rs, contestant, judgeName, cat)
  {
    if rs != [] {
      if rs[0].key == k {
        assert Lookup(rs, k) == Some(rs[0].score);
      } else {
        CategorySumAfterUpsert(rs[1..], k, v, contestant, judgeName, cat);
      }
    }
  }

  /** What `Grouped` says about one contestant `c`. */
  ghost predicate GroupedAt(rs: seq<ScoreRow>, out: map<int, Group>, c: int) {
    && (c in out <==> ContestantRows(rs, c) != [])
    && (c in out ==>
      out[c].scores == MapSeq(ContestantRows(rs, c), EntryOf) && out[c].total == SumScores(out[c].scores))
  }

  /** The group a contestant's list becomes once row `r` is pushed onto it. */
  function Pushed(out: map<int, Group>, r: ScoreRow): map<int, Group> {
    var id := r.key.contestant;
    var g := if id in out then out[id] else Group(0, []);
    out[id := Group(g.total + r.score, g.scores + [EntryOf(r)])]
  }

  /** Pushing one more row's entry onto its contestant's list keeps the
      grouping exact for every contestant `c`. */
  lemma GroupStepAt(rs: seq<ScoreRow>, r: ScoreRow, out: map<int, Group>, c: int)
    requires GroupedAt(rs, out, c)
    ensures GroupedAt(rs + [r], Pushed(out, r), c)
  {
    ContestantRowsSnoc(rs, r, c);
    if c == r.key.contestant {
      GroupStepOwn(rs, r, out);
    } else {
      assert ContestantRows(rs + [r], c) == ContestantRows(rs, c);
    }
  }

  /** The pushed row's own contestant: one more entry, and the total moves by its score. */
  lemma GroupStepOwn(rs: seq<ScoreRow>, r: ScoreRow, out: map<int, Group>)
    requires GroupedAt(rs, out, r.key.contestant)
    ensures GroupedAt(rs + [r], Pushed(out, r), r.key.contestant)
  {
    var c := r.key.contestant;
    ContestantRowsSnoc(rs, r, c);
    var g := if c in out then out[c] else Group(0, []);
    assert g.scores == MapSeq(ContestantRows(rs, c), EntryOf);
    var es := g.scores + [EntryOf(r)];
    assert es[..|es| - 1] == g.scores;
    assert SumScores(es) == g.total + r.score;
    MapAppend(ContestantRows(rs, c), [r], EntryOf);
    assert es == MapSeq(ContestantRows(rs + [r], c), EntryOf);
  }

  /** `out` holds, for each contestant with rows in `rs`, its entries in row
      order and their sum, and nothing for anyone else. */
  ghost predicate Grouped(rs: seq<ScoreRow>, out: map<int, Group>) {
    forall c :: GroupedAt(rs, out, c)
  }

  lemma GroupStep(rs: seq<ScoreRow>, r: ScoreRow, out: map<int, Group>)
    requires Grouped(rs, out)
    ensures Grouped(rs + [r], Pushed(out, r))
  {
    forall c ensures GroupedAt(rs + [r], Pushed(out, r), c) {
      GroupStepAt(rs, r, out, c);
    }
  }

  /** The grouping loop of `GET /api/scores`: each row's entry is pushed onto
      its contestant's list and its score added to that contestant's total. */
  method GroupByContestant(rs: seq<ScoreRow>) returns (out: map<int, Group>)
    ensures forall id :: id in out <==> ContestantRows(rs, id) != []
    ensures forall id :: id in out ==>
      out[id].scores == MapSeq(ContestantRows(rs, id), EntryOf) && out[id].total == SumScores(out[id].scores)
  {
    out := map[];
    var i := 0;
    while i < |rs|
      invariant 0 <= i <= |rs|
      invariant Grouped(rs[..i], out)
    {
      var r := rs[i];
      var id := r.key.contestant;
      var g := if id in out then out[id] else Group(0, []);
      GroupStep(rs[..i], r, out);
      assert rs[..i + 1] == rs[..i] + [r];
      ghost var before := out;
      out := out[id := Group(g.total + r.score, g.scores + [EntryOf(r)])];
      assert out == Pushed(before, r);
      i := i + 1;
    }
    assert rs[..i] == rs;
    forall id ensures (id in out <==> ContestantRows(rs, id) != [])
      && (id in out ==> out[id].scores == MapSeq(ContestantRows(rs, id), EntryOf) && out[id].total == SumScores(out[id].scores))
    {
      assert GroupedAt(rs, out, id);
    }
  }

  // ---------------------------------------------------------------- the server

  class ScoreServer {
    var judges: seq<Judge>
    var nextId: nat
    var rows: seq<ScoreRow>

    /** The tables' constraints: unique judge names, increasing
        auto-increment ids, unique score keys. */
    ghost predicate Valid()
      reads this
    {
      && NamesUnique(judges)
      && (forall i :: 0 <= i < |judges| ==> judges[i].id < nextId)
      && (forall i, j :: 0 <= i < j < |judges| ==> judges[i].id < judges[j].id)
      && KeysUnique(rows)
    }

    constructor ()
      ensures Valid() && judges == [] && rows == [] && nextId == 1
    {
      judges, rows, nextId := [], [], 1;
    }

    /** `GET /api/judges`: `SELECT id, name FROM judges ORDER BY name`. */
    function ListJudges(): (r: seq<Judge>)
      reads this
      ensures multiset(r) == multiset(judges) && |r| == |judges|
      ensures forall i, j :: 0 <= i < j < |r| ==> StrLe(r[i].name, r[j].name)
    {
      var r := InsertionSort(judges, NameLe);
      assert |r| == |multiset(r)| == |judges|;
      NameOrderIsTotal();
      SortSorted(judges, NameLe);
      r
    }

    /** `POST /api/judges`. */
    method CreateJudge(name: Option<string>) returns (reply: Reply<Judge>)
      requires Valid()
      modifies this
      ensures Valid()
      ensures name.None? || Trim(name.value) == [] ==>
        reply == BadRequest("Name required") && unchanged(this)
      ensures name.Some? && Trim(name.value) != [] && (exists i :: 0 <= i < |old(judges)| && old(judges)[i].name == Trim(name.value)) ==>
        reply == BadRequest("Judge exists") && unchanged(this)
      ensures name.Some? && Trim(name.value) != [] && (forall i :: 0 <= i < |old(judges)| ==> old(judges)[i].name != Trim(name.value)) ==>
        && reply == Ok(Judge(old(nextId), Trim(name.value)))
        && judges == old(judges) + [reply.body] && nextId == old(nextId) + 1 && rows == old(rows)
      ensures reply.Ok? ==> CountName(judges, reply.body.name) == 1
    {
      if name.None? || Trim(name.value) == [] {
        return BadRequest("Name required");
      }
      var t := Trim(name.value);
      if exists i :: 0 <= i < |judges| && judges[i].name == t {
        return BadRequest("Judge exists");
      }
      var j := Judge(nextId, t);
      judges := judges + [j];
      nextId := nextId + 1;
      reply := Ok(j);
      UniqueNameCount(judges, |judges| - 1);
    }

    /** The field check of `POST /api/scores`. */
    static predicate MissingField(req: ScoreRequest) {
      req.contestant.None? || req.category.None? || req.judgeName.None? || req.criteria.None? || req.score.None?
    }

    static function KeyOf(req: ScoreRequest): ScoreKey
      requires !MissingField(req)
    {
      ScoreKey(req.contestant.value, req.category.value, req.judgeName.value, req.criteria.value)
    }

    /** `POST /api/scores`: the field check, then the upsert. */
    method PostScore(req: ScoreRequest) returns (reply: Reply<bool>)
      requires Valid()
      modifies this
      ensures Valid() && judges == old(judges) && nextId == old(nextId)
      ensures MissingField(req) ==> reply == BadRequest("Missing fields") && rows == old(rows)
      ensures !MissingField(req) ==>
        && reply == Ok(true)
        && rows == Upsert(old(rows), KeyOf(req), req.score.value)
        && Lookup(rows, KeyOf(req)) == Some(req.score.value)
        && CountKey(rows, KeyOf(req)) == 1
        && forall k :: k != KeyOf(req) ==> Lookup(rows, k) == Lookup(old(rows), k)
    {
      if MissingField(req) {
        return BadRequest("Missing fields");
      }
      UpsertKeysUnique(rows, KeyOf(req), req.score.value);
      rows := Upsert(rows, KeyOf(req), req.score.value);
      reply := Ok(true);
    }

    /** `SELECT ... FROM scores WHERE category = c ORDER BY contestant_id, judgeName`. */
    function QueryCategory(c: int): (r: seq<ScoreRow>)
      reads this
      ensures multiset(r) == multiset(CategoryRows(rows, c))
      ensures Sorted(r, RowLe)
    {
      PairOrderIsTotal();
      SortSorted(CategoryRows(rows, c), RowLe);
      InsertionSort(CategoryRows(rows, c), RowLe)
    }

    /** `GET /api/scores?category=c`: the category's rows grouped by
        contestant. A group exists exactly for the contestants that have
        rows in the category; its entries are exactly those rows, in
        judge-name order, and its total is their sum. */
    method GetScores(category: Option<int>) returns (out: map<int, Group>)
      ensures forall id :: id in out <==> ContestantRows(CategoryRows(rows, category.GetOr(0)), id) != []
      ensures forall id :: id in out ==>
        && multiset(out[id].scores) == multiset(MapSeq(ContestantRows(CategoryRows(rows, category.GetOr(0)), id), EntryOf))
        && out[id].total == SumScores(out[id].scores)
        && JudgeOrdered(out[id].scores)
    {
      var c := category.GetOr(0);
      var q := QueryCategory(c);
      out := GroupByContestant(q);
      forall id
        ensures multiset(ContestantRows(q, id)) == multiset(ContestantRows(CategoryRows(rows, c), id))
        ensures multiset(MapSeq(ContestantRows(q, id), EntryOf)) == multiset(MapSeq(ContestantRows(CategoryRows(rows, c), id), EntryOf))
        ensures JudgeOrdered(MapSeq(ContestantRows(q, id), EntryOf))
      {
        var p := (r: ScoreRow) => r.key.contestant == id;
        FilterPerm(q, CategoryRows(rows, c), p);
        MapPerm(ContestantRows(q, id), ContestantRows(CategoryRows(rows, c), id), EntryOf);
        FilterSorted(q, p, RowLe);
        var qs := ContestantRows(q, id);
        forall i, j | 0 <= i < j < |qs| ensures StrLe(qs[i].key.judgeName, qs[j].key.judgeName) {
          assert RowLe(qs[i], qs[j]);
        }
      }
      forall id | id in out
        ensures ContestantRows(CategoryRows(rows, c), id) != []
      {
        assert |multiset(ContestantRows(q, id))| > 0;
      }
    }

    /** `GROUP BY contestant_id, judgeName ORDER BY contestant_id, judgeName`. */
    static function RawPairs(rs: seq<ScoreRow>): (ps: seq<(int, string)>)
      ensures forall i :: 0 <= i < |ps| ==> exists k :: 0 <= k < |rs| && PairOf(rs[k]) == ps[i]
      ensures forall k :: 0 <= k < |rs| ==> PairOf(rs[k]) in ps
      ensures forall i, j :: 0 <= i < j < |ps| ==> PairLe(ps[i], ps[j]) && ps[i] != ps[j]
    {
      var all := MapSeq(rs, PairOf);
      var sorted := InsertionSort(all, PairLe);
      PairOrderIsTotal();
      SortSorted(all, PairLe);
      DedupeSorted(sorted, PairLe);
      var ps := Dedupe(sorted);
      forall i | 0 <= i < |ps| ensures exists k :: 0 <= k < |rs| && PairOf(rs[k]) == ps[i] {
        assert ps[i] in multiset(all);
        var k := IndexOf(all, ps[i]);
        assert PairOf(rs[k]) == ps[i];
      }
      forall k | 0 <= k < |rs| ensures PairOf(rs[k]) in ps {
        assert all[k] in multiset(sorted);
      }
      ps
    }

    /** The rows of the `GET /api/raw-scores` query, for a given choice of
        the category each of its two sum columns adds up: one row per
        (contestant, judgeName) pair present in `rs`, in pair order. */
    static function RawTotals(rs: seq<ScoreRow>, streetCat: int, festivalCat: int): (r: seq<RawTotal>)
      ensures forall i :: 0 <= i < |r| ==>
        && r[i].streetTotal == CategorySum(rs, r[i].contestantId, r[i].judgeName, streetCat)
        && r[i].festivalTotal == CategorySum(rs, r[i].contestantId, r[i].judgeName, festivalCat)
      ensures forall k :: 0 <= k < |rs| ==>
        exists i :: 0 <= i < |r| && (r[i].contestantId, r[i].judgeName) == PairOf(rs[k])
    {
      var pairs := RawPairs(rs);
      var r := RawRows(rs, pairs, streetCat, festivalCat);
      forall k | 0 <= k < |rs|
        ensures exists i :: 0 <= i < |r| && (r[i].contestantId, r[i].judgeName) == PairOf(rs[k])
      {
        var i := IndexOf(pairs, PairOf(rs[k]));
        assert (r[i].contestantId, r[i].judgeName) == pairs[i];
      }
      r
    }

    /** Every row of the result is a pair some row of the table has. */
    static lemma RawTotalsFromTable(rs: seq<ScoreRow>, streetCat: int, festivalCat: int)
      ensures var r := RawTotals(rs, streetCat, festivalCat);
        forall i :: 0 <= i < |r| ==>
          exists k :: 0 <= k < |rs| && PairOf(rs[k]) == (r[i].contestantId, r[i].judgeName)
    {
      var pairs := RawPairs(rs);
      var r := RawTotals(rs, streetCat, festivalCat);
      assert r == RawRows(rs, pairs, streetCat, festivalCat);
      forall i | 0 <= i < |r|
        ensures exists k :: 0 <= k < |rs| && PairOf(rs[k]) == (r[i].contestantId, r[i].judgeName)
      {
        assert (r[i].contestantId, r[i].judgeName) == pairs[i];
      }
    }

    /** The result is in `ORDER BY contestant_id, judgeName` order, each
        pair once. */
    static lemma RawTotalsOrdered(rs: seq<ScoreRow>, streetCat: int, festivalCat: int)
      ensures var r := RawTotals(rs, streetCat, festivalCat);
        forall i, j :: 0 <= i < j < |r| ==>
          && PairLe((r[i].contestantId, r[i].judgeName), (r[j].contestantId, r[j].judgeName))
          && (r[i].contestantId, r[i].judgeName) != (r[j].contestantId, r[j].judgeName)
    {
      var pairs := RawPairs(rs);
      var r := RawTotals(rs, streetCat, festivalCat);
      assert r == RawRows(rs, pairs, streetCat, festivalCat);
      forall i, j | 0 <= i < j < |r|
        ensures PairLe((r[i].contestantId, r[i].judgeName), (r[j].contestantId, r[j].judgeName))
        ensures (r[i].contestantId, r[i].judgeName) != (r[j].contestantId, r[j].judgeName)
      {
        assert (r[i].contestantId, r[i].judgeName) == pairs[i];
        assert (r[j].contestantId, r[j].judgeName) == pairs[j];
      }
    }

    /** The `SUM(CASE ...)` columns for each pair of `ps`. */
    static function RawRows(rs: seq<ScoreRow>, ps: seq<(int, string)>, streetCat: int, festivalCat: int): (r: seq<RawTotal>)
      ensures |r| == |ps|
      ensures forall i :: 0 <= i < |r| ==>
        && (r[i].contestantId, r[i].judgeName) == ps[i]
        && r[i].streetTotal == CategorySum(rs, ps[i].0, ps[i].1, streetCat)
        && r[i].festivalTotal == CategorySum(rs, ps[i].0, ps[i].1, festivalCat)
    {
      if ps == [] then []
      else
        var row := RawTotal(ps[0].0, ps[0].1, CategorySum(rs, ps[0].0, ps[0].1, streetCat), CategorySum(rs, ps[0].0, ps[0].1, festivalCat));
        [row] + RawRows(rs, ps[1..], streetCat, festivalCat)
    }

    /** `GET /api/raw-scores` as written: `street_total` sums the rows of
        category 0 and `festival_total` those of category 1. */
    function RawScores(): (r: seq<RawTotal>)
      reads this
      ensures forall i :: 0 <= i < |r| ==>
        && r[i].streetTotal == CategorySum(rows, r[i].contestantId, r[i].judgeName, 0)
        && r[i].festivalTotal == CategorySum(rows, r[i].contestantId, r[i].judgeName, 1)
      ensures forall k :: 0 <= k < |rows| ==>
        exists i :: 0 <= i < |r| && (r[i].contestantId, r[i].judgeName) == PairOf(rows[k])
      ensures forall i, j :: 0 <= i < j < |r| ==>
        (r[i].contestantId, r[i].judgeName) != (r[j].contestantId, r[j].judgeName)
    {
      RawTotalsOrdered(rows, 0, 1);
      RawTotals(rows, 0, 1)
    }

    /** The same query with the sums going to the columns their names
        give, category 1 to `street_total` and category 0 to
        `festival_total`. */
    function RawScoresCorrected(): (r: seq<RawTotal>)
      reads this
      ensures forall i :: 0 <= i < |r| ==>
        && r[i].streetTotal == CategorySum(rows, r[i].contestantId, r[i].judgeName, 1)
        && r[i].festivalTotal == CategorySum(rows, r[i].contestantId, r[i].judgeName, 0)
      ensures forall k :: 0 <= k < |rows| ==>
        exists i :: 0 <= i < |r| && (r[i].contestantId, r[i].judgeName) == PairOf(rows[k])
      ensures forall i, j :: 0 <= i < j < |r| ==>
        (r[i].contestantId, r[i].judgeName) != (r[j].contestantId, r[j].judgeName)
    {
      RawTotalsOrdered(rows, 1, 0);
      RawTotals(rows, 1, 0)
    }
  }
}
