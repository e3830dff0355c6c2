/** The store behind the pipeline: a product cache keyed by ASIN, the
    current score of each (seed, competitor) pair, and a history of
    snapshots keyed by (seed, competitor, capture time). Each SQL table is a
    map; JSON encoding of bullet points and raw payloads is taken to read
    back exactly. */
module Repository {
  import opened Wrappers
  import opened Strings
  import opened Numbers
  import opened Models

  type ScoreKey = (string, string)
  type SnapshotKey = (string, string, DateTime)

  /** The primary key of `competitor_scores`. */
  function ScoreKeyOf(r: CompetitorRecord): ScoreKey
  {
    (r.seedAsin, r.competitorAsin)
  }

  /** The snapshot row written for a record. */
  function SnapshotOf(r: CompetitorRecord): CompetitorSnapshot
  {
    CompetitorSnapshot(r.seedAsin, r.capturedAt, r.competitorAsin,
      r.price, r.reviewRating, r.reviewCount, r.bestSellerRank)
  }

  /** The primary key of `competitor_snapshots`. */
  function SnapshotKeyOf(s: CompetitorSnapshot): SnapshotKey
  {
    (s.seedAsin, s.competitorAsin, s.capturedAt)
  }

  /** The row `cache_product` writes: the capture time defaults to `now`. */
  function Stored(d: ProductDetails, now: DateTime): ProductDetails
  {
    d.(fetchedAt := Some(d.fetchedAt.GetOr(now)))
  }

  /** What `get_product` builds from a row: every column but `fetched_at`. */
  function Loaded(row: ProductDetails): ProductDetails
  {
    row.(fetchedAt := None)
  }

  // ----- current scores: INSERT ... ON CONFLICT DO UPDATE -----

  /** The score table after upserting the records one by one. */
  function Upserts(m: map<ScoreKey, CompetitorRecord>, rs: seq<CompetitorRecord>): map<ScoreKey, CompetitorRecord>
  {
    if |rs| == 0 then m
    else
      var last := rs[|rs| - 1];
      Upserts(m, rs[..|rs| - 1])[ScoreKeyOf(last) := last]
  }

  function ScoreKeys(rs: seq<CompetitorRecord>): set<ScoreKey>
  {
    set i | 0 <= i < |rs| :: ScoreKeyOf(rs[i])
  }

  lemma ScoreKeysSnoc(rs: seq<CompetitorRecord>)
    requires |rs| > 0
    ensures ScoreKeys(rs) == ScoreKeys(rs[..|rs| - 1]) + {ScoreKeyOf(rs[|rs| - 1])}
  {
    var init := rs[..|rs| - 1];
    forall k | k in ScoreKeys(rs) ensures k in ScoreKeys(init) + {ScoreKeyOf(rs[|rs| - 1])} {
      var j :| 0 <= j < |rs| && ScoreKeyOf(rs[j]) == k;
      if j < |rs| - 1 { assert init[j] == rs[j]; }
    }
    forall k | k in ScoreKeys(init) ensures k in ScoreKeys(rs) {
      var j :| 0 <= j < |init| && ScoreKeyOf(init[j]) == k;
      assert init[j] == rs[j];
    }
  }

  /** For a key the batch writes, the last record with that key is the row. */
  lemma {:induction false} UpsertsLastWins(m: map<ScoreKey, CompetitorRecord>, rs: seq<CompetitorRecord>, i: nat)
    requires i < |rs|
    requires forall j :: i < j < |rs| ==> ScoreKeyOf(rs[j]) != ScoreKeyOf(rs[i])
    ensures ScoreKeyOf(rs[i]) in Upserts(m, rs) && Upserts(m, rs)[ScoreKeyOf(rs[i])] == rs[i]
  {
    if i < |rs| - 1 {
      UpsertsLastWins(m, rs[..|rs| - 1], i);
    }
  }

  /** A key the batch does not write keeps its row, or its absence. */
  lemma {:induction false} UpsertsUntouched(m: map<ScoreKey, CompetitorRecord>, rs: seq<CompetitorRecord>, k: ScoreKey)
    requires k !in ScoreKeys(rs)
    ensures k in Upserts(m, rs) <==> k in m
    ensures k in m ==> Upserts(m, rs)[k] == m[k]
  {
    if |rs| > 0 {
      ScoreKeysSnoc(rs);
      UpsertsUntouched(m, rs[..|rs| - 1], k);
    }
  }

  /** On the keys the batch writes, the old table does not matter. */
  lemma {:induction false} UpsertsOnKeys(m: map<ScoreKey, CompetitorRecord>, rs: seq<CompetitorRecord>, k: ScoreKey)
    requires k in ScoreKeys(rs)
    ensures k in Upserts(m, rs) && k in Upserts(map[], rs) && Upserts(m, rs)[k] == Upserts(map[], rs)[k]
  {
    ScoreKeysSnoc(rs);
    if ScoreKeyOf(rs[|rs| - 1]) != k {
      UpsertsOnKeys(m, rs[..|rs| - 1], k);
    }
  }

  /** The table holds the old keys and the batch's keys, and nothing else. */
  lemma {:induction false} UpsertsKeys(m: map<ScoreKey, CompetitorRecord>, rs: seq<CompetitorRecord>)
    ensures Upserts(m, rs).Keys == m.Keys + ScoreKeys(rs)
  {
    if |rs| > 0 {
      UpsertsKeys(m, rs[..|rs| - 1]);
      ScoreKeysSnoc(rs);
    }
  }

  /** Storing the same batch twice leaves the table as storing it once. */
  lemma UpsertsIdempotent(m: map<ScoreKey, CompetitorRecord>, rs: seq<CompetitorRecord>)
    ensures Upserts(Upserts(m, rs), rs) == Upserts(m, rs)
  {
    var once := Upserts(m, rs);
    var twice := Upserts(once, rs);
    UpsertsKeys(m, rs);
    UpsertsKeys(once, rs);
    forall k | k in twice
      ensures twice[k] == once[k]
    {
      if k in ScoreKeys(rs) {
        UpsertsOnKeys(m, rs, k);
        UpsertsOnKeys(once, rs, k);
      } else {
        UpsertsUntouched(once, rs, k);
      }
    }
  }

  // ----- snapshots: INSERT OR IGNORE -----

  /** The snapshot table after inserting the records one by one, each only
      when its key is new. */
  function InsertIgnore(m: map<SnapshotKey, CompetitorSnapshot>, rs: seq<CompetitorRecord>): map<SnapshotKey, CompetitorSnapshot>
  {
    if |rs| == 0 then m
    else
      var before := InsertIgnore(m, rs[..|rs| - 1]);
      var s := SnapshotOf(rs[|rs| - 1]);
      if SnapshotKeyOf(s) in before then before else before[SnapshotKeyOf(s) := s]
  }

  function SnapshotKeys(rs: seq<CompetitorRecord>): set<SnapshotKey>
  {
    set i | 0 <= i < |rs| :: SnapshotKeyOf(SnapshotOf(rs[i]))
  }

  /** Rows already present are never modified. */
  lemma {:induction false} InsertIgnoreKeeps(m: map<SnapshotKey, CompetitorSnapshot>, rs: seq<CompetitorRecord>, k: SnapshotKey)
    requires k in m
    ensures k in InsertIgnore(m, rs) && InsertIgnore(m, rs)[k] == m[k]
  {
    if |rs| > 0 {
      InsertIgnoreKeeps(m, rs[..|rs| - 1], k);
    }
  }

  /** A new key gets the snapshot of the first record that carries it. */
  lemma {:induction false} InsertIgnoreFirstWins(m: map<SnapshotKey, CompetitorSnapshot>, rs: seq<CompetitorRecord>, i: nat)
    requires i < |rs|
    requires SnapshotKeyOf(SnapshotOf(rs[i])) !in m
    requires forall j :: 0 <= j < i ==> SnapshotKeyOf(SnapshotOf(rs[j])) != SnapshotKeyOf(SnapshotOf(rs[i]))
    ensures var k := SnapshotKeyOf(SnapshotOf(rs[i]));
      k in InsertIgnore(m, rs) && InsertIgnore(m, rs)[k] == SnapshotOf(rs[i])
  {
    var k := SnapshotKeyOf(SnapshotOf(rs[i]));
    var init := rs[..|rs| - 1];
    if i == |rs| - 1 {
      assert k !in InsertIgnore(m, init) by {
        InsertIgnoreAbsent(m, init, k);
      }
    } else {
      InsertIgnoreFirstWins(m, init, i);
    }
  }

  /** A key neither present nor carried by any record stays absent. */
  lemma {:induction false} InsertIgnoreAbsent(m: map<SnapshotKey, CompetitorSnapshot>, rs: seq<CompetitorRecord>, k: SnapshotKey)
    requires k !in m
    requires forall j :: 0 <= j < |rs| ==> SnapshotKeyOf(SnapshotOf(rs[j])) != k
    ensures k !in InsertIgnore(m, rs)
  {
    if |rs| > 0 {
      InsertIgnoreAbsent(m, rs[..|rs| - 1], k);
    }
  }

  /** The table holds the old keys and the batch's keys. */
  lemma {:induction false} InsertIgnoreKeys(m: map<SnapshotKey, CompetitorSnapshot>, rs: seq<CompetitorRecord>)
    ensures InsertIgnore(m, rs).Keys == m.Keys + SnapshotKeys(rs)
  {
    if |rs| > 0 {
      var init := rs[..|rs| - 1];
      InsertIgnoreKeys(m, init);
      assert SnapshotKeys(rs) == SnapshotKeys(init) + {SnapshotKeyOf(SnapshotOf(rs[|rs| - 1]))} by {
        forall k | k in SnapshotKeys(rs) ensures k in SnapshotKeys(init) + {SnapshotKeyOf(SnapshotOf(rs[|rs| - 1]))} {
          var j :| 0 <= j < |rs| && SnapshotKeyOf(SnapshotOf(rs[j])) == k;
          if j < |rs| - 1 { assert init[j] == rs[j]; }
        }
        forall k | k in SnapshotKeys(init) ensures k in SnapshotKeys(rs) {
          var j :| 0 <= j < |init| && SnapshotKeyOf(SnapshotOf(init[j])) == k;
          assert init[j] == rs[j];
        }
      }
    }
  }

  /** Appending the same batch again changes nothing. */
  lemma InsertIgnoreIdempotent(m: map<SnapshotKey, CompetitorSnapshot>, rs: seq<CompetitorRecord>)
    ensures InsertIgnore(InsertIgnore(m, rs), rs) == InsertIgnore(m, rs)
  {
    var once := InsertIgnore(m, rs);
    var twice := InsertIgnore(once, rs);
    InsertIgnoreKeys(m, rs);
    InsertIgnoreKeys(once, rs);
    forall k | k in once
      ensures k in twice && twice[k] == once[k]
    {
      InsertIgnoreKeeps(once, rs, k);
    }
  }

  // ----- seed ASINs in key order -----

  /** `xs` with `k` put in its place in code-point order. */
  function InsertAscending(xs: seq<string>, k: string): (r: seq<string>)
    requires Ascending(xs) && k !in xs
    ensures Ascending(r) && |r| == |xs| + 1
    ensures forall a :: a in r <==> a in xs || a == k
  {
    if |xs| == 0 then [k]
    else if Less(k, xs[0]) then
      assert forall j :: 0 <= j < |xs| ==> Less(k, xs[j]) by {
        forall j | 0 < j < |xs| ensures Less(k, xs[j]) {
          LessTransitive(k, xs[0], xs[j]);
        }
      }
      [k] + xs
    else
      LessTotal(k, xs[0]);
      var rest := InsertAscending(xs[1..], k);
      assert forall a :: a in xs[1..] ==> Less(xs[0], a);
      assert forall j :: 0 <= j < |rest| ==> Less(xs[0], rest[j]) by {
        forall j | 0 <= j < |rest| ensures Less(xs[0], rest[j]) {
          assert rest[j] in rest;
        }
      }
      [xs[0]] + rest
  }

  /** Two ascending lists with the same elements are the same list, so the
      order of the ASIN listing is fully determined. */
  lemma {:induction false} AscendingUnique(xs: seq<string>, ys: seq<string>)
    requires Ascending(xs) && Ascending(ys)
    requires forall a :: a in xs <==> a in ys
    ensures xs == ys
  {
    if |xs| > 0 {
      assert xs[0] in xs;
    }
    if |ys| > 0 {
      assert ys[0] in ys;
    }
    if |xs| > 0 && |ys| > 0 {
      if xs[0] != ys[0] {
        var j :| 0 <= j < |ys| && ys[j] == xs[0];
        var i :| 0 <= i < |xs| && xs[i] == ys[0];
        LessAsymmetric(xs[0], xs[i]);
      }
      forall a | a in xs[1..] ensures a in ys[1..] {
        assert a in xs;
        TailMember(xs, a);
        TailMember(ys, a);
      }
      forall a | a in ys[1..] ensures a in xs[1..] {
        assert a in ys;
        TailMember(ys, a);
        TailMember(xs, a);
      }
      AscendingUnique(xs[1..], ys[1..]);
      assert xs == [xs[0]] + xs[1..] && ys == [ys[0]] + ys[1..];
    }
  }

  /** In an ascending list, an element other than the first is in the tail,
      and the first is not. */
  lemma TailMember(xs: seq<string>, a: string)
    requires Ascending(xs) && |xs| > 0 && a in xs
    ensures a != xs[0] <==> a in xs[1..]
  {
    var i :| 0 <= i < |xs| && xs[i] == a;
    if i > 0 {
      assert xs[1..][i - 1] == a;
    }
    if a in xs[1..] {
      var j :| 0 <= j < |xs| - 1 && xs[1..][j] == a;
      assert Less(xs[0], xs[j + 1]);
      LessIrreflexive(a);
    }
  }

  // ----- retrieval by score -----

  predicate Descending(rows: seq<CompetitorRecord>)
  {
    forall i, j :: 0 <= i < j < |rows| ==> rows[i].similarityScore >= rows[j].similarityScore
  }

  function RowKeys(rows: seq<CompetitorRecord>): set<ScoreKey>
  {
    set i | 0 <= i < |rows| :: ScoreKeyOf(rows[i])
  }

  /** Where a row goes in a list sorted by descending score: after every
      row scoring at least as much. */
  function Slot(rows: seq<CompetitorRecord>, x: CompetitorRecord): (p: nat)
    ensures p <= |rows|
    ensures forall i :: 0 <= i < p ==> rows[i].similarityScore >= x.similarityScore
    ensures p < |rows| ==> rows[p].similarityScore < x.similarityScore
  {
    if |rows| == 0 || rows[0].similarityScore < x.similarityScore then 0
    else 1 + Slot(rows[1..], x)
  }

  lemma SpliceKeys(rows: seq<CompetitorRecord>, p: nat, x: CompetitorRecord)
    requires p <= |rows|
    ensures RowKeys(rows[..p] + [x] + rows[p..]) == RowKeys(rows) + {ScoreKeyOf(x)}
  {
    var r := rows[..p] + [x] + rows[p..];
    forall k | k in RowKeys(r) ensures k in RowKeys(rows) + {ScoreKeyOf(x)} {
      var i :| 0 <= i < |r| && ScoreKeyOf(r[i]) == k;
      if i < p { assert r[i] == rows[i]; }
      else if i > p { assert r[i] == rows[i - 1]; }
    }
    forall k | k in RowKeys(rows) ensures k in RowKeys(r) {
      var i :| 0 <= i < |rows| && ScoreKeyOf(rows[i]) == k;
      if i < p { assert r[i] == rows[i]; } else { assert r[i + 1] == rows[i]; }
    }
    assert r[p] == x;
  }

  lemma SpliceDescending(rows: seq<CompetitorRecord>, p: nat, x: CompetitorRecord)
    requires Descending(rows) && p <= |rows|
    requires forall i :: 0 <= i < p ==> rows[i].similarityScore >= x.similarityScore
    requires p < |rows| ==> rows[p].similarityScore < x.similarityScore
    ensures Descending(rows[..p] + [x] + rows[p..])
  {
    var r := rows[..p] + [x] + rows[p..];
    forall i, j | 0 <= i < j < |r|
      ensures r[i].similarityScore >= r[j].similarityScore
    {
      var a := if i < p then i else if i == p then -1 else i - 1;
      var b := if j < p then j else if j == p then -1 else j - 1;
      if a >= 0 { assert r[i] == rows[a]; }
      if b >= 0 { assert r[j] == rows[b]; }
      if b > p - 1 && i == p { assert rows[p].similarityScore >= rows[b].similarityScore || b == p; }
    }
  }

  /** `rows` with `x` put in its place by descending score. */
  function InsertDescending(rows: seq<CompetitorRecord>, x: CompetitorRecord): (r: seq<CompetitorRecord>)
    requires Descending(rows)
    ensures Descending(r) && |r| == |rows| + 1
  {
    var p := Slot(rows, x);
    SpliceDescending(rows, p, x);
    rows[..p] + [x] + rows[p..]
  }

  /** Placing a row adds its key and only its key, keeps keys distinct when
      the key is new, and brings in no other row. */
  lemma InsertDescendingKeys(rows: seq<CompetitorRecord>, x: CompetitorRecord)
    requires Descending(rows)
    ensures var r := InsertDescending(rows, x);
      && RowKeys(r) == RowKeys(rows) + {ScoreKeyOf(x)}
      && (forall i :: 0 <= i < |r| ==> r[i] == x || r[i] in rows)
      && (DistinctKeys(rows) && ScoreKeyOf(x) !in RowKeys(rows) ==> DistinctKeys(r))
  {
    var p := Slot(rows, x);
    SpliceKeys(rows, p, x);
    SpliceDistinct(rows, p, x);
    var r := rows[..p] + [x] + rows[p..];
    forall i | 0 <= i < |r| ensures r[i] == x || r[i] in rows {
      if i < p { assert r[i] == rows[i]; }
      else if i > p { assert r[i] == rows[i - 1]; }
    }
  }

  /** Rows whose keys are pairwise different. */
  predicate DistinctKeys(rows: seq<CompetitorRecord>)
  {
    forall i, j :: 0 <= i < j < |rows| ==> ScoreKeyOf(rows[i]) != ScoreKeyOf(rows[j])
  }

  lemma SpliceDistinct(rows: seq<CompetitorRecord>, p: nat, x: CompetitorRecord)
    requires p <= |rows|
    ensures DistinctKeys(rows) && ScoreKeyOf(x) !in RowKeys(rows) ==> DistinctKeys(rows[..p] + [x] + rows[p..])
  {
    var r := rows[..p] + [x] + rows[p..];
    forall i, j | 0 <= i < j < |r| && DistinctKeys(rows) && ScoreKeyOf(x) !in RowKeys(rows)
      ensures ScoreKeyOf(r[i]) != ScoreKeyOf(r[j])
    {
      var a := if i < p then i else i - 1;
      var b := if j < p then j else j - 1;
      if i != p { assert r[i] == rows[a]; }
      if j != p { assert r[j] == rows[b]; }
    }
  }

  /** Pairwise different keys: as many keys as rows. */
  lemma {:induction false} DistinctCount(rows: seq<CompetitorRecord>)
    requires DistinctKeys(rows)
    ensures |RowKeys(rows)| == |rows|
  {
    if |rows| > 0 {
      var init := rows[..|rows| - 1];
      var last := rows[|rows| - 1];
      assert DistinctKeys(init) by {
        forall i, j | 0 <= i < j < |init| ensures ScoreKeyOf(init[i]) != ScoreKeyOf(init[j]) {
          assert init[i] == rows[i] && init[j] == rows[j];
        }
      }
      DistinctCount(init);
      RowKeysLast(rows);
      forall k | k in RowKeys(init) ensures k != ScoreKeyOf(last) {
        var j :| 0 <= j < |init| && ScoreKeyOf(init[j]) == k;
        assert init[j] == rows[j];
      }
    }
  }

  /** The keys of a non-empty list: those of all rows but the last, and the
      last row's. */
  lemma RowKeysLast(rows: seq<CompetitorRecord>)
    requires |rows| > 0
    ensures RowKeys(rows) == RowKeys(rows[..|rows| - 1]) + {ScoreKeyOf(rows[|rows| - 1])}
  {
    var init := rows[..|rows| - 1];
    forall k | k in RowKeys(rows) ensures k in RowKeys(init) + {ScoreKeyOf(rows[|rows| - 1])} {
      var j :| 0 <= j < |rows| && ScoreKeyOf(rows[j]) == k;
      if j < |rows| - 1 { assert init[j] == rows[j]; }
    }
    forall k | k in RowKeys(init) ensures k in RowKeys(rows) {
      var j :| 0 <= j < |init| && ScoreKeyOf(init[j]) == k;
      assert init[j] == rows[j];
    }
  }

  /** The keys of one seed's rows in a score table. */
  function SeedKeys(scores: map<ScoreKey, CompetitorRecord>, seed: string): set<ScoreKey>
  {
    set k | k in scores && k.0 == seed
  }

  /** The seed's keys among those a scan has already passed. */
  function Scanned(scores: map<ScoreKey, CompetitorRecord>, seed: string, rest: set<ScoreKey>): set<ScoreKey>
  {
    set k | k in scores && k !in rest && k.0 == seed
  }

  /** Every row is the table's row under its own key. */
  predicate RowsOf(scores: map<ScoreKey, CompetitorRecord>, rows: seq<CompetitorRecord>)
  {
    forall i :: 0 <= i < |rows| ==> ScoreKeyOf(rows[i]) in scores && scores[ScoreKeyOf(rows[i])] == rows[i]
  }

  /** One step of the scan keeps the selected rows sorted, distinct, drawn
      from the table and equal to the seed's keys scanned so far. */
  lemma SelectStep(scores: map<ScoreKey, CompetitorRecord>, seed: string, rest: set<ScoreKey>,
                   rows: seq<CompetitorRecord>, k: ScoreKey)
    requires k in rest && rest <= scores.Keys
    requires forall k' :: k' in scores ==> ScoreKeyOf(scores[k']) == k'
    requires Descending(rows) && DistinctKeys(rows)
    requires RowKeys(rows) == Scanned(scores, seed, rest) && RowsOf(scores, rows)
    ensures var next := if k.0 == seed then InsertDescending(rows, scores[k]) else rows;
      && Descending(next) && DistinctKeys(next)
      && RowKeys(next) == Scanned(scores, seed, rest - {k}) && RowsOf(scores, next)
  {
    if k.0 == seed {
      InsertDescendingKeys(rows, scores[k]);
      var next := InsertDescending(rows, scores[k]);
      forall i | 0 <= i < |next|
        ensures ScoreKeyOf(next[i]) in scores && scores[ScoreKeyOf(next[i])] == next[i]
      {
        if next[i] != scores[k] {
          var j :| 0 <= j < |rows| && rows[j] == next[i];
        }
      }
    }
  }

  /** The row bound `if limit:` adds: a positive limit caps the rows; None and
      0 add no LIMIT clause, and SQLite reads a negative LIMIT as no bound. */
  function Bound(limit: Option<int>): Option<nat>
  {
    if limit.Some? && limit.value > 0 then Some(limit.value) else None
  }

  /** The `:.4f`/`str()` columns of the export, empty for None. */
  function RealCell(x: Option<real>): string
  {
    if x.Some? then FloatRepr(x.value) else ""
  }

  function IntCell(n: Option<int>): string
  {
    if n.Some? then IntText(n.value) else ""
  }

  const CsvHeader := "seed_asin,competitor_asin,similarity,price,review_rating,review_count,best_seller_rank,captured_at"

  /** The eight cells of one exported row. */
  function CsvCells(seed: string, r: CompetitorRecord): seq<string>
  {
    [seed, r.competitorAsin, Fixed4(r.similarityScore), RealCell(r.price), RealCell(r.reviewRating),
     IntCell(r.reviewCount), IntCell(r.bestSellerRank), r.capturedAt]
  }

  /** One exported line, without its line break. */
  function CsvRow(seed: string, r: CompetitorRecord): string
  {
    Join(",", CsvCells(seed, r))
  }

  /** The exported lines, each with its line break. */
  function CsvBody(seed: string, rows: seq<CompetitorRecord>): string
  {
    if |rows| == 0 then ""
    else CsvBody(seed, rows[..|rows| - 1]) + CsvRow(seed, rows[|rows| - 1]) + "\n"
  }

  /** The export loop's step: one more line at the end of the text. */
  lemma CsvBodyStep(head: string, seed: string, rows: seq<CompetitorRecord>, i: nat)
    requires i < |rows|
    ensures head + CsvBody(seed, rows[..i + 1]) == head + CsvBody(seed, rows[..i]) + CsvRow(seed, rows[i]) + "\n"
  {
    assert rows[..i + 1][..i] == rows[..i];
  }

  lemma DigitsPlain(s: string)
    requires AllDigits(s)
    ensures ',' !in s && '\n' !in s
  {
  }

  /** Numbers are written without commas. */
  lemma NumberCellsPlain(x: real, n: int)
    ensures ',' !in Fixed4(x) && ',' !in FloatRepr(x) && ',' !in IntText(n)
  {
    var a := if x < 0.0 then -x else x;
    DigitsPlain(NatText(a.Floor));
    DigitsPlain(FractionDigits(a - a.Floor as real, 17));
    DigitsPlain(NatText(if n < 0 then -n else n));
    var q := Scaled4(x);
    DigitsPlain(NatText(q / 10000));
    DigitsPlain(Padded(q % 10000, 4));
    FixedTextUnfold(x < 0.0, q);
  }

  lemma CellsPlain(seed: string, r: CompetitorRecord)
    requires ',' !in seed && ',' !in r.competitorAsin && ',' !in r.capturedAt
    ensures forall i :: 0 <= i < 8 ==> ',' !in CsvCells(seed, r)[i]
  {
    NumberCellsPlain(r.similarityScore, r.reviewCount.GetOr(0));
    NumberCellsPlain(r.price.GetOr(0.0), r.bestSellerRank.GetOr(0));
    NumberCellsPlain(r.reviewRating.GetOr(0.0), 0);
  }

  /** When the ASINs and the capture time hold no comma, an exported line
      splits back into its eight cells: the similarity reads back as the
      score rounded to four decimals, and a missing number is an empty
      cell. */
  lemma CsvRowCells(seed: string, r: CompetitorRecord)
    requires ',' !in seed && ',' !in r.competitorAsin && ',' !in r.capturedAt
    ensures var cells := CsvCells(seed, r);
      && Split(',', CsvRow(seed, r)) == cells && |cells| == 8
      && ParseReal(cells[2]) == Some(Rounded4(r.similarityScore))
      && (cells[3] == "" <==> r.price.None?) && (cells[4] == "" <==> r.reviewRating.None?)
      && (cells[5] == "" <==> r.reviewCount.None?) && (cells[6] == "" <==> r.bestSellerRank.None?)
  {
    var cells := CsvCells(seed, r);
    CellsPlain(seed, r);
    assert "," == [','];
    SplitJoin(',', cells);
    Fixed4Spec(r.similarityScore);
  }

  lemma Fixed4Example()
    ensures Fixed4(0.8765) == "0.8765"
  {
    assert 0.8765 * 10000.0 == 8765.0;
    assert RoundHalfEven(8765.0) == 8765;
    assert Scaled4(0.8765) == 8765;
    assert NatText(0) == "0";
    assert Padded(8765, 4) == "8765";
  }

  lemma FloatReprExample()
    ensures FloatRepr(4.5) == "4.5"
  {
    assert FractionDigits(0.5, 17) == "5";
  }

  /** The cells the export writes for a typical row: four decimals for the
      similarity, `str()` for the other numbers, empty cells for missing ones. */
  lemma CsvCellsExample(r: CompetitorRecord)
    requires r == CompetitorRecord("B001", "B002", 0.8765, None, Some(4.5), Some(120), None, "2024-01-01T00:00:00")
    ensures CsvCells("B001", r) == ["B001", "B002", "0.8765", "", "4.5", "120", "", "2024-01-01T00:00:00"]
  {
    Fixed4Example();
    FloatReprExample();
    assert IntText(120) == "120";
  }

  /** `dt_from_iso(value)`: None for empty text, otherwise the instant the
      text names (kept as that text). */
  function DtFromIso(value: string): (r: Option<DateTime>)
    ensures r.None? <==> value == ""
    ensures r.Some? ==> r.value == value
  {
    if value == "" then None else Some(value)
  }

  class DataRepository {
    var seeds: map<string, ProductDetails>
    var scores: map<ScoreKey, CompetitorRecord>
    var snapshots: map<SnapshotKey, CompetitorSnapshot>

    /** Every row sits under its own primary key, and every cached product
        carries the time it was fetched. */
    ghost predicate Valid()
      reads this
    {
      && (forall a :: a in seeds ==> seeds[a].asin == a && seeds[a].fetchedAt.Some?)
      && (forall k :: k in scores ==> ScoreKeyOf(scores[k]) == k)
      && (forall k :: k in snapshots ==> SnapshotKeyOf(snapshots[k]) == k)
    }

    /** A fresh store has three empty tables. */
    constructor ()
      ensures Valid() && seeds == map[] && scores == map[] && snapshots == map[]
    {
      seeds := map[];
      scores := map[];
      snapshots := map[];
    }

    /** `cache_product(details)`: insert, or replace every column of the row
        with the same ASIN. */
    method CacheProduct(details: ProductDetails, now: DateTime)
      requires Valid()
      modifies this
      ensures Valid()
      ensures seeds == old(seeds)[details.asin := Stored(details, now)]
      ensures scores == old(scores) && snapshots == old(snapshots)
      ensures GetProduct(details.asin) == Some(details.(fetchedAt := None))
      ensures forall a :: a != details.asin ==> GetProduct(a) == old(GetProduct(a))
    {
      seeds := seeds[details.asin := Stored(details, now)];
    }

    /** `get_product(asin)`: the cached product without its fetch time, or
        None for an unknown ASIN. */
    function GetProduct(asin: string): (r: Option<ProductDetails>)
      reads this
      ensures r.Some? <==> asin in seeds
      ensures r.Some? ==> r.value == Loaded(seeds[asin]) && r.value.fetchedAt == None
    {
      if asin in seeds then Some(Loaded(seeds[asin])) else None
    }

    /** `list_seed_asins()`: every cached ASIN once, in ascending order. */
    method ListSeedAsins() returns (asins: seq<string>)
      ensures Ascending(asins)
      ensures forall a :: a in asins <==> a in seeds
      ensures |asins| == |seeds.Keys|
    {
      asins := [];
      var rest := seeds.Keys;
      while rest != {}
        invariant rest <= seeds.Keys
        invariant Ascending(asins)
        invariant forall a :: a in asins <==> a in seeds && a !in rest
        invariant |asins| + |rest| == |seeds.Keys|
        decreases rest
      {
        var a :| a in rest;
        asins := InsertAscending(asins, a);
        rest := rest - {a};
      }
    }

    /** `store_competitor_scores(records)`: upsert each record in order. */
    method StoreCompetitorScores(records: seq<CompetitorRecord>)
      requires Valid()
      modifies this
      ensures Valid()
      ensures scores == Upserts(old(scores), records)
      ensures seeds == old(seeds) && snapshots == old(snapshots)
    {
      for i := 0 to |records|
        invariant scores == Upserts(old(scores), records[..i])
        invariant Valid() && seeds == old(seeds) && snapshots == old(snapshots)
      {
        assert records[..i + 1][..i] == records[..i];
        var r := records[i];
        scores := scores[ScoreKeyOf(r) := r];
      }
      assert records[..|records|] == records;
    }

    /** `append_snapshot(records)`: insert each record's snapshot unless a
        row with its key exists. */
    method AppendSnapshot(records: seq<CompetitorRecord>)
      requires Valid()
      modifies this
      ensures Valid()
      ensures snapshots == InsertIgnore(old(snapshots), records)
      ensures seeds == old(seeds) && scores == old(scores)
    {
      for i := 0 to |records|
        invariant snapshots == InsertIgnore(old(snapshots), records[..i])
        invariant Valid() && seeds == old(seeds) && scores == old(scores)
      {
        assert records[..i + 1][..i] == records[..i];
        var s := SnapshotOf(records[i]);
        if SnapshotKeyOf(s) !in snapshots {
          snapshots := snapshots[SnapshotKeyOf(s) := s];
        }
      }
      assert records[..|records|] == records;
    }

    /** `SELECT * FROM competitor_scores WHERE seed_asin = ? ORDER BY
        similarity_score DESC`: the table is scanned in no particular order
        and each of the seed's rows is placed by score, so rows with equal
        scores come out in an unspecified order. */
    method SelectBySeed(seed: string) returns (rows: seq<CompetitorRecord>)
      requires Valid()
      ensures Descending(rows) && DistinctKeys(rows)
      ensures RowKeys(rows) == SeedKeys(scores, seed) && |rows| == |SeedKeys(scores, seed)|
      ensures forall i :: 0 <= i < |rows| ==>
        rows[i].seedAsin == seed && ScoreKeyOf(rows[i]) in scores && scores[ScoreKeyOf(rows[i])] == rows[i]
    {
      rows := [];
      var rest := scores.Keys;
      while rest != {}
        invariant rest <= scores.Keys
        invariant Descending(rows) && DistinctKeys(rows)
        invariant RowKeys(rows) == Scanned(scores, seed, rest)
        invariant RowsOf(scores, rows)
        decreases rest
      {
        var k :| k in rest;
        SelectStep(scores, seed, rest, rows, k);
        if k.0 == seed {
          rows := InsertDescending(rows, scores[k]);
        }
        rest := rest - {k};
      }
      assert Scanned(scores, seed, {}) == SeedKeys(scores, seed);
      DistinctCount(rows);
      forall i | 0 <= i < |rows| ensures rows[i].seedAsin == seed {
        assert ScoreKeyOf(rows[i]) in RowKeys(rows);
      }
    }

    /** `competitors_for_seed(seed, limit)`: the seed's rows by descending
        score; with a positive limit only that many, and those are the
        best-scoring ones. The stored capture time reads back through
        `dt_from_iso` as the text that was written. */
    method CompetitorsForSeed(seed: string, limit: Option<int>) returns (rows: seq<CompetitorRecord>)
      requires Valid()
      ensures Descending(rows) && DistinctKeys(rows)
      ensures forall i :: 0 <= i < |rows| ==>
        rows[i].seedAsin == seed && ScoreKeyOf(rows[i]) in scores && scores[ScoreKeyOf(rows[i])] == rows[i]
      ensures Bound(limit).None? ==> RowKeys(rows) == SeedKeys(scores, seed)
      ensures Bound(limit).Some? ==> |rows| == if Bound(limit).value < |SeedKeys(scores, seed)|
                                               then Bound(limit).value else |SeedKeys(scores, seed)|
      ensures forall k :: k in SeedKeys(scores, seed) && k !in RowKeys(rows) ==>
        forall i :: 0 <= i < |rows| ==> rows[i].similarityScore >= scores[k].similarityScore
    {
      var all := SelectBySeed(seed);
      if limit.Some? && limit.value != 0 && 0 < limit.value < |all| {
        rows := all[..limit.value];
        forall k | k in SeedKeys(scores, seed) && k !in RowKeys(rows)
          ensures forall i :: 0 <= i < |rows| ==> rows[i].similarityScore >= scores[k].similarityScore
        {
          var j :| 0 <= j < |all| && ScoreKeyOf(all[j]) == k;
        }
      } else {
        rows := all;
      }
    }

    /** `export_competitors_to_csv(seed, destination)`: the header line,
        then one line per row of the seed by descending score. The file is
        modelled by the text written to it, returned with the rows it was
        written from. */
    method ExportCompetitorsToCsv(seed: string) returns (rows: seq<CompetitorRecord>, text: string)
      requires Valid()
      ensures Descending(rows) && DistinctKeys(rows) && RowKeys(rows) == SeedKeys(scores, seed)
      ensures forall i :: 0 <= i < |rows| ==> ScoreKeyOf(rows[i]) in scores && scores[ScoreKeyOf(rows[i])] == rows[i]
      ensures text == CsvHeader + "\n" + CsvBody(seed, rows)
    {
      rows := SelectBySeed(seed);
      text := CsvHeader + "\n";
      for i := 0 to |rows|
        invariant text == CsvHeader + "\n" + CsvBody(seed, rows[..i])
      {
        CsvBodyStep(CsvHeader + "\n", seed, rows, i);
        text := text + CsvRow(seed, rows[i]) + "\n";
      }
      assert rows[..|rows|] == rows;
    }
  }
}
