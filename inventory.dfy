/** Best-effort stock lookup: `getInventoryCounts` in scripts/fetch-square.mjs
    (lines 92-119). The batch endpoint is replaced by `respond`, the answer the
    platform gives to each batch of ids. */
module Inventory {
  import opened Wrappers

  const BatchSize: nat := 50

  /** One count row. `quantity` is `None` when `Number(c.quantity)` is NaN. */
  datatype CountRow = CountRow(catalogObjectId: string, quantity: Option<int>, state: string)

  /** The answer to one batch request: a thrown error, or the rows
      (`res?.result?.counts ?? []`, so a missing list is `Counts([])`). */
  datatype BatchResponse = BatchFailed | Counts(rows: seq<CountRow>)

  /** What one row adds to its id: `Number(c.quantity) || 0` for `IN_STOCK`, 0 otherwise. */
  function InStock(c: CountRow): int {
    if c.state == "IN_STOCK" then (match c.quantity case Some(q) => q case None => 0) else 0
  }

  /** `map.get(k) || 0`: an id without an entry counts as 0, both in the
      tally and in the stock `asWebProduct` reads. */
  function Get(m: map<string, int>, k: string): int {
    if k in m then m[k] else 0
  }

  /** The inner loop over one batch's rows: `map.set(key, prev + ...)` per row. */
  function Tally(m: map<string, int>, rows: seq<CountRow>): map<string, int>
    decreases |rows|
  {
    if rows == [] then m
    else Tally(m[rows[0].catalogObjectId := Get(m, rows[0].catalogObjectId) + InStock(rows[0])], rows[1..])
  }

  /** The consecutive slices `ids.slice(i, i + 50)` for i = 0, 50, 100, ... */
  function Batches(ids: seq<string>): seq<seq<string>>
    decreases |ids|
  {
    if ids == [] then []
    else if |ids| <= BatchSize then [ids]
    else [ids[..BatchSize]] + Batches(ids[BatchSize..])
  }

  /** The batches answered in turn; the first failure ends the lookup with
      what was gathered so far. */
  function Aggregate(m: map<string, int>, batches: seq<seq<string>>, respond: seq<string> -> BatchResponse): map<string, int>
    decreases |batches|
  {
    if batches == [] then m
    else match respond(batches[0])
      case BatchFailed => m
      case Counts(rows) => Aggregate(Tally(m, rows), batches[1..], respond)
  }

  function InventoryCounts(ids: seq<string>, respond: seq<string> -> BatchResponse): map<string, int> {
    Aggregate(map[], Batches(ids), respond)
  }

  function Remaining(ids: seq<string>, i: nat): seq<string> {
    if i < |ids| then ids[i..] else []
  }

  method GetInventoryCounts(variationIds: seq<string>, respond: seq<string> -> BatchResponse)
    returns (counts: map<string, int>)
    ensures counts == InventoryCounts(variationIds, respond)
  {
    counts := map[];
    if |variationIds| == 0 {
      return;
    }
    var i := 0;
    while i < |variationIds|
      invariant Aggregate(counts, Batches(Remaining(variationIds, i)), respond) == InventoryCounts(variationIds, respond)
      decreases |variationIds| - i
    {
      var end := if i + BatchSize < |variationIds| then i + BatchSize else |variationIds|;
      var ids := variationIds[i..end];
      BatchesStep(variationIds, i);
      var res := respond(ids);
      if res.BatchFailed? {
        return;
      }
      var rows := res.rows;
      ghost var before := counts;
      for j := 0 to |rows|
        invariant Tally(counts, rows[j..]) == Tally(before, rows)
      {
        TallyStep(counts, rows, j);
        var key := rows[j].catalogObjectId;
        var qty := match rows[j].quantity case Some(q) => q case None => 0;
        var prev := if key in counts then counts[key] else 0;
        counts := counts[key := prev + (if rows[j].state == "IN_STOCK" then qty else 0)];
      }
      assert rows[|rows|..] == [];
      i := i + BatchSize;
    }
  }

  lemma TallyStep(m: map<string, int>, rows: seq<CountRow>, j: nat)
    requires j < |rows|
    ensures Tally(m, rows[j..])
         == Tally(m[rows[j].catalogObjectId := Get(m, rows[j].catalogObjectId) + InStock(rows[j])], rows[j + 1..])
  {
    assert rows[j..][1..] == rows[j + 1..];
  }

  lemma BatchesStep(ids: seq<string>, i: nat)
    requires i < |ids|
    ensures Batches(Remaining(ids, i))
         == [ids[i..if i + BatchSize < |ids| then i + BatchSize else |ids|]] + Batches(Remaining(ids, i + BatchSize))
  {
    var rest := ids[i..];
    if i + BatchSize < |ids| {
      assert rest[BatchSize..] == ids[i + BatchSize..];
      assert rest[..BatchSize] == ids[i..i + BatchSize];
      assert Batches(rest) == [rest[..BatchSize]] + Batches(rest[BatchSize..]);
    } else {
      assert ids[i..|ids|] == rest;
      assert Batches(rest) == [rest];
      assert Remaining(ids, i + BatchSize) == [];
    }
  }

  function Flatten(batches: seq<seq<string>>): seq<string> {
    if batches == [] then [] else batches[0] + Flatten(batches[1..])
  }

  /** The batches cover the ids exactly once and in order; each holds between
      1 and 50 ids, and only the last may hold fewer than 50. */
  lemma {:induction false} BatchesCover(ids: seq<string>)
    ensures Flatten(Batches(ids)) == ids
    ensures forall b :: 0 <= b < |Batches(ids)| ==> 1 <= |Batches(ids)[b]| <= BatchSize
    ensures forall b :: 0 <= b < |Batches(ids)| - 1 ==> |Batches(ids)[b]| == BatchSize
    decreases |ids|
  {
    if |ids| > BatchSize {
      BatchesCover(ids[BatchSize..]);
      assert Batches(ids)[1..] == Batches(ids[BatchSize..]);
      assert ids == ids[..BatchSize] + ids[BatchSize..];
    }
  }

  /** The IN_STOCK quantity `rows` report for `k`. */
  function InStockSum(rows: seq<CountRow>, k: string): int {
    if rows == [] then 0
    else (if rows[0].catalogObjectId == k then InStock(rows[0]) else 0) + InStockSum(rows[1..], k)
  }

  /** Tallying adds exactly the IN_STOCK quantities to each id, and gives an
      entry (possibly 0) to every id a row mentions, whatever its state. */
  lemma {:induction false} TallySpec(m: map<string, int>, rows: seq<CountRow>, k: string)
    ensures k in Tally(m, rows) <==> k in m || exists j :: 0 <= j < |rows| && rows[j].catalogObjectId == k
    ensures Get(Tally(m, rows), k) == Get(m, k) + InStockSum(rows, k)
    decreases |rows|
  {
    if rows != [] {
      var m' := m[rows[0].catalogObjectId := Get(m, rows[0].catalogObjectId) + InStock(rows[0])];
      TallySpec(m', rows[1..], k);
      if exists j :: 0 <= j < |rows| && rows[j].catalogObjectId == k {
        var j :| 0 <= j < |rows| && rows[j].catalogObjectId == k;
        if j > 0 {
          assert rows[1..][j - 1].catalogObjectId == k;
        }
      }
      if exists j :: 0 <= j < |rows[1..]| && rows[1..][j].catalogObjectId == k {
        var j :| 0 <= j < |rows[1..]| && rows[1..][j].catalogObjectId == k;
        assert rows[j + 1].catalogObjectId == k;
      }
    }
  }

  /** The rows of the batches answered before the first failure. */
  function RowsBeforeFailure(batches: seq<seq<string>>, respond: seq<string> -> BatchResponse): seq<CountRow>
    decreases |batches|
  {
    if batches == [] then []
    else match respond(batches[0])
      case BatchFailed => []
      case Counts(rows) => rows + RowsBeforeFailure(batches[1..], respond)
  }

  lemma {:induction false} TallyAppend(m: map<string, int>, a: seq<CountRow>, b: seq<CountRow>)
    ensures Tally(m, a + b) == Tally(Tally(m, a), b)
    decreases |a|
  {
    if a == [] {
      assert a + b == b;
    } else {
      assert (a + b)[0] == a[0];
      assert (a + b)[1..] == a[1..] + b;
      TallyAppend(m[a[0].catalogObjectId := Get(m, a[0].catalogObjectId) + InStock(a[0])], a[1..], b);
    }
  }

  lemma {:induction false} AggregateIsTally(m: map<string, int>, batches: seq<seq<string>>, respond: seq<string> -> BatchResponse)
    ensures Aggregate(m, batches, respond) == Tally(m, RowsBeforeFailure(batches, respond))
    decreases |batches|
  {
    if batches != [] {
      match respond(batches[0])
      case BatchFailed =>
      case Counts(rows) =>
        AggregateIsTally(Tally(m, rows), batches[1..], respond);
        TallyAppend(m, rows, RowsBeforeFailure(batches[1..], respond));
    }
  }

  /** Each id's count is the sum of the IN_STOCK quantities reported for it
      by the batches answered before the first failure; an id with no row
      there has no entry. An empty id list asks nothing and finds nothing. */
  lemma InventoryCountsSpec(ids: seq<string>, respond: seq<string> -> BatchResponse, k: string)
    ensures ids == [] ==> InventoryCounts(ids, respond) == map[]
    ensures var rows := RowsBeforeFailure(Batches(ids), respond);
      && (k in InventoryCounts(ids, respond) <==> exists j :: 0 <= j < |rows| && rows[j].catalogObjectId == k)
      && Get(InventoryCounts(ids, respond), k) == InStockSum(rows, k)
  {
    AggregateIsTally(map[], Batches(ids), respond);
    TallySpec(map[], RowsBeforeFailure(Batches(ids), respond), k);
  }

  /** 120 ids go out as batches of 50, 50 and 20. When the second batch fails
      the third is never asked for: only the first batch's rows count. */
  lemma SecondOfThreeBatchesFails(ids: seq<string>, respond: seq<string> -> BatchResponse)
    requires |ids| == 120
    requires respond(ids[50..100]).BatchFailed?
    ensures |Batches(ids)| == 3
    ensures Batches(ids)[0] == ids[..50] && Batches(ids)[1] == ids[50..100] && Batches(ids)[2] == ids[100..]
    ensures InventoryCounts(ids, respond)
         == (match respond(ids[..50]) case BatchFailed => map[] case Counts(rows) => Tally(map[], rows))
  {
    var second, third := ids[50..], ids[100..];
    assert second[..50] == ids[50..100];
    assert second[50..] == third;
    assert Batches(third) == [third];
    assert Batches(second) == [ids[50..100]] + [third];
    var bs := Batches(ids);
    assert bs == [ids[..50]] + Batches(second);
    assert bs[1..][0] == ids[50..100];
    match respond(ids[..50])
    case BatchFailed =>
    case Counts(rows) =>
      assert Aggregate(Tally(map[], rows), bs[1..], respond) == Tally(map[], rows);
  }
}
