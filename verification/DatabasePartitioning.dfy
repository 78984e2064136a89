/** How many workers load a query, and how its rows are split among them (apps/ingestion/src/services/database.py). */
module DatabasePartitioning {
  import opened Sums
  import opened Texts

  const MAX_CELLS_PER_WORKER := 20_000_000
  const MIN_ROWS_PER_WORKER := 50_000

  function Max(a: int, b: int): int {
    if a < b then b else a
  }

  /** The requested number of workers, or the number that the cell budget suggests when none is requested. */
  function Wanted(requested: int, rows: nat, columns: nat): int {
    if requested != 0 then requested else rows * columns / MAX_CELLS_PER_WORKER
  }

  lemma FloorBites(rows: nat, workers: nat, floor: nat)
    requires workers > 0 && floor > 0
    ensures rows / workers < floor <==> rows / floor < workers
  {
    if rows / workers < floor {
      QuotientBelow(rows, workers, floor);
    }
    if rows / floor < workers {
      QuotientBelow(rows, floor, workers);
    }
  }

  /** `n / a < b` gives `n / b < a`: both say that `n` is less than the product. */
  lemma QuotientBelow(n: nat, a: nat, b: nat)
    requires a > 0 && b > 0 && n / a < b
    ensures n / b < a
  {
    var q, p := n / a, n / b;
    assert n < a * (q + 1) && n >= b * p && a * b == b * a;
    MonotoneProduct(a, q + 1, b);
    if p >= a {
      MonotoneProduct(b, a, p);
    }
  }

  lemma MonotoneProduct(k: nat, a: nat, b: nat)
    requires a <= b
    ensures k * a <= k * b
  {
  }

  /** What the branches amount to: the wanted number, kept between one and the most the row floor allows. */
  function Workers(requested: int, rows: nat, columns: nat): int {
    Max(1, Min(Wanted(requested, rows, columns), rows / MIN_ROWS_PER_WORKER))
  }

  /**
   * One worker is always allowed; more of them, if each gets its rows and they are requested or each fills its cells.
   */
  predicate IsAllowed(workers: nat, requested: int, rows: nat, columns: nat) {
    workers == 1 ||
    (workers > 1 && workers * 50_000 <= rows
     && if requested != 0 then workers <= requested else workers * 20_000_000 <= rows * columns)
  }

  /** The number of workers is the greatest that is allowed. */
  lemma GreatestAllowed(requested: int, rows: nat, columns: nat)
    ensures Workers(requested, rows, columns) >= 1
    ensures IsAllowed(Workers(requested, rows, columns), requested, rows, columns)
    ensures forall n: nat :: IsAllowed(n, requested, rows, columns) ==> n <= Workers(requested, rows, columns)
  {
  }

  /** The worker arithmetic of `parallelize`. */
  method CountWorkers(requested: int, rows: nat, columns: nat) returns (numWorkers: int)
    ensures numWorkers == Workers(requested, rows, columns)
    ensures numWorkers >= 1 && IsAllowed(numWorkers, requested, rows, columns)
    ensures forall n: nat :: IsAllowed(n, requested, rows, columns) ==> n <= numWorkers
  {
    GreatestAllowed(requested, rows, columns);
    numWorkers := requested;
    var totalCells := rows * columns;
    if numWorkers == 0 {
      numWorkers := totalCells / MAX_CELLS_PER_WORKER;
    }
    if numWorkers > 0 {
      var rowsPerWorker := rows / numWorkers;
      FloorBites(rows, numWorkers, MIN_ROWS_PER_WORKER);
      if rowsPerWorker < MIN_ROWS_PER_WORKER {
        numWorkers := rows / MIN_ROWS_PER_WORKER;
      }
    }
    numWorkers := Max(1, numWorkers);
  }

  /** Without a request, and where the row floor does not bite, the average share is below twice the cell budget. */
  lemma AutomaticShare(rows: nat, columns: nat)
    requires 1 <= Wanted(0, rows, columns) <= rows / MIN_ROWS_PER_WORKER
    ensures rows * columns < 2 * MAX_CELLS_PER_WORKER * Workers(0, rows, columns)
  {
    var cells, workers := rows * columns, Workers(0, rows, columns);
    assert cells < MAX_CELLS_PER_WORKER * (workers + 1);
  }

  /** There is no upper clamp: a limit is kept exactly if no more are wanted, or if the row floor allows no more. */
  lemma WithinLimit(requested: int, rows: nat, columns: nat, limit: nat)
    requires limit >= 1
    ensures Workers(requested, rows, columns) <= limit <==>
      Wanted(requested, rows, columns) <= limit || rows < (limit + 1) * MIN_ROWS_PER_WORKER
  {
  }

  // ----- The hash partition

  /** The rows that the query with the condition `hash % n == i` selects. */
  function Selected<T>(rows: seq<T>, hash: T -> nat, n: nat, i: nat): seq<T>
    requires n > 0
  {
    if rows == [] then []
    else
      var init, last := rows[..|rows| - 1], rows[|rows| - 1];
      if hash(last) % n == i then Selected(init, hash, n, i) + [last] else Selected(init, hash, n, i)
  }

  function Partitions<T>(rows: seq<T>, hash: T -> nat, n: nat): seq<seq<T>>
    requires n > 0
  {
    seq(n, i requires 0 <= i => Selected(rows, hash, n, i))
  }

  /** The loop of `_partition_load`, each query standing for its rows; None for a number of workers that raises. */
  method PartitionLoad<T>(rows: seq<T>, hash: T -> nat, numWorkers: int) returns (queries: Option<seq<seq<T>>>)
    ensures queries == if numWorkers > 0 then Some(Partitions(rows, hash, numWorkers)) else None
  {
    if numWorkers <= 0 {
      return None;
    }
    var built: seq<seq<T>> := [];
    for i := 0 to numWorkers
      invariant |built| == i && forall k :: 0 <= k < i ==> built[k] == Selected(rows, hash, numWorkers, k)
    {
      built := built + [Selected(rows, hash, numWorkers, i)];
    }
    assert built == Partitions(rows, hash, numWorkers);
    queries := Some(built);
  }

  lemma NothingSelected<T>(n: nat, groups: seq<seq<T>>)
    requires |groups| == n && forall i :: 0 <= i < n ==> groups[i] == []
    ensures Flatten(groups) == []
    decreases n
  {
    if n > 0 {
      NothingSelected(n - 1, groups[1..]);
    }
  }

  lemma OneMoreRow<T>(rows: seq<T>, hash: T -> nat, n: nat)
    requires n > 0 && rows != []
    ensures hash(rows[|rows| - 1]) % n < n
    ensures var last := rows[|rows| - 1];
      var k, before := hash(last) % n, Partitions(rows[..|rows| - 1], hash, n);
      Partitions(rows, hash, n) == before[k := before[k] + [last]]
  {
  }

  /** Together the queries load exactly the rows: each one once, as often as it occurs. */
  lemma {:induction false} PartitionsCoverRows<T>(rows: seq<T>, hash: T -> nat, n: nat)
    requires n > 0
    ensures multiset(Flatten(Partitions(rows, hash, n))) == multiset(rows)
  {
    if rows == [] {
      NothingSelected(n, Partitions(rows, hash, n));
    } else {
      var init, last := rows[..|rows| - 1], rows[|rows| - 1];
      PartitionsCoverRows(init, hash, n);
      OneMoreRow(rows, hash, n);
      FlattenPlace(Partitions(init, hash, n), hash(last) % n, last);
      assert rows == init + [last];
    }
  }

  /** With the number of workers that `parallelize` computes, the queries always load exactly the rows. */
  method LoadInParallel<T>(rows: seq<T>, hash: T -> nat, requested: int, columns: nat) returns (queries: seq<seq<T>>)
    ensures |queries| == Workers(requested, |rows|, columns) && multiset(Flatten(queries)) == multiset(rows)
  {
    var numWorkers := CountWorkers(requested, |rows|, columns);
    var built := PartitionLoad(rows, hash, numWorkers);
    PartitionsCoverRows(rows, hash, numWorkers);
    queries := built.value;
  }

  /** No row is loaded by two queries. */
  lemma {:induction false} QueriesAreDisjoint<T>(rows: seq<T>, hash: T -> nat, n: nat, i: nat, row: T)
    requires n > 0
    ensures row in Selected(rows, hash, n, i) <==> row in rows && hash(row) % n == i
  {
    if rows != [] {
      var init, last := rows[..|rows| - 1], rows[|rows| - 1];
      QueriesAreDisjoint(init, hash, n, i, row);
      assert rows == init + [last];
    }
  }
}
