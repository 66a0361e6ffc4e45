/** The benchmark descriptor reader (parse_lazybenchmark_csv.py): a CSV table
    whose first row holds the category names and whose other rows each
    describe one benchmark. */
module Catalog {
  import opened Wrappers
  import opened Strings

  /** What is needed to run and check one benchmark: its family tag
      ("pbbs", "pbbs_v2", "cilk5"), its directory, the binary and the checking
      binary, the data directory, and the small and standard dataset lists. */
  datatype Benchmark = Benchmark(
    benchmarkName: string,
    name: string,
    binary: string,
    checkBinary: string,
    dataDir: string,
    smallInputs: seq<string>,
    standardInputs: seq<string>)

  /** An empty row, or one whose first cell starts with "#", describes nothing. */
  predicate Skipped(row: seq<string>) {
    |row| == 0 || "#" <= row[0]
  }

  /** The record built from a row that is not skipped. */
  function FromRow(row: seq<string>): (b: Benchmark)
    requires |row| >= 7
    ensures b.benchmarkName == row[0] && b.name == row[1] && b.binary == row[2]
    ensures b.checkBinary == row[3] && b.dataDir == row[4]
    ensures |b.smallInputs| >= 1 && Join(b.smallInputs, ",") == row[5]
    ensures |b.standardInputs| >= 1 && Join(b.standardInputs, ",") == row[6]
  {
    Benchmark(row[0], row[1], row[2], row[3], row[4], Split(row[5], ','), Split(row[6], ','))
  }

  /** What one data row contributes; `None` is the IndexError the script
      raises on a kept row with fewer than seven cells. */
  function RowBenchmarks(row: seq<string>): Option<seq<Benchmark>> {
    if Skipped(row) then Some([])
    else if |row| < 7 then None
    else Some([FromRow(row)])
  }

  function Concat(a: Option<seq<Benchmark>>, b: Option<seq<Benchmark>>): Option<seq<Benchmark>> {
    if a.None? || b.None? then None else Some(a.value + b.value)
  }

  /** The benchmarks described by the data rows, in row order. */
  function DataRows(rows: seq<seq<string>>): Option<seq<Benchmark>>
    decreases |rows|
  {
    if |rows| == 0 then Some([])
    else Concat(DataRows(rows[..|rows| - 1]), RowBenchmarks(rows[|rows| - 1]))
  }

  /** The result of `parse_csv`: the first row is dropped unread; an empty
      file makes `next` raise StopIteration. */
  function ParseRows(rows: seq<seq<string>>): Option<seq<Benchmark>> {
    if |rows| == 0 then None else DataRows(rows[1..])
  }

  /** `parse_csv`, over the rows the CSV reader yields. */
  method ParseCsv(rows: seq<seq<string>>) returns (r: Option<seq<Benchmark>>)
    ensures r == ParseRows(rows)
  {
    if |rows| == 0 {
      return None;
    }
    var benchmarks: seq<Benchmark> := [];
    var i := 1;
    while i < |rows|
      invariant 1 <= i <= |rows|
      invariant DataRows(rows[1..i]) == Some(benchmarks)
    {
      var row := rows[i];
      assert rows[1..i + 1][..i - 1] == rows[1..i];
      assert rows[1..i + 1][i - 1] == row;
      assert DataRows(rows[1..i + 1]) == Concat(Some(benchmarks), RowBenchmarks(row));
      assert benchmarks + [] == benchmarks;
      if |row| == 0 {
        i := i + 1;
        continue;
      }
      if "#" <= row[0] {
        i := i + 1;
        continue;
      }
      if |row| < 7 {
        assert DataRows(rows[1..i + 1]) == None;
        assert rows[1..][..i] == rows[1..i + 1];
        DataRowsShortCircuit(rows[1..], i);
        return None;
      }
      benchmarks := benchmarks + [FromRow(row)];
      i := i + 1;
    }
    assert rows[1..i] == rows[1..];
    r := Some(benchmarks);
  }

  /** Once a prefix of the rows makes the reader fail, the whole file does. */
  lemma {:induction false} DataRowsShortCircuit(rows: seq<seq<string>>, n: nat)
    requires n <= |rows| && DataRows(rows[..n]) == None
    ensures DataRows(rows) == None
    decreases |rows| - n
  {
    if n < |rows| {
      assert rows[..n + 1][..n] == rows[..n];
      DataRowsShortCircuit(rows, n + 1);
    } else {
      assert rows[..n] == rows;
    }
  }

  /** Reading two blocks of rows one after the other gives the benchmarks of
      the first block followed by those of the second: output order is input
      order. */
  lemma {:induction false} DataRowsAppend(a: seq<seq<string>>, b: seq<seq<string>>)
    ensures DataRows(a + b) == Concat(DataRows(a), DataRows(b))
    decreases |b|
  {
    if |b| == 0 {
      assert a + b == a;
      if DataRows(a).Some? {
        assert DataRows(a).value + [] == DataRows(a).value;
      }
    } else {
      var b' := b[..|b| - 1];
      assert (a + b)[..|a + b| - 1] == a + b';
      assert (a + b)[|a + b| - 1] == b[|b| - 1];
      DataRowsAppend(a, b');
      var x, y, z := DataRows(a), DataRows(b'), RowBenchmarks(b[|b| - 1]);
      if x.Some? && y.Some? && z.Some? {
        assert x.value + y.value + z.value == x.value + (y.value + z.value);
      }
    }
  }

  /** The first row is discarded whatever it holds. */
  lemma HeaderIgnored(h1: seq<string>, h2: seq<string>, rest: seq<seq<string>>)
    ensures ParseRows([h1] + rest) == ParseRows([h2] + rest)
  {
    assert ([h1] + rest)[1..] == rest == ([h2] + rest)[1..];
  }

  /** A skipped row adds no benchmark; any other row with at least seven cells
      adds exactly one, at the end. */
  lemma {:induction false} OneRowMore(rows: seq<seq<string>>, row: seq<string>)
    requires DataRows(rows).Some?
    ensures Skipped(row) ==> DataRows(rows + [row]) == DataRows(rows)
    ensures !Skipped(row) && |row| >= 7 ==>
      DataRows(rows + [row]) == Some(DataRows(rows).value + [FromRow(row)])
    ensures !Skipped(row) && |row| < 7 ==> DataRows(rows + [row]) == None
  {
    assert (rows + [row])[..|rows|] == rows;
    assert DataRows(rows).value + [] == DataRows(rows).value;
  }

  /** The rows that are not skipped, in order. */
  function KeptRows(rows: seq<seq<string>>): (kept: seq<seq<string>>)
    ensures forall k :: 0 <= k < |kept| ==> !Skipped(kept[k])
    decreases |rows|
  {
    if |rows| == 0 then []
    else KeptRows(rows[..|rows| - 1]) + (if Skipped(rows[|rows| - 1]) then [] else [rows[|rows| - 1]])
  }

  /** The reader succeeds exactly when every kept row has seven cells, and then
      the i-th benchmark is built from the i-th kept row. */
  lemma {:induction false} DataRowsByKept(rows: seq<seq<string>>)
    ensures DataRows(rows).Some? <==> forall k :: 0 <= k < |KeptRows(rows)| ==> |KeptRows(rows)[k]| >= 7
    ensures DataRows(rows).Some? ==>
      |DataRows(rows).value| == |KeptRows(rows)| &&
      forall k :: 0 <= k < |KeptRows(rows)| ==>
        |KeptRows(rows)[k]| >= 7 && DataRows(rows).value[k] == FromRow(KeptRows(rows)[k])
    decreases |rows|
  {
    if |rows| > 0 {
      var init, row := rows[..|rows| - 1], rows[|rows| - 1];
      DataRowsByKept(init);
      var kept := KeptRows(rows);
      assert DataRows(rows) == Concat(DataRows(init), RowBenchmarks(row));
      if Skipped(row) {
        assert kept == KeptRows(init) + [] == KeptRows(init);
        if DataRows(init).Some? {
          assert DataRows(init).value + [] == DataRows(init).value;
        }
      } else {
        assert kept == KeptRows(init) + [row];
        assert kept[|kept| - 1] == row;
        assert forall k :: 0 <= k < |KeptRows(init)| ==> kept[k] == KeptRows(init)[k];
      }
    }
  }
}
