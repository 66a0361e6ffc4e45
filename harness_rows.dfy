/** `execute_benchmark`: for one benchmark and one dataset, one result row per
    core count, filled in place in a preallocated row and written to the
    results CSV, until a run fails. */
module HarnessRows {
  import opened Wrappers
  import opened Strings
  import opened Catalog
  import opened HarnessConfig

  /** Column positions of the results file (`ColName`). */
  const BenchmarkCol := 0
  const CompilesCol := 1
  const DatasetCol := 2
  const NumCoresCol := 3
  const StatusCol := 4
  const DisableNumaCol := 5
  const FrameworkCol := 6
  const SchedulerCol := 7
  const GrainSizeCol := 8
  const IgnoreGrainSizeCol := 9
  const TimeCol := 10
  const ErrorMsgCol := 11
  /** `len(results_file_categories)`. */
  const NumCols := 12

  const RunFailed := "Benchmark failed to run"
  const CheckFailed := "Verification failed"

  /** A results cell: text, a whole number (core count, grain size), or a
      sample as the text the run helper parsed. */
  datatype Cell = Text(s: string) | Count(n: nat) | Sample(v: string)

  /** The command-line options `execute_benchmark` reads. */
  datatype Options = Options(
    numTests: int,
    measureICache: bool,
    measurePromoted: bool,
    disableNuma: bool,
    lowering: Lowering,
    taskScheduler: string,
    finerGrainSize: int,
    noopt: int)

  /** What happened at one core count: the run's status and samples, and the
      check's status (consulted only after a correct run). */
  datatype Attempt = Attempt(run: RunStatus, samples: seq<string>, check: RunStatus)

  /** `[""] * k` has no cells when `k` is negative. */
  function RowWidth(o: Options): nat {
    var extra := if o.measurePromoted then 3 else if o.measureICache then 2 else 0;
    var k := NumCols + o.numTests + extra - 1;
    if k < 0 then 0 else k
  }

  /** The number of cells written from TIME on: one per sample after a
      correct run, `num_tests` after a failed one. */
  function TimeCount(o: Options, a: Attempt): nat {
    if a.run == Correct then |a.samples|
    else if o.numTests < 0 then 0 else o.numTests
  }

  /** The text put in ERROR MSG, if any. */
  function ErrorMsg(a: Attempt): Option<string> {
    if a.run != Correct then Some(RunFailed)
    else if a.check != Correct then Some(CheckFailed)
    else None
  }

  /** A row as `execute_benchmark` leaves it, whether it breaks after it, and
      the final value of `start_row`. */
  datatype RowOutcome = RowOutcome(row: seq<Cell>, failed: bool, startRow: int)

  /** Cell `i` of the row for one core count, given whether the name and the
      dataset are still to be written. */
  function CellAt(o: Options, b: Benchmark, writeName: bool, writeData: bool, dataSet: string,
                  cores: nat, a: Attempt, fw: string, i: nat): Cell
  {
    if i == BenchmarkCol then (if writeName then Text(b.name + "/" + b.binary) else Text(""))
    else if i == CompilesCol then (if writeName then Text("Yes") else Text(""))
    else if i == DatasetCol then (if writeData then Text(dataSet) else Text(""))
    else if i == NumCoresCol then Count(cores)
    else if i == StatusCol then
      Text(if a.run == Correct && a.check == Correct then RunStatusStr(Correct) else RunStatusStr(Incorrect))
    else if i == DisableNumaCol then Text(if o.disableNuma then "Yes" else "No")
    else if i == FrameworkCol then Text(fw)
    else if i == SchedulerCol then Text(o.taskScheduler)
    else if i == GrainSizeCol then Count(if o.finerGrainSize == 1 then 8 else 2048)
    else if i == IgnoreGrainSizeCol then Text(if o.noopt == 1 then "Yes" else "No")
    else if i == ErrorMsgCol && ErrorMsg(a).Some? then Text(ErrorMsg(a).value)
    else if i < TimeCol + TimeCount(o, a) then
      (if a.run == Correct && a.check == Correct then Sample(a.samples[i - TimeCol]) else Text("N/A"))
    else Text("")
  }

  /** One iteration of the core loop; `None` is the exception it raises: the
      row too short for a column written (IndexError) or a lowering without
      a label (AssertionError). */
  function BuildRow(o: Options, b: Benchmark, writeName: bool, writeData: bool, dataSet: string,
                    cores: nat, a: Attempt): Option<RowOutcome>
  {
    var w := RowWidth(o);
    var fw := FrameworkLabel(o.lowering);
    if w <= IgnoreGrainSizeCol || fw.None? || TimeCol + TimeCount(o, a) > w
       || (ErrorMsg(a).Some? && w <= ErrorMsgCol) then None
    else
      Some(RowOutcome(seq(w, i requires 0 <= i < w => CellAt(o, b, writeName, writeData, dataSet, cores, a, fw.value, i)),
                      a.run != Correct, TimeCol + TimeCount(o, a)))
  }

  /** The cells written from TIME on, in order. */
  function TimeCells(o: Options, a: Attempt): (r: seq<Cell>)
    ensures |r| == TimeCount(o, a)
  {
    if a.run == Correct && a.check == Correct then seq(|a.samples|, k requires 0 <= k < |a.samples| => Sample(a.samples[k]))
    else seq(TimeCount(o, a), _ => Text("N/A"))
  }

  /** Columns BENCHMARK to IGNORE_USERS_PFORGRAINSIZE, with STATUS set to
      `status`; nothing from TIME on is touched. */
  method WriteConfig(row: array<Cell>, o: Options, b: Benchmark, writeName: bool, writeData: bool,
                     dataSet: string, cores: nat, a: Attempt, fw: string, status: string)
    requires row.Length >= TimeCol
    requires forall i :: 0 <= i < TimeCol ==> row[i] == Text("")
    modifies row
    ensures forall i :: 0 <= i < TimeCol ==>
      row[i] == if i == StatusCol then Text(status) else CellAt(o, b, writeName, writeData, dataSet, cores, a, fw, i)
    ensures forall i :: TimeCol <= i < row.Length ==> row[i] == old(row[i])
  {
    WriteKeys(row, b, writeName, writeData, dataSet, cores);
    WriteSettings(row, o, fw, status);
    assert forall i :: 0 <= i < StatusCol ==>
      (CellAt(o, b, writeName, writeData, dataSet, cores, a, fw, i)
       == if i == BenchmarkCol then (if writeName then Text(b.name + "/" + b.binary) else Text(""))
          else if i == CompilesCol then (if writeName then Text("Yes") else Text(""))
          else if i == DatasetCol then (if writeData then Text(dataSet) else Text(""))
          else Count(cores));
  }

  /** BENCHMARK and COMPILES when the name is written, DATASET when the data
      set is, and NUM_CORES always. */
  method WriteKeys(row: array<Cell>, b: Benchmark, writeName: bool, writeData: bool, dataSet: string, cores: nat)
    requires row.Length >= TimeCol
    requires forall i :: 0 <= i < StatusCol ==> row[i] == Text("")
    modifies row
    ensures forall i :: 0 <= i < StatusCol ==>
      (row[i] == if i == BenchmarkCol then (if writeName then Text(b.name + "/" + b.binary) else Text(""))
                 else if i == CompilesCol then (if writeName then Text("Yes") else Text(""))
                 else if i == DatasetCol then (if writeData then Text(dataSet) else Text(""))
                 else Count(cores))
    ensures forall i :: StatusCol <= i < row.Length ==> row[i] == old(row[i])
  {
    if writeName {
      row[BenchmarkCol] := Text(b.name + "/" + b.binary);
      row[CompilesCol] := Text("Yes");
    }
    if writeData {
      row[DatasetCol] := Text(dataSet);
    }
    row[NumCoresCol] := Count(cores);
  }

  /** STATUS and the configuration columns, each written unconditionally. */
  method WriteSettings(row: array<Cell>, o: Options, fw: string, status: string)
    requires row.Length >= TimeCol
    modifies row
    ensures row[StatusCol] == Text(status)
    ensures row[DisableNumaCol] == Text(if o.disableNuma then "Yes" else "No")
    ensures row[FrameworkCol] == Text(fw)
    ensures row[SchedulerCol] == Text(o.taskScheduler)
    ensures row[GrainSizeCol] == Count(if o.finerGrainSize == 1 then 8 else 2048)
    ensures row[IgnoreGrainSizeCol] == Text(if o.noopt == 1 then "Yes" else "No")
    ensures forall i :: 0 <= i < row.Length && !(StatusCol <= i < TimeCol) ==> row[i] == old(row[i])
  {
    row[DisableNumaCol] := Text("No");
    if o.disableNuma {
      row[DisableNumaCol] := Text("Yes");
    }
    row[FrameworkCol] := Text(fw);
    row[SchedulerCol] := Text(o.taskScheduler);
    row[GrainSizeCol] := Count(2048);
    if o.finerGrainSize == 1 {
      row[GrainSizeCol] := Count(8);
    }
    row[IgnoreGrainSizeCol] := Text("No");
    if o.noopt == 1 {
      row[IgnoreGrainSizeCol] := Text("Yes");
    }
    row[StatusCol] := Text(status);
  }

  /** The `for res in ...` loops: write `cells` one by one from TIME on,
      advancing `start_row`; `ok` is false when a write falls off the row. */
  method WriteTimes(row: array<Cell>, cells: seq<Cell>) returns (ok: bool, startRow: int)
    requires row.Length >= TimeCol
    modifies row
    ensures ok <==> TimeCol + |cells| <= row.Length
    ensures ok ==> startRow == TimeCol + |cells|
    ensures ok ==> forall i :: 0 <= i < row.Length ==>
      row[i] == if TimeCol <= i < TimeCol + |cells| then cells[i - TimeCol] else old(row[i])
  {
    startRow := TimeCol;
    var j := 0;
    while j < |cells|
      invariant 0 <= j <= |cells| && startRow == TimeCol + j <= row.Length
      invariant forall i :: 0 <= i < row.Length ==>
        row[i] == if TimeCol <= i < startRow then cells[i - TimeCol] else old(row[i])
    {
      if startRow >= row.Length {
        return false, startRow;
      }
      row[startRow] := cells[j];
      startRow := startRow + 1;
      j := j + 1;
    }
    ok := true;
  }

  /** Fill one row in place, column by column, as the loop body does. */
  method FillRow(o: Options, b: Benchmark, writeName: bool, writeData: bool, dataSet: string,
                 cores: nat, a: Attempt) returns (r: Option<RowOutcome>)
    ensures r == BuildRow(o, b, writeName, writeData, dataSet, cores, a)
  {
    var w := RowWidth(o);
    var fw := FrameworkLabel(o.lowering);
    var row := new Cell[w](_ => Text(""));
    // Every iteration writes columns 3 to 9, so a row of ten cells or fewer
    // raises before anything else can go wrong; so does a missing label.
    if w <= IgnoreGrainSizeCol || fw.None? {
      return None;
    }
    WriteConfig(row, o, b, writeName, writeData, dataSet, cores, a, fw.value, RunStatusStr(a.run));
    var ok, startRow := WriteTimes(row, TimeCells(o, a));
    if !ok {
      return None;
    }
    if a.run != Correct || a.check != Correct {
      row[StatusCol] := Text(RunStatusStr(Incorrect));
      if ErrorMsgCol >= w {
        return None;
      }
      row[ErrorMsgCol] := Text(if a.run != Correct then RunFailed else CheckFailed);
    }
    forall i | 0 <= i < w
      ensures row[i] == CellAt(o, b, writeName, writeData, dataSet, cores, a, fw.value, i)
    {
    }
    assert row[..] == BuildRow(o, b, writeName, writeData, dataSet, cores, a).value.row;
    r := Some(RowOutcome(row[..], a.run != Correct, startRow));
  }

  /** What `execute_benchmark` leaves behind: the rows handed to the CSV
      writer and the returned `written_row`, or the rows written before it
      raised. */
  datatype Emitted = Finished(rows: seq<seq<Cell>>, writtenRow: int) | Crashed(rows: seq<seq<Cell>>)

  /** `e` with `ws` written before it. */
  function WithPrefix(ws: seq<seq<Cell>>, e: Emitted): Emitted {
    match e
    case Finished(rows, n) => Finished(ws + rows, n)
    case Crashed(rows) => Crashed(ws + rows)
  }

  /** The core loop from some core count on. `last` is the `start_row` of
      the previous iteration; with no iteration at all the final
      `written_row = start_row` raises. */
  function ExecuteFrom(o: Options, b: Benchmark, dataSet: string, writeName: bool, writeData: bool,
                       cores: seq<nat>, attempts: seq<Attempt>, last: Option<int>): Emitted
    requires |attempts| == |cores|
    decreases |cores|
  {
    if |cores| == 0 then (if last.None? then Crashed([]) else Finished([], last.value))
    else
      var r := BuildRow(o, b, writeName, writeData, dataSet, cores[0], attempts[0]);
      if r.None? then Crashed([])
      else if r.value.failed then Finished([], r.value.startRow)
      else WithPrefix([r.value.row], ExecuteFrom(o, b, dataSet, false, false, cores[1..], attempts[1..], Some(r.value.startRow)))
  }

  /** The whole call: the name is written on the first row when asked for,
      the dataset always on the first row. */
  function Execute(o: Options, b: Benchmark, dataSet: string, writeTestName: bool,
                   cores: seq<nat>, attempts: seq<Attempt>): Emitted
    requires |attempts| == |cores|
  {
    ExecuteFrom(o, b, dataSet, writeTestName, true, cores, attempts, None)
  }

  /** `execute_benchmark`: `attempts[k]` is what running and checking the
      benchmark on `testCores[k]` cores gives. */
  method ExecuteBenchmark(b: Benchmark, o: Options, testCores: seq<nat>, attempts: seq<Attempt>,
                          dataSet: string, writeTestName: bool) returns (e: Emitted)
    requires |attempts| == |testCores|
    ensures e == Execute(o, b, dataSet, writeTestName, testCores, attempts)
  {
    var writeName := writeTestName;
    var writeData := true;
    var written: seq<seq<Cell>> := [];
    var startRow: Option<int> := None;
    var i := 0;
    while i < |testCores|
      invariant 0 <= i <= |testCores|
      invariant Execute(o, b, dataSet, writeTestName, testCores, attempts)
        == WithPrefix(written, ExecuteFrom(o, b, dataSet, writeName, writeData, testCores[i..], attempts[i..], startRow))
      invariant i > 0 ==> !writeName && !writeData && startRow.Some?
    {
      var r := FillRow(o, b, writeName, writeData, dataSet, testCores[i], attempts[i]);
      writeName, writeData := false, false;
      assert testCores[i..][1..] == testCores[i + 1..];
      assert attempts[i..][1..] == attempts[i + 1..];
      if r.None? {
        return Crashed(written);
      }
      startRow := Some(r.value.startRow);
      if r.value.failed {
        assert written + [] == written;
        return Finished(written, r.value.startRow);
      }
      var rest := ExecuteFrom(o, b, dataSet, false, false, testCores[i + 1..], attempts[i + 1..], startRow);
      assert written + ([r.value.row] + rest.rows) == (written + [r.value.row]) + rest.rows;
      written := written + [r.value.row];
      i := i + 1;
    }
    if startRow.None? {
      assert written + [] == written;
      return Crashed(written);
    }
    assert written + [] == written;
    e := Finished(written, startRow.value);
  }

  /** Width and configuration columns of every row built. */
  lemma RowConfig(o: Options, b: Benchmark, writeName: bool, writeData: bool, dataSet: string,
                  cores: nat, a: Attempt)
    requires BuildRow(o, b, writeName, writeData, dataSet, cores, a).Some?
    ensures var row := BuildRow(o, b, writeName, writeData, dataSet, cores, a).value.row;
      && |row| == NumCols + o.numTests - 1 + (if o.measurePromoted then 3 else if o.measureICache then 2 else 0)
      && (row[BenchmarkCol] != Text("") <==> writeName)
      && (row[CompilesCol] == Text("Yes") <==> writeName)
      && (writeData ==> row[DatasetCol] == Text(dataSet))
      && (!writeData ==> row[DatasetCol] == Text(""))
      && row[NumCoresCol] == Count(cores)
      && (row[DisableNumaCol] == Text("Yes") <==> o.disableNuma)
      && (row[DisableNumaCol] == Text("No") <==> !o.disableNuma)
      && Some(row[FrameworkCol].s) == FrameworkLabel(o.lowering)
      && row[SchedulerCol] == Text(o.taskScheduler)
      && (row[GrainSizeCol] == Count(8) <==> o.finerGrainSize == 1)
      && (row[GrainSizeCol] == Count(2048) <==> o.finerGrainSize != 1)
      && (row[IgnoreGrainSizeCol] == Text("Yes") <==> o.noopt == 1)
      && (row[IgnoreGrainSizeCol] == Text("No") <==> o.noopt != 1)
  {
    var row := BuildRow(o, b, writeName, writeData, dataSet, cores, a).value.row;
    assert row[BenchmarkCol] != Text("") <==> writeName by {
      if writeName {
        assert |b.name + "/" + b.binary| > 0;
      }
    }
  }

  /** A correct run that fails its check: one N/A per sample, STATUS
      Incorrect, and ERROR MSG "Verification failed", which lands on the
      second time cell; the loop goes on. */
  lemma CheckFailedRow(o: Options, b: Benchmark, writeName: bool, writeData: bool, dataSet: string,
                       cores: nat, a: Attempt)
    requires a.run == Correct && a.check != Correct
    requires BuildRow(o, b, writeName, writeData, dataSet, cores, a).Some?
    ensures var r := BuildRow(o, b, writeName, writeData, dataSet, cores, a).value;
      && !r.failed && r.startRow == TimeCol + |a.samples|
      && r.row[StatusCol] == Text("Incorrect")
      && r.row[ErrorMsgCol] == Text("Verification failed")
      && (forall k :: TimeCol <= k < TimeCol + |a.samples| && k != ErrorMsgCol ==> r.row[k] == Text("N/A"))
      && (forall k :: TimeCol + |a.samples| <= k < |r.row| && k != ErrorMsgCol ==> r.row[k] == Text(""))
  {
  }

  /** A run that is not correct, timeout included: `num_tests` N/A cells,
      STATUS Incorrect, ERROR MSG "Benchmark failed to run", and the loop
      stops. */
  lemma RunFailedRow(o: Options, b: Benchmark, writeName: bool, writeData: bool, dataSet: string,
                     cores: nat, a: Attempt)
    requires a.run != Correct
    requires BuildRow(o, b, writeName, writeData, dataSet, cores, a).Some?
    ensures var r := BuildRow(o, b, writeName, writeData, dataSet, cores, a).value;
      && r.failed && r.startRow == TimeCol + (if o.numTests < 0 then 0 else o.numTests)
      && r.row[StatusCol] == Text("Incorrect")
      && r.row[ErrorMsgCol] == Text("Benchmark failed to run")
      && (forall k :: TimeCol <= k < r.startRow && k != ErrorMsgCol ==> r.row[k] == Text("N/A"))
  {
  }

  /** A correct, checked run puts its samples in order from TIME on. */
  lemma CorrectRow(o: Options, b: Benchmark, writeName: bool, writeData: bool, dataSet: string,
                   cores: nat, a: Attempt)
    requires a.run == Correct && a.check == Correct
    ensures BuildRow(o, b, writeName, writeData, dataSet, cores, a).Some?
      <==> FrameworkLabel(o.lowering).Some? && RowWidth(o) > IgnoreGrainSizeCol && TimeCol + |a.samples| <= RowWidth(o)
    ensures BuildRow(o, b, writeName, writeData, dataSet, cores, a).Some? ==>
      var r := BuildRow(o, b, writeName, writeData, dataSet, cores, a).value;
      && !r.failed && r.row[StatusCol] == Text("Correct")
      && (forall k :: 0 <= k < |a.samples| ==> r.row[TimeCol + k] == Sample(a.samples[k]))
  {
  }

  /** A timeout is written exactly like any other failed run. */
  lemma TimeoutLikeIncorrect(o: Options, b: Benchmark, writeName: bool, writeData: bool, dataSet: string,
                             cores: nat, s1: seq<string>, c1: RunStatus, s2: seq<string>, c2: RunStatus)
    ensures BuildRow(o, b, writeName, writeData, dataSet, cores, Attempt(Timeout, s1, c1))
         == BuildRow(o, b, writeName, writeData, dataSet, cores, Attempt(Incorrect, s2, c2))
  {
    var w := RowWidth(o);
    var t, i := Attempt(Timeout, s1, c1), Attempt(Incorrect, s2, c2);
    var fw := FrameworkLabel(o.lowering);
    if BuildRow(o, b, writeName, writeData, dataSet, cores, t).Some? {
      forall k | 0 <= k < w
        ensures CellAt(o, b, writeName, writeData, dataSet, cores, t, fw.value, k)
             == CellAt(o, b, writeName, writeData, dataSet, cores, i, fw.value, k)
      {
      }
      assert BuildRow(o, b, writeName, writeData, dataSet, cores, t).value.row
          == BuildRow(o, b, writeName, writeData, dataSet, cores, i).value.row;
    }
  }

  /** The rows emitted from some core count on: each comes from a correct run
      and is the row built for that core count (name and dataset only on
      the first); the loop stops right after the first run that is not
      correct, and then `written_row` is that row's `start_row`. */
  lemma {:induction false} ExecuteFromRows(o: Options, b: Benchmark, dataSet: string, writeName: bool, writeData: bool,
                                           cores: seq<nat>, attempts: seq<Attempt>, last: Option<int>)
    requires |attempts| == |cores|
    ensures var e := ExecuteFrom(o, b, dataSet, writeName, writeData, cores, attempts, last);
      && |e.rows| <= |cores|
      && (forall k :: 0 <= k < |e.rows| ==>
            attempts[k].run == Correct
            && BuildRow(o, b, k == 0 && writeName, k == 0 && writeData, dataSet, cores[k], attempts[k]).Some?
            && e.rows[k] == BuildRow(o, b, k == 0 && writeName, k == 0 && writeData, dataSet, cores[k], attempts[k]).value.row)
      && (e.Finished? && |e.rows| < |cores| ==>
            attempts[|e.rows|].run != Correct
            && e.writtenRow == TimeCol + TimeCount(o, attempts[|e.rows|]))
    decreases |cores|
  {
    if |cores| > 0 {
      var r := BuildRow(o, b, writeName, writeData, dataSet, cores[0], attempts[0]);
      if r.Some? && !r.value.failed {
        var tail := ExecuteFrom(o, b, dataSet, false, false, cores[1..], attempts[1..], Some(r.value.startRow));
        ExecuteFromRows(o, b, dataSet, false, false, cores[1..], attempts[1..], Some(r.value.startRow));
        var e := WithPrefix([r.value.row], tail);
        forall k | 1 <= k < |e.rows|
          ensures e.rows[k] == tail.rows[k - 1]
          ensures cores[k] == cores[1..][k - 1] && attempts[k] == attempts[1..][k - 1]
        {
        }
      }
    }
  }

  /** So only rows after the first core count can lack the benchmark name
      and dataset: every later row has both cells blank. */
  lemma LaterRowsBlank(o: Options, b: Benchmark, dataSet: string, writeTestName: bool,
                       cores: seq<nat>, attempts: seq<Attempt>, k: nat)
    requires |attempts| == |cores|
    requires 1 <= k < |Execute(o, b, dataSet, writeTestName, cores, attempts).rows|
    ensures var row := Execute(o, b, dataSet, writeTestName, cores, attempts).rows[k];
      |row| > DatasetCol && row[BenchmarkCol] == Text("") && row[DatasetCol] == Text("")
  {
    ExecuteFromRows(o, b, dataSet, writeTestName, true, cores, attempts, None);
  }

  /** The failing row itself is never written: when the loop stops at a run
      that is not correct, no row of that core count or any later one is in
      the output. */
  lemma FailingRowNotWritten(o: Options, b: Benchmark, dataSet: string, writeTestName: bool,
                             cores: seq<nat>, attempts: seq<Attempt>, k: nat)
    requires |attempts| == |cores|
    requires k < |cores| && attempts[k].run != Correct
    ensures |Execute(o, b, dataSet, writeTestName, cores, attempts).rows| <= k
  {
    ExecuteFromRows(o, b, dataSet, writeTestName, true, cores, attempts, None);
  }
}
