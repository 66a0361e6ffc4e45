/** `getresult`: read the results CSV into the nested store
    implementation -> benchmark -> dataset -> core count -> samples, and the
    set of implementations seen. Failed runs are kept with the sample value
    -1. */
module AnalysisStore {
  import opened Wrappers
  import opened Strings
  import opened Dicts
  import opened Sorting
  import opened AnalysisLabels

  const RunFailed := "Benchmark failed to run"
  const CheckFailed := "Verification failed"

  type Samples = seq<real>
  /** implementation -> benchmark -> dataset -> core count -> samples */
  type Results = Dict<Dict<Dict<Dict<Samples>>>>

  /** What one data row contributes. */
  datatype Record = Record(impl: string, bench: string, dataset: string, cores: string,
                           values: Samples, timeCount: nat)

  /** A row is skipped, raises, or is read. */
  datatype RowRead = Skip | Fail | Read(rec: Record)

  /** The sample cells converted one by one: an empty cell is -1, any other
      goes through `float` (here `num`); `None` when `float` raises. */
  function Convert(time: seq<string>, num: string -> Option<real>): (r: Option<Samples>)
    ensures r.Some? ==> |r.value| == |time|
    decreases |time|
  {
    if |time| == 0 then Some([])
    else
      var prev := Convert(time[..|time| - 1], num);
      var v := time[|time| - 1];
      var x := if v == "" then Some(-1.0) else num(v);
      if prev.None? || x.None? then None else Some(prev.value + [x.value])
  }

  /** `num_time`: all -1 for a failed run or check, converted cells otherwise. */
  function SampleValues(time: seq<string>, err: string, num: string -> Option<real>): Option<Samples> {
    if err == CheckFailed || err == RunFailed then Some(seq(|time|, _ => -1.0))
    else Convert(time, num)
  }

  /** The sample cells: from TIME up to, not including, the last cell. */
  function TimeCells(row: seq<string>): seq<string> {
    if |row| - 1 > 10 then row[10..|row| - 1] else []
  }

  /** One iteration of the row loop. `Fail` is the exception raised on an
      empty row, a name with fewer than two '/', a row without ERROR MSG, or
      a cell `float` rejects. */
  function ReadRow(row: seq<string>, num: string -> Option<real>): RowRead {
    if |row| == 0 then Fail
    else if row[0] == "" || row[0] == "BENCHMARK" then Skip
    else
      var parts := Split(row[0], '/');
      if |parts| < 3 || |row| < 12 then Fail
      else
        var time := TimeCells(row);
        var vs := SampleValues(time, row[11], num);
        if vs.None? then Fail
        else Read(Record(GetImplNameArg(RawLabel(row[6], row[7], row[8], row[9])),
                         parts[1] + "-" + parts[2], Replace(row[2], '_', '-'), row[3],
                         vs.value, |time|))
  }

  /** The store, the implementations in the order first seen, and the
      number of sample cells of the last row read. */
  datatype Store = Store(results: Results, impls: seq<string>, lastTime: Option<nat>)

  /** `set_of_impl.add`. */
  function AddImpl(impls: seq<string>, impl: string): seq<string> {
    if impl in impls then impls else impls + [impl]
  }

  /** The nested assignment `list_of_results[i][b][d][c] = values`, creating
      the inner dicts on the way. */
  function Insert4(res: Results, r: Record): Results {
    var byBench := GetOr(res, r.impl, []);
    var byData := GetOr(byBench, r.bench, []);
    var byCores := GetOr(byData, r.dataset, []);
    Put(res, r.impl, Put(byBench, r.bench, Put(byData, r.dataset, Put(byCores, r.cores, r.values))))
  }

  /** `byBench[b][d][c]`, when present. */
  function Lookup3(byBench: Dict<Dict<Dict<Samples>>>, b: string, d: string, c: string): Option<Samples> {
    var l2 := Lookup(byBench, b);
    if l2.None? then None
    else
      var l3 := Lookup(l2.value, d);
      if l3.None? then None
      else Lookup(l3.value, c)
  }

  /** `list_of_results[i][b][d][c]`, when present. */
  function Lookup4(res: Results, i: string, b: string, d: string, c: string): Option<Samples> {
    var l1 := Lookup(res, i);
    if l1.None? then None else Lookup3(l1.value, b, d, c)
  }

  /** A later row with the same key overwrites the earlier samples; every
      other key keeps what it had. */
  lemma Insert4Lookup(res: Results, r: Record, i: string, b: string, d: string, c: string)
    ensures Lookup4(Insert4(res, r), i, b, d, c) ==
      if i == r.impl && b == r.bench && d == r.dataset && c == r.cores then Some(r.values)
      else Lookup4(res, i, b, d, c)
  {
    var byBench := GetOr(res, r.impl, []);
    var byData := GetOr(byBench, r.bench, []);
    var byCores := GetOr(byData, r.dataset, []);
    var cores' := Put(byCores, r.cores, r.values);
    var data' := Put(byData, r.dataset, cores');
    var bench' := Put(byBench, r.bench, data');
    if i != r.impl {
      assert Lookup(Insert4(res, r), i) == Lookup(res, i);
    } else {
      assert Lookup(Insert4(res, r), i) == Some(bench');
      assert Lookup(res, i).Some? ==> Lookup(res, i).value == byBench;
      if b != r.bench {
        assert Lookup(bench', b) == Lookup(byBench, b);
      } else {
        assert Lookup(bench', b) == Some(data');
        if d != r.dataset {
          assert Lookup(data', d) == Lookup(byData, d);
        } else {
          assert Lookup(data', d) == Some(cores');
        }
      }
    }
  }

  function Step(st: Store, row: seq<string>, num: string -> Option<real>): Option<Store> {
    match ReadRow(row, num)
    case Skip => Some(st)
    case Fail => None
    case Read(r) => Some(Store(Insert4(st.results, r), AddImpl(st.impls, r.impl), Some(r.timeCount)))
  }

  /** The row loop over all rows. */
  function Ingest(rows: seq<seq<string>>, num: string -> Option<real>): Option<Store>
    decreases |rows|
  {
    if |rows| == 0 then Some(Store([], [], None))
    else
      var prev := Ingest(rows[..|rows| - 1], num);
      if prev.None? then None else Step(prev.value, rows[|rows| - 1], num)
  }

  /** `getresult`'s three results; `None` also when no row was read, where
      `len(time)` names a variable never bound. */
  function GetResult(rows: seq<seq<string>>, num: string -> Option<real>): Option<(seq<string>, Results, nat)> {
    var st := Ingest(rows, num);
    if st.None? || st.value.lastTime.None? then None
    else Some((st.value.impls, st.value.results, st.value.lastTime.value))
  }

  /** The nested assignment as `getresult` performs it, level by level. */
  method StoreRecord(res: Results, r: Record) returns (res': Results)
    ensures res' == Insert4(res, r)
  {
    var listOfResults := res;
    if Lookup(listOfResults, r.impl).None? {
      listOfResults := Put(listOfResults, r.impl, []);
    }
    var byBench := Lookup(listOfResults, r.impl).value;
    ghost var byBench0 := byBench;
    assert byBench0 == GetOr(res, r.impl, []);
    if Lookup(byBench, r.bench).None? {
      byBench := Put(byBench, r.bench, Put([], r.dataset, []));
    }
    var byData := Lookup(byBench, r.bench).value;
    ghost var byData0 := byData;
    if Lookup(byData, r.dataset).None? {
      byData := Put(byData, r.dataset, []);
    }
    var byCores := Lookup(byData, r.dataset).value;
    assert byCores == GetOr(GetOr(byBench0, r.bench, []), r.dataset, []);
    byCores := Put(byCores, r.cores, r.values);
    PutTwice(byData0, r.dataset, [], byCores);
    byData := Put(byData, r.dataset, byCores);
    assert byData == Put(GetOr(byBench0, r.bench, []), r.dataset, byCores) by {
      if Lookup(byBench0, r.bench).None? {
        PutTwice([], r.dataset, [], byCores);
      }
    }
    PutTwice(byBench0, r.bench, Put([], r.dataset, []), byData);
    byBench := Put(byBench, r.bench, byData);
    PutTwice(res, r.impl, [], byBench);
    res' := Put(listOfResults, r.impl, byBench);
  }

  /** Creating a key and then overwriting it is writing it once. */
  lemma {:induction false} PutTwice<V>(d: Dict<V>, k: string, v: V, w: V)
    ensures Lookup(d, k).None? ==> Put(Put(d, k, v), k, w) == Put(d, k, w)
    decreases |d|
  {
    if |d| > 0 && d[0].0 != k {
      PutTwice(d[1..], k, v, w);
    }
  }

  /** `getresult`: the row loop, then the three results. */
  method ReadResults(rows: seq<seq<string>>, num: string -> Option<real>) returns (r: Option<(seq<string>, Results, nat)>)
    ensures r == GetResult(rows, num)
  {
    var listOfResults: Results := [];
    var setOfImpl: seq<string> := [];
    var time: Option<nat> := None;
    var i := 0;
    while i < |rows|
      invariant 0 <= i <= |rows|
      invariant Ingest(rows[..i], num) == Some(Store(listOfResults, setOfImpl, time))
    {
      assert rows[..i + 1][..i] == rows[..i];
      var read := ReadRow(rows[i], num);
      if read.Fail? {
        IngestFailSticks(rows, i + 1, num);
        return None;
      }
      if read.Read? {
        listOfResults := StoreRecord(listOfResults, read.rec);
        setOfImpl := AddImpl(setOfImpl, read.rec.impl);
        time := Some(read.rec.timeCount);
      }
      i := i + 1;
    }
    assert rows[..i] == rows;
    if time.None? {
      return None;
    }
    r := Some((setOfImpl, listOfResults, time.value));
  }

  /** Once a row raises, the whole read raises. */
  lemma {:induction false} IngestFailSticks(rows: seq<seq<string>>, n: nat, num: string -> Option<real>)
    requires n <= |rows| && Ingest(rows[..n], num).None?
    ensures Ingest(rows, num).None?
    decreases |rows| - n
  {
    if n < |rows| {
      assert rows[..n + 1][..n] == rows[..n];
      IngestFailSticks(rows, n + 1, num);
    } else {
      assert rows[..n] == rows;
    }
  }

  /** The implementations collected are exactly the store's top-level keys,
      in the same order, each once: the set and the dict never disagree. */
  lemma {:induction false} ImplsAreKeys(rows: seq<seq<string>>, num: string -> Option<real>)
    requires Ingest(rows, num).Some?
    ensures Keys(Ingest(rows, num).value.results) == Ingest(rows, num).value.impls
    ensures Distinct(Ingest(rows, num).value.impls)
    decreases |rows|
  {
    if |rows| > 0 {
      var init := rows[..|rows| - 1];
      ImplsAreKeys(init, num);
      match ReadRow(rows[|rows| - 1], num)
      case Read(rec) => InsertKeys(Ingest(init, num).value, rec);
      case _ =>
    }
  }

  lemma InsertKeys(st: Store, rec: Record)
    requires Keys(st.results) == st.impls && Distinct(st.impls)
    ensures Keys(Insert4(st.results, rec)) == AddImpl(st.impls, rec.impl)
    ensures Distinct(AddImpl(st.impls, rec.impl))
  {
  }

  /** Header rows and rows with a blank name are skipped. */
  lemma SkippedRows(row: seq<string>, num: string -> Option<real>)
    requires |row| > 0 && (row[0] == "" || row[0] == "BENCHMARK")
    ensures ReadRow(row, num) == Skip
  {
  }

  /** A row that reports a failed run or check keeps one -1 per sample cell,
      whatever the cells say. */
  lemma FailedRowSentinel(row: seq<string>, num: string -> Option<real>)
    requires |row| >= 12 && row[0] != "" && row[0] != "BENCHMARK" && |Split(row[0], '/')| >= 3
    requires row[11] == CheckFailed || row[11] == RunFailed
    ensures ReadRow(row, num).Read?
    ensures var rec := ReadRow(row, num).rec;
      |rec.values| == |row| - 11 && forall k :: 0 <= k < |rec.values| ==> rec.values[k] == -1.0
  {
  }

  /** Otherwise an empty cell reads as -1 and any other cell as `float` of it. */
  lemma {:induction false} ConvertCells(time: seq<string>, num: string -> Option<real>)
    ensures Convert(time, num).Some? <==> forall k :: 0 <= k < |time| && time[k] != "" ==> num(time[k]).Some?
    ensures Convert(time, num).Some? ==> forall k :: 0 <= k < |time| ==>
      Convert(time, num).value[k] == if time[k] == "" then -1.0 else num(time[k]).value
    decreases |time|
  {
    if |time| > 0 {
      var init := time[..|time| - 1];
      ConvertCells(init, num);
      assert forall k :: 0 <= k < |init| ==> init[k] == time[k];
    }
  }

  /** The key a row is filed under: benchmark "<dir>-<binary>" from
      "<suite>/<dir>/<binary>", dataset with '_' turned into '-', and the
      remapped configuration label. */
  lemma ReadRowKey(row: seq<string>, num: string -> Option<real>)
    requires ReadRow(row, num).Read?
    ensures var rec := ReadRow(row, num).rec; var parts := Split(row[0], '/');
      && |row| >= 12 && |parts| >= 3
      && rec.bench == parts[1] + "-" + parts[2]
      && |rec.dataset| == |row[2]|
      && (forall k :: 0 <= k < |row[2]| ==>
            rec.dataset[k] == (if row[2][k] == '_' then '-' else row[2][k]))
      && rec.impl == GetImplNameArg(RawLabel(row[6], row[7], row[8], row[9]))
      && rec.cores == row[3]
      && rec.timeCount == |row| - 11
  {
  }
}
