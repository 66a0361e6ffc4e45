/** `process_results`: the comparison table. One header row, then one row per
    (benchmark, dataset, core count) the baseline implementation has, giving
    the baseline's value and every other implementation's improvement over
    it, then the Min, Geomean and Max rows per implementation. Numbers are
    kept as reals; their text form is left to the renderer. */
module AnalysisTable {
  import opened Wrappers
  import opened Strings
  import opened Dicts
  import opened Sorting
  import opened AnalysisLabels
  import opened AnalysisStore

  /** A table cell: text, a number, a number followed by the percent sign,
      or the geometric mean of a list of factors turned back into a percent. */
  datatype Cell = Label(s: string) | Num(x: real) | NumPct(x: real, perc: string) | GeoPct(factors: seq<real>, perc: string)

  const NA := Label("N/A")
  const BaselineLabel := "OpenCilk+PBBS+2048+cg"

  /** The percent sign, escaped for LaTeX. */
  function Perc(tex: bool): string {
    if tex then "\\%" else "%"
  }

  /** The implementations that get a column, in the order given. */
  function Columns(impls: seq<string>, baseline: string, tex: bool): (r: seq<string>)
    ensures |r| <= |impls|
    ensures forall x :: x in r <==> x in impls && !IgnoreImpl(x, baseline, tex)
    decreases |impls|
  {
    if |impls| == 0 then []
    else
      var last := impls[|impls| - 1];
      Columns(impls[..|impls| - 1], baseline, tex) + (if IgnoreImpl(last, baseline, tex) then [] else [last])
  }

  // ---------------------------------------------------------------- values

  /** Python's `s[j]`: negative indexes count from the end; `None` is the
      IndexError. */
  function PyIndex(s: seq<real>, j: int): Option<real> {
    if 0 <= j < |s| then Some(s[j])
    else if -|s| <= j < 0 then Some(s[|s| + j])
    else None
  }

  function Sum(xs: seq<real>): real
    decreases |xs|
  {
    if |xs| == 0 then 0.0 else Sum(xs[..|xs| - 1]) + xs[|xs| - 1]
  }

  /** The value compared for one implementation: the miss rate of the last
      two of `samples` cells in cache mode, otherwise the mean of the first
      `samples` values. `None` is the exception raised (an index out of
      range, a division by zero, the mean of nothing). */
  function Representative(vs: Samples, samples: nat, icache: bool): Option<real> {
    if icache then
      var m := PyIndex(vs, samples - 2);
      var h := PyIndex(vs, samples - 1);
      if m.None? || h.None? then None else MissRate(m.value, h.value)
    else
      var n := if samples < |vs| then samples else |vs|;
      if n == 0 then None else Some(Sum(vs[..n]) / (n as real))
  }

  function Abs(x: real): real {
    if x < 0.0 then -x else x
  }

  /** The improvement of `o` over the baseline `b`: percent of time saved, or
      the distance between miss rates in cache mode. */
  function Improvement(b: real, o: real, icache: bool): real
    requires b > 0.0
  {
    if icache then Abs(b - o) else (b - o) / b * 100.0
  }

  /** An implementation's cell: N/A unless both values are positive. */
  function CompareCell(b: real, o: real, icache: bool, perc: string): Cell {
    if b <= 0.0 || o <= 0.0 then NA else NumPct(Improvement(b, o, icache), perc)
  }

  // ---------------------------------------------------------------- statistics

  /** `min_res`, `max_res` and `geomean_res`. */
  datatype Stats = Stats(minRes: Dict<real>, maxRes: Dict<real>, geos: Dict<seq<real>>)

  const NoStats := Stats([], [], [])

  /** Record one numeric improvement of `impl`. */
  function Track(st: Stats, impl: string, imp: real): Stats {
    var mx := Lookup(st.maxRes, impl);
    var mn := Lookup(st.minRes, impl);
    Stats(
      if mn.None? || imp < mn.value then Put(st.minRes, impl, imp) else st.minRes,
      if mx.None? || imp > mx.value then Put(st.maxRes, impl, imp) else st.maxRes,
      Put(st.geos, impl, GetOr(st.geos, impl, []) + [imp / 100.0 + 1.0]))
  }

  // ---------------------------------------------------------------- rows

  /** What the table is built from: the store, the sorted implementations,
      the sample count, the two modes and the baseline's name. */
  datatype Ctx = Ctx(res: Results, impls: seq<string>, samples: nat, tex: bool, icache: bool, baseline: string)

  /** The cells of the implementations for one row, and the statistics after
      them. */
  datatype Cells = Cells(cells: seq<Cell>, stats: Stats)

  /** One pass of the implementation loop for the key triple. */
  function ImplStep(c: Ctx, k1: string, k2: string, k3: string, b: real, impl: string, acc: Cells): Option<Cells> {
    if IgnoreImpl(impl, c.baseline, c.tex) then Some(acc)
    else
      var byImpl := Lookup(c.res, impl);
      if byImpl.None? then None
      else
        var other := Lookup3(byImpl.value, k1, k2, k3);
        if other.None? then Some(acc)
        else
          var o := Representative(other.value, c.samples, c.icache);
          if o.None? then None
          else
            var cell := CompareCell(b, o.value, c.icache, Perc(c.tex));
            Some(Cells(acc.cells + [cell], if cell.NumPct? then Track(acc.stats, impl, cell.x) else acc.stats))
  }

  function ImplCells(c: Ctx, k1: string, k2: string, k3: string, b: real, impls: seq<string>, st: Stats): Option<Cells>
    decreases |impls|
  {
    if |impls| == 0 then Some(Cells([], st))
    else
      var prev := ImplCells(c, k1, k2, k3, b, impls[..|impls| - 1], st);
      if prev.None? then None else ImplStep(c, k1, k2, k3, b, impls[|impls| - 1], prev.value)
  }

  /** The rows built so far and the statistics. */
  datatype Acc = Acc(rows: seq<seq<Cell>>, stats: Stats)

  /** The row of one key triple, appended. */
  function TripleStep(c: Ctx, k1: string, k2: string, k3: string, acc: Acc): Option<Acc> {
    var bs := Lookup4(c.res, c.baseline, k1, k2, k3);
    if bs.None? then None
    else
      var b := Representative(bs.value, c.samples, c.icache);
      if b.None? then None
      else
        var baseCell := if b.value < 0.0 then NA else Num(b.value);
        var cs := ImplCells(c, k1, k2, k3, b.value, c.impls, acc.stats);
        if cs.None? then None
        else Some(Acc(acc.rows + [[Label(k1), Label(k2), Label(k3), baseCell] + cs.value.cells], cs.value.stats))
  }

  function CoresRows(c: Ctx, k1: string, k2: string, k3s: seq<string>, acc: Acc): Option<Acc>
    decreases |k3s|
  {
    if |k3s| == 0 then Some(acc)
    else
      var prev := CoresRows(c, k1, k2, k3s[..|k3s| - 1], acc);
      if prev.None? then None else TripleStep(c, k1, k2, k3s[|k3s| - 1], prev.value)
  }

  /** `list_of_results[baseline][k1]`. */
  function BaselineBench(c: Ctx, k1: string): Option<Dict<Dict<Samples>>> {
    var top := Lookup(c.res, c.baseline);
    if top.None? then None else Lookup(top.value, k1)
  }

  function DatasetStep(c: Ctx, k1: string, k2: string, acc: Acc): Option<Acc> {
    var byBench := BaselineBench(c, k1);
    if byBench.None? then None
    else
      var byCores := Lookup(byBench.value, k2);
      if byCores.None? then None else CoresRows(c, k1, k2, Keys(byCores.value), acc)
  }

  function DatasetRows(c: Ctx, k1: string, k2s: seq<string>, acc: Acc): Option<Acc>
    decreases |k2s|
  {
    if |k2s| == 0 then Some(acc)
    else
      var prev := DatasetRows(c, k1, k2s[..|k2s| - 1], acc);
      if prev.None? then None else DatasetStep(c, k1, k2s[|k2s| - 1], prev.value)
  }

  function BenchStep(c: Ctx, k1: string, acc: Acc): Option<Acc> {
    var byBench := BaselineBench(c, k1);
    if byBench.None? then None else DatasetRows(c, k1, Keys(byBench.value), acc)
  }

  function BenchRows(c: Ctx, k1s: seq<string>, acc: Acc): Option<Acc>
    decreases |k1s|
  {
    if |k1s| == 0 then Some(acc)
    else
      var prev := BenchRows(c, k1s[..|k1s| - 1], acc);
      if prev.None? then None else BenchStep(c, k1s[|k1s| - 1], prev.value)
  }

  // ---------------------------------------------------------------- header, trailer

  /** The header cells after the fixed four, one per column. */
  function HeaderCells(impls: seq<string>, baseline: string, tex: bool): seq<Cell>
    decreases |impls|
  {
    if |impls| == 0 then []
    else
      var last := impls[|impls| - 1];
      HeaderCells(impls[..|impls| - 1], baseline, tex)
        + (if IgnoreImpl(last, baseline, tex) then [] else [Label(last + " (" + Perc(tex) + ")")])
  }

  function Header(c: Ctx): seq<Cell> {
    [Label("Benchmark"), Label("Dataset"), Label("Num Cores"),
     Label(c.baseline + if c.icache then Perc(c.tex) else "(s)")]
      + HeaderCells(c.impls, c.baseline, c.tex)
  }

  datatype TrailerKind = MinRow | GeoRow | MaxRow

  function TrailerName(k: TrailerKind): string {
    match k
    case MinRow => "Min"
    case GeoRow => "Geomean"
    case MaxRow => "Max"
  }

  /** One trailer cell; `None` is the KeyError for an implementation that
      never had a numeric cell. */
  function TrailerCell(k: TrailerKind, st: Stats, impl: string, perc: string): Option<Cell> {
    match k
    case MinRow => var v := Lookup(st.minRes, impl); if v.None? then None else Some(NumPct(v.value, perc))
    case GeoRow => var v := Lookup(st.geos, impl); if v.None? then None else Some(GeoPct(v.value, perc))
    case MaxRow => var v := Lookup(st.maxRes, impl); if v.None? then None else Some(NumPct(v.value, perc))
  }

  function TrailerCells(k: TrailerKind, c: Ctx, st: Stats, impls: seq<string>): Option<seq<Cell>>
    decreases |impls|
  {
    if |impls| == 0 then Some([])
    else
      var prev := TrailerCells(k, c, st, impls[..|impls| - 1]);
      var last := impls[|impls| - 1];
      if prev.None? then None
      else if IgnoreImpl(last, c.baseline, c.tex) then prev
      else
        var cell := TrailerCell(k, st, last, Perc(c.tex));
        if cell.None? then None else Some(prev.value + [cell.value])
  }

  function TrailerRow(k: TrailerKind, c: Ctx, st: Stats): Option<seq<Cell>> {
    var cells := TrailerCells(k, c, st, c.impls);
    if cells.None? then None
    else Some([Label(TrailerName(k)), Label(""), Label(""), Label("")] + cells.value)
  }

  /** The context `process_results` sets up. */
  function MakeCtx(setOfImpl: seq<string>, res: Results, samples: nat, tex: bool, icache: bool): Ctx {
    Ctx(res, Sort(setOfImpl), samples, tex, icache, GetImplNameArg(BaselineLabel))
  }

  /** The body rows and the statistics gathered over them; `None` is any
      exception raised on the way, including the KeyError when the baseline
      has no results. */
  function Body(c: Ctx): Option<Acc> {
    var top := Lookup(c.res, c.baseline);
    if top.None? then None
    else BenchRows(c, Sort(Keys(top.value)), Acc([], NoStats))
  }

  /** Header, body and the three trailer rows. */
  function Table(c: Ctx): Option<seq<seq<Cell>>> {
    var body := Body(c);
    if body.None? then None
    else
      var mn := TrailerRow(MinRow, c, body.value.stats);
      var gm := TrailerRow(GeoRow, c, body.value.stats);
      var mx := TrailerRow(MaxRow, c, body.value.stats);
      if mn.None? || gm.None? || mx.None? then None
      else Some([Header(c)] + body.value.rows + [mn.value, gm.value, mx.value])
  }

  /** The whole table `process_results` builds. */
  function ProcessResultsSpec(setOfImpl: seq<string>, res: Results, samples: nat, tex: bool, icache: bool): Option<seq<seq<Cell>>> {
    Table(MakeCtx(setOfImpl, res, samples, tex, icache))
  }

  // ---------------------------------------------------------------- loops

  /** Once a step raises, the rest of each loop is never reached. */
  lemma {:induction false} ImplCellsFailSticks(c: Ctx, k1: string, k2: string, k3: string, b: real,
                                               impls: seq<string>, st: Stats, n: nat)
    requires n <= |impls| && ImplCells(c, k1, k2, k3, b, impls[..n], st).None?
    ensures ImplCells(c, k1, k2, k3, b, impls, st).None?
    decreases |impls| - n
  {
    if n < |impls| {
      assert impls[..n + 1][..n] == impls[..n];
      ImplCellsFailSticks(c, k1, k2, k3, b, impls, st, n + 1);
    } else {
      assert impls[..n] == impls;
    }
  }

  lemma {:induction false} CoresRowsFailSticks(c: Ctx, k1: string, k2: string, ks: seq<string>, acc: Acc, n: nat)
    requires n <= |ks| && CoresRows(c, k1, k2, ks[..n], acc).None?
    ensures CoresRows(c, k1, k2, ks, acc).None?
    decreases |ks| - n
  {
    if n < |ks| {
      assert ks[..n + 1][..n] == ks[..n];
      CoresRowsFailSticks(c, k1, k2, ks, acc, n + 1);
    } else {
      assert ks[..n] == ks;
    }
  }

  lemma {:induction false} DatasetRowsFailSticks(c: Ctx, k1: string, ks: seq<string>, acc: Acc, n: nat)
    requires n <= |ks| && DatasetRows(c, k1, ks[..n], acc).None?
    ensures DatasetRows(c, k1, ks, acc).None?
    decreases |ks| - n
  {
    if n < |ks| {
      assert ks[..n + 1][..n] == ks[..n];
      DatasetRowsFailSticks(c, k1, ks, acc, n + 1);
    } else {
      assert ks[..n] == ks;
    }
  }

  lemma {:induction false} BenchRowsFailSticks(c: Ctx, ks: seq<string>, acc: Acc, n: nat)
    requires n <= |ks| && BenchRows(c, ks[..n], acc).None?
    ensures BenchRows(c, ks, acc).None?
    decreases |ks| - n
  {
    if n < |ks| {
      assert ks[..n + 1][..n] == ks[..n];
      BenchRowsFailSticks(c, ks, acc, n + 1);
    } else {
      assert ks[..n] == ks;
    }
  }

  lemma {:induction false} TrailerCellsFailSticks(k: TrailerKind, c: Ctx, st: Stats, impls: seq<string>, n: nat)
    requires n <= |impls| && TrailerCells(k, c, st, impls[..n]).None?
    ensures TrailerCells(k, c, st, impls).None?
    decreases |impls| - n
  {
    if n < |impls| {
      assert impls[..n + 1][..n] == impls[..n];
      TrailerCellsFailSticks(k, c, st, impls, n + 1);
    } else {
      assert impls[..n] == impls;
    }
  }

  /** The `for impl in set_of_impl` loop of one key triple. */
  method ProcessImpls(c: Ctx, k1: string, k2: string, k3: string, b: real, st: Stats) returns (r: Option<Cells>)
    ensures r == ImplCells(c, k1, k2, k3, b, c.impls, st)
  {
    var acc := Cells([], st);
    var j := 0;
    while j < |c.impls|
      invariant 0 <= j <= |c.impls|
      invariant ImplCells(c, k1, k2, k3, b, c.impls[..j], st) == Some(acc)
    {
      assert c.impls[..j + 1][..j] == c.impls[..j];
      var next := ImplStep(c, k1, k2, k3, b, c.impls[j], acc);
      if next.None? {
        ImplCellsFailSticks(c, k1, k2, k3, b, c.impls, st, j + 1);
        return None;
      }
      acc := next.value;
      j := j + 1;
    }
    assert c.impls[..j] == c.impls;
    r := Some(acc);
  }

  /** The body of the `for key3` loop. */
  method ProcessTriple(c: Ctx, k1: string, k2: string, k3: string, acc: Acc) returns (r: Option<Acc>)
    ensures r == TripleStep(c, k1, k2, k3, acc)
  {
    var baselineSamples := Lookup4(c.res, c.baseline, k1, k2, k3);
    if baselineSamples.None? {
      return None;
    }
    var baselineAvg := Representative(baselineSamples.value, c.samples, c.icache);
    if baselineAvg.None? {
      return None;
    }
    var row := [Label(k1), Label(k2), Label(k3)];
    if baselineAvg.value < 0.0 {
      row := row + [NA];
    } else {
      row := row + [Num(baselineAvg.value)];
    }
    assert row == [Label(k1), Label(k2), Label(k3), if baselineAvg.value < 0.0 then NA else Num(baselineAvg.value)];
    var cs := ProcessImpls(c, k1, k2, k3, baselineAvg.value, acc.stats);
    if cs.None? {
      return None;
    }
    r := Some(Acc(acc.rows + [row + cs.value.cells], cs.value.stats));
  }

  /** The `for key3` loop. */
  method ProcessCores(c: Ctx, k1: string, k2: string, k3s: seq<string>, acc0: Acc) returns (r: Option<Acc>)
    ensures r == CoresRows(c, k1, k2, k3s, acc0)
  {
    var acc := acc0;
    var j := 0;
    while j < |k3s|
      invariant 0 <= j <= |k3s|
      invariant CoresRows(c, k1, k2, k3s[..j], acc0) == Some(acc)
    {
      assert k3s[..j + 1][..j] == k3s[..j];
      var next := ProcessTriple(c, k1, k2, k3s[j], acc);
      if next.None? {
        CoresRowsFailSticks(c, k1, k2, k3s, acc0, j + 1);
        return None;
      }
      acc := next.value;
      j := j + 1;
    }
    assert k3s[..j] == k3s;
    r := Some(acc);
  }

  /** The `for key2` loop. */
  method ProcessDatasets(c: Ctx, k1: string, k2s: seq<string>, acc0: Acc) returns (r: Option<Acc>)
    ensures r == DatasetRows(c, k1, k2s, acc0)
  {
    var acc := acc0;
    var j := 0;
    while j < |k2s|
      invariant 0 <= j <= |k2s|
      invariant DatasetRows(c, k1, k2s[..j], acc0) == Some(acc)
    {
      assert k2s[..j + 1][..j] == k2s[..j];
      var byBench := BaselineBench(c, k1);
      var next: Option<Acc> := None;
      if byBench.Some? {
        var byCores := Lookup(byBench.value, k2s[j]);
        if byCores.Some? {
          next := ProcessCores(c, k1, k2s[j], Keys(byCores.value), acc);
        }
      }
      if next.None? {
        DatasetRowsFailSticks(c, k1, k2s, acc0, j + 1);
        return None;
      }
      acc := next.value;
      j := j + 1;
    }
    assert k2s[..j] == k2s;
    r := Some(acc);
  }

  /** The `for key1 in myKeys` loop. */
  method ProcessBenchmarks(c: Ctx, k1s: seq<string>, acc0: Acc) returns (r: Option<Acc>)
    ensures r == BenchRows(c, k1s, acc0)
  {
    var acc := acc0;
    var j := 0;
    while j < |k1s|
      invariant 0 <= j <= |k1s|
      invariant BenchRows(c, k1s[..j], acc0) == Some(acc)
    {
      assert k1s[..j + 1][..j] == k1s[..j];
      var byBench := BaselineBench(c, k1s[j]);
      var next: Option<Acc> := None;
      if byBench.Some? {
        next := ProcessDatasets(c, k1s[j], Keys(byBench.value), acc);
      }
      if next.None? {
        BenchRowsFailSticks(c, k1s, acc0, j + 1);
        return None;
      }
      acc := next.value;
      j := j + 1;
    }
    assert k1s[..j] == k1s;
    r := Some(acc);
  }

  /** The header row. */
  method BuildHeader(c: Ctx) returns (row: seq<Cell>)
    ensures row == Header(c)
  {
    row := [Label("Benchmark"), Label("Dataset"), Label("Num Cores")];
    if c.icache {
      row := row + [Label(c.baseline + Perc(c.tex))];
    } else {
      row := row + [Label(c.baseline + "(s)")];
    }
    ghost var fixed := row;
    var j := 0;
    while j < |c.impls|
      invariant 0 <= j <= |c.impls|
      invariant row == fixed + HeaderCells(c.impls[..j], c.baseline, c.tex)
    {
      assert c.impls[..j + 1][..j] == c.impls[..j];
      var impl := c.impls[j];
      if !IgnoreImpl(impl, c.baseline, c.tex) {
        row := row + [Label(impl + " (" + Perc(c.tex) + ")")];
      }
      j := j + 1;
    }
    assert c.impls[..j] == c.impls;
  }

  /** One of the Min, Geomean and Max rows. */
  method BuildTrailer(k: TrailerKind, c: Ctx, st: Stats) returns (r: Option<seq<Cell>>)
    ensures r == TrailerRow(k, c, st)
  {
    var row := [Label(TrailerName(k)), Label(""), Label(""), Label("")];
    var cells: seq<Cell> := [];
    var j := 0;
    while j < |c.impls|
      invariant 0 <= j <= |c.impls|
      invariant TrailerCells(k, c, st, c.impls[..j]) == Some(cells)
    {
      assert c.impls[..j + 1][..j] == c.impls[..j];
      var impl := c.impls[j];
      if !IgnoreImpl(impl, c.baseline, c.tex) {
        var cell := TrailerCell(k, st, impl, Perc(c.tex));
        if cell.None? {
          TrailerCellsFailSticks(k, c, st, c.impls, j + 1);
          return None;
        }
        cells := cells + [cell.value];
      }
      j := j + 1;
    }
    assert c.impls[..j] == c.impls;
    r := Some(row + cells);
  }

  /** `process_results`. */
  method ProcessResults(setOfImpl: seq<string>, res: Results, samples: nat, tex: bool, icache: bool)
    returns (table: Option<seq<seq<Cell>>>)
    ensures table == ProcessResultsSpec(setOfImpl, res, samples, tex, icache)
  {
    var c := MakeCtx(setOfImpl, res, samples, tex, icache);
    var top := Lookup(res, c.baseline);
    if top.None? {
      return None;
    }
    var myKeys := Sort(Keys(top.value));
    var header := BuildHeader(c);
    var body := ProcessBenchmarks(c, myKeys, Acc([], NoStats));
    if body.None? {
      return None;
    }
    var mn := BuildTrailer(MinRow, c, body.value.stats);
    if mn.None? {
      return None;
    }
    var gm := BuildTrailer(GeoRow, c, body.value.stats);
    if gm.None? {
      return None;
    }
    var mx := BuildTrailer(MaxRow, c, body.value.stats);
    if mx.None? {
      return None;
    }
    table := Some([header] + body.value.rows + [mn.value, gm.value, mx.value]);
  }

  // ---------------------------------------------------------------- properties

  /** The cell rule: N/A exactly when a value is not positive; otherwise the
      percentage saved (positive exactly when the other implementation is
      faster) or, in cache mode, the distance between miss rates. */
  lemma CompareCellRule(b: real, o: real, icache: bool, perc: string)
    ensures CompareCell(b, o, icache, perc) == NA <==> b <= 0.0 || o <= 0.0
    ensures b > 0.0 && o > 0.0 ==>
      CompareCell(b, o, icache, perc) == NumPct(if icache then Abs(b - o) else (b - o) / b * 100.0, perc)
    ensures b > 0.0 && o > 0.0 && !icache ==>
      (CompareCell(b, o, icache, perc).x > 0.0 <==> o < b)
    ensures b > 0.0 && o > 0.0 && icache ==> CompareCell(b, o, icache, perc).x >= 0.0
  {
    if b > 0.0 && o > 0.0 && !icache {
      var x := (b - o) / b * 100.0;
      assert x * b == (b - o) * 100.0;
      if o < b {
        assert x > 0.0;
      } else {
        assert x <= 0.0;
      }
    }
  }

  /** A baseline of 10 s and 8 s for the other implementation is a 20 %
      improvement. */
  lemma CompareCellExample()
    ensures CompareCell(10.0, 8.0, false, "%") == NumPct(20.0, "%")
  {
  }

  /** Undo the `improvement/100 + 1` factor. */
  function Unfactor(g: real): real {
    (g - 1.0) * 100.0
  }

  function MinImp(gs: seq<real>): real
    requires |gs| > 0
    decreases |gs|
  {
    if |gs| == 1 then Unfactor(gs[0])
    else
      var m := MinImp(gs[..|gs| - 1]);
      var x := Unfactor(gs[|gs| - 1]);
      if x < m then x else m
  }

  function MaxImp(gs: seq<real>): real
    requires |gs| > 0
    decreases |gs|
  {
    if |gs| == 1 then Unfactor(gs[0])
    else
      var m := MaxImp(gs[..|gs| - 1]);
      var x := Unfactor(gs[|gs| - 1]);
      if x > m then x else m
  }

  lemma {:induction false} MinLeMax(gs: seq<real>)
    requires |gs| > 0
    ensures MinImp(gs) <= MaxImp(gs)
    decreases |gs|
  {
    if |gs| > 1 {
      MinLeMax(gs[..|gs| - 1]);
    }
  }

  /** The three statistics hold the same implementations, and `min_res` and
      `max_res` are the least and greatest of the improvements whose factors
      `geomean_res` collects. */
  predicate StatsOk(st: Stats) {
    && Keys(st.minRes) == Keys(st.geos)
    && Keys(st.maxRes) == Keys(st.geos)
    && forall k :: k in Keys(st.geos) ==>
         && |Lookup(st.geos, k).value| > 0
         && Lookup(st.minRes, k).value == MinImp(Lookup(st.geos, k).value)
         && Lookup(st.maxRes, k).value == MaxImp(Lookup(st.geos, k).value)
  }

  lemma TrackOk(st: Stats, impl: string, imp: real)
    requires StatsOk(st)
    ensures StatsOk(Track(st, impl, imp))
  {
    var st' := Track(st, impl, imp);
    var f := imp / 100.0 + 1.0;
    assert Unfactor(f) == imp;
    var old_g := GetOr(st.geos, impl, []);
    var g := old_g + [f];
    assert Lookup(st'.geos, impl) == Some(g);
    if impl in Keys(st.geos) {
      assert g[..|g| - 1] == old_g;
      assert Lookup(st'.minRes, impl).value == MinImp(g);
      assert Lookup(st'.maxRes, impl).value == MaxImp(g);
    } else {
      assert Lookup(st.minRes, impl).None?;
      assert Lookup(st.maxRes, impl).None?;
    }
    forall k | k in Keys(st'.geos)
      ensures && |Lookup(st'.geos, k).value| > 0
              && Lookup(st'.minRes, k).value == MinImp(Lookup(st'.geos, k).value)
              && Lookup(st'.maxRes, k).value == MaxImp(Lookup(st'.geos, k).value)
    {
      if k != impl {
        assert k in Keys(st.geos);
      }
    }
  }

  /** The implementation cells of one row: at most one per column, and the
      statistics stay consistent. */
  lemma {:induction false} ImplCellsOk(c: Ctx, k1: string, k2: string, k3: string, b: real, impls: seq<string>, st: Stats)
    requires StatsOk(st)
    requires ImplCells(c, k1, k2, k3, b, impls, st).Some?
    ensures var r := ImplCells(c, k1, k2, k3, b, impls, st).value;
      StatsOk(r.stats) && |r.cells| <= |Columns(impls, c.baseline, c.tex)|
    decreases |impls|
  {
    if |impls| > 0 {
      var init := impls[..|impls| - 1];
      ImplCellsOk(c, k1, k2, k3, b, init, st);
      var prev := ImplCells(c, k1, k2, k3, b, init, st).value;
      var impl := impls[|impls| - 1];
      if !IgnoreImpl(impl, c.baseline, c.tex) {
        var byImpl := Lookup(c.res, impl).value;
        var other := Lookup3(byImpl, k1, k2, k3);
        if other.Some? {
          var o := Representative(other.value, c.samples, c.icache).value;
          var cell := CompareCell(b, o, c.icache, Perc(c.tex));
          if cell.NumPct? {
            TrackOk(prev.stats, impl, cell.x);
          }
        }
      }
    }
  }

  /** The columns whose implementation has results for the key triple, in
      column order. */
  function WithTriple(c: Ctx, k1: string, k2: string, k3: string, impls: seq<string>): seq<string>
    decreases |impls|
  {
    if |impls| == 0 then []
    else
      var last := impls[|impls| - 1];
      var byImpl := Lookup(c.res, last);
      WithTriple(c, k1, k2, k3, impls[..|impls| - 1])
        + (if !IgnoreImpl(last, c.baseline, c.tex) && byImpl.Some? && Lookup3(byImpl.value, k1, k2, k3).Some?
           then [last] else [])
  }

  /** The implementation cells of a row: one for each column that has the
      key triple, in column order, each the comparison of that
      implementation's value with the baseline's. */
  lemma {:induction false} ImplCellsContents(c: Ctx, k1: string, k2: string, k3: string, b: real, impls: seq<string>, st: Stats)
    requires ImplCells(c, k1, k2, k3, b, impls, st).Some?
    ensures var r := ImplCells(c, k1, k2, k3, b, impls, st).value;
      var ws := WithTriple(c, k1, k2, k3, impls);
      && |r.cells| == |ws|
      && forall j :: 0 <= j < |ws| ==>
           var byImpl := Lookup(c.res, ws[j]);
           && byImpl.Some? && Lookup3(byImpl.value, k1, k2, k3).Some?
           && var o := Representative(Lookup3(byImpl.value, k1, k2, k3).value, c.samples, c.icache);
              o.Some? && r.cells[j] == CompareCell(b, o.value, c.icache, Perc(c.tex))
    decreases |impls|
  {
    if |impls| > 0 {
      ImplCellsContents(c, k1, k2, k3, b, impls[..|impls| - 1], st);
    }
  }

  /** What every row of the body satisfies. */
  predicate AccOk(c: Ctx, acc: Acc) {
    && StatsOk(acc.stats)
    && forall r :: r in acc.rows ==> 4 <= |r| <= 4 + |Columns(c.impls, c.baseline, c.tex)|
  }

  /** A key-triple row: the three keys, the baseline cell, then at most one
      cell per column; earlier rows stay as they were. */
  lemma TripleStepOk(c: Ctx, k1: string, k2: string, k3: string, acc: Acc)
    requires AccOk(c, acc) && TripleStep(c, k1, k2, k3, acc).Some?
    ensures var r := TripleStep(c, k1, k2, k3, acc).value;
      && AccOk(c, r)
      && |r.rows| == |acc.rows| + 1 && acc.rows <= r.rows
      && var row := r.rows[|acc.rows|];
         var b := Representative(Lookup4(c.res, c.baseline, k1, k2, k3).value, c.samples, c.icache).value;
         && row[..3] == [Label(k1), Label(k2), Label(k3)]
         && row[3] == (if b < 0.0 then NA else Num(b))
         && row[4..] == ImplCells(c, k1, k2, k3, b, c.impls, acc.stats).value.cells
  {
    var bs := Lookup4(c.res, c.baseline, k1, k2, k3).value;
    var b := Representative(bs, c.samples, c.icache).value;
    ImplCellsOk(c, k1, k2, k3, b, c.impls, acc.stats);
    var row := TripleStep(c, k1, k2, k3, acc).value.rows[|acc.rows|];
    assert row[4..] == ImplCells(c, k1, k2, k3, b, c.impls, acc.stats).value.cells;
  }

  lemma {:induction false} CoresRowsOk(c: Ctx, k1: string, k2: string, k3s: seq<string>, acc: Acc)
    requires AccOk(c, acc) && CoresRows(c, k1, k2, k3s, acc).Some?
    ensures var r := CoresRows(c, k1, k2, k3s, acc).value;
      AccOk(c, r) && acc.rows <= r.rows && |r.rows| == |acc.rows| + |k3s|
    decreases |k3s|
  {
    if |k3s| > 0 {
      CoresRowsOk(c, k1, k2, k3s[..|k3s| - 1], acc);
      TripleStepOk(c, k1, k2, k3s[|k3s| - 1], CoresRows(c, k1, k2, k3s[..|k3s| - 1], acc).value);
    }
  }

  lemma {:induction false} DatasetRowsOk(c: Ctx, k1: string, k2s: seq<string>, acc: Acc)
    requires AccOk(c, acc) && DatasetRows(c, k1, k2s, acc).Some?
    ensures var r := DatasetRows(c, k1, k2s, acc).value; AccOk(c, r) && acc.rows <= r.rows
    decreases |k2s|
  {
    if |k2s| > 0 {
      var init := k2s[..|k2s| - 1];
      DatasetRowsOk(c, k1, init, acc);
      var prev := DatasetRows(c, k1, init, acc).value;
      var k2 := k2s[|k2s| - 1];
      var byCores := Lookup(BaselineBench(c, k1).value, k2).value;
      CoresRowsOk(c, k1, k2, Keys(byCores), prev);
    }
  }

  lemma {:induction false} BenchRowsOk(c: Ctx, k1s: seq<string>, acc: Acc)
    requires AccOk(c, acc) && BenchRows(c, k1s, acc).Some?
    ensures var r := BenchRows(c, k1s, acc).value; AccOk(c, r) && acc.rows <= r.rows
    decreases |k1s|
  {
    if |k1s| > 0 {
      var init := k1s[..|k1s| - 1];
      BenchRowsOk(c, init, acc);
      var prev := BenchRows(c, init, acc).value;
      var k1 := k1s[|k1s| - 1];
      DatasetRowsOk(c, k1, Keys(BaselineBench(c, k1).value), prev);
    }
  }

  /** Header cells: one per column, in column order. */
  lemma {:induction false} HeaderCellsColumns(impls: seq<string>, baseline: string, tex: bool)
    ensures var cols := Columns(impls, baseline, tex);
      && |HeaderCells(impls, baseline, tex)| == |cols|
      && forall j :: 0 <= j < |cols| ==> HeaderCells(impls, baseline, tex)[j] == Label(cols[j] + " (" + Perc(tex) + ")")
    decreases |impls|
  {
    if |impls| > 0 {
      HeaderCellsColumns(impls[..|impls| - 1], baseline, tex);
    }
  }

  /** Trailer cells: present exactly when every column has a numeric cell,
      and then one per column, in column order. */
  lemma {:induction false} TrailerCellsColumns(k: TrailerKind, c: Ctx, st: Stats, impls: seq<string>)
    ensures var cols := Columns(impls, c.baseline, c.tex);
      TrailerCells(k, c, st, impls).Some? ==>
        && |TrailerCells(k, c, st, impls).value| == |cols|
        && forall j :: 0 <= j < |cols| ==>
             TrailerCell(k, st, cols[j], Perc(c.tex)).Some?
             && TrailerCells(k, c, st, impls).value[j] == TrailerCell(k, st, cols[j], Perc(c.tex)).value
    ensures (forall x :: x in impls && !IgnoreImpl(x, c.baseline, c.tex) ==> TrailerCell(k, st, x, Perc(c.tex)).Some?)
      ==> TrailerCells(k, c, st, impls).Some?
  {
    TrailerCellsInOrder(k, c, st, impls);
    TrailerCellsPresent(k, c, st, impls);
  }

  lemma {:induction false} TrailerCellsInOrder(k: TrailerKind, c: Ctx, st: Stats, impls: seq<string>)
    ensures var cols := Columns(impls, c.baseline, c.tex);
      TrailerCells(k, c, st, impls).Some? ==>
        && |TrailerCells(k, c, st, impls).value| == |cols|
        && forall j :: 0 <= j < |cols| ==>
             TrailerCell(k, st, cols[j], Perc(c.tex)).Some?
             && TrailerCells(k, c, st, impls).value[j] == TrailerCell(k, st, cols[j], Perc(c.tex)).value
    decreases |impls|
  {
    if |impls| > 0 {
      var init := impls[..|impls| - 1];
      var last := impls[|impls| - 1];
      TrailerCellsInOrder(k, c, st, init);
      var prev := TrailerCells(k, c, st, init);
      var cols0 := Columns(init, c.baseline, c.tex);
      if prev.Some? && !IgnoreImpl(last, c.baseline, c.tex) {
        var cell := TrailerCell(k, st, last, Perc(c.tex));
        if cell.Some? {
          var cols := cols0 + [last];
          var cells := prev.value + [cell.value];
          assert Columns(impls, c.baseline, c.tex) == cols;
          assert TrailerCells(k, c, st, impls).value == cells;
          forall j | 0 <= j < |cols|
            ensures TrailerCell(k, st, cols[j], Perc(c.tex)).Some?
                    && cells[j] == TrailerCell(k, st, cols[j], Perc(c.tex)).value
          {
            if j < |cols0| {
              assert cols[j] == cols0[j] && cells[j] == prev.value[j];
            }
          }
        }
      }
    }
  }

  lemma {:induction false} TrailerCellsPresent(k: TrailerKind, c: Ctx, st: Stats, impls: seq<string>)
    ensures (forall x :: x in impls && !IgnoreImpl(x, c.baseline, c.tex) ==> TrailerCell(k, st, x, Perc(c.tex)).Some?)
      ==> TrailerCells(k, c, st, impls).Some?
    decreases |impls|
  {
    if |impls| > 0 {
      var init := impls[..|impls| - 1];
      TrailerCellsPresent(k, c, st, init);
      assert forall x :: x in init ==> x in impls;
    }
  }

  /** A trailer row: its name, three blank cells, then one cell per column. */
  lemma TrailerRowShape(k: TrailerKind, c: Ctx, st: Stats)
    requires TrailerRow(k, c, st).Some?
    ensures var row := TrailerRow(k, c, st).value;
      var cols := Columns(c.impls, c.baseline, c.tex);
      && |row| == 4 + |cols|
      && row[..4] == [Label(TrailerName(k)), Label(""), Label(""), Label("")]
      && row[4..] == TrailerCells(k, c, st, c.impls).value
  {
    TrailerCellsColumns(k, c, st, c.impls);
    var row := TrailerRow(k, c, st).value;
    assert row[4..] == TrailerCells(k, c, st, c.impls).value;
  }

  /** In every column the Min cell is a number no greater than the Max cell. */
  lemma MinBelowMax(c: Ctx, st: Stats)
    requires StatsOk(st)
    requires TrailerRow(MinRow, c, st).Some? && TrailerRow(MaxRow, c, st).Some?
    ensures var mins := TrailerRow(MinRow, c, st).value[4..];
      var maxs := TrailerRow(MaxRow, c, st).value[4..];
      && |mins| == |maxs| == |Columns(c.impls, c.baseline, c.tex)|
      && forall j :: 0 <= j < |mins| ==> mins[j].NumPct? && maxs[j].NumPct? && mins[j].x <= maxs[j].x
  {
    TrailerRowShape(MinRow, c, st);
    TrailerRowShape(MaxRow, c, st);
    var p := Perc(c.tex);
    var cols := Columns(c.impls, c.baseline, c.tex);
    var mins := TrailerCells(MinRow, c, st, c.impls).value;
    var maxs := TrailerCells(MaxRow, c, st, c.impls).value;
    TrailerCellsInOrder(MinRow, c, st, c.impls);
    TrailerCellsInOrder(MaxRow, c, st, c.impls);
    forall j | 0 <= j < |mins|
      ensures mins[j].NumPct? && maxs[j].NumPct? && mins[j].x <= maxs[j].x
    {
      MinMaxCell(st, cols[j], p);
    }
  }

  /** One column of the Min and Max rows. */
  lemma MinMaxCell(st: Stats, impl: string, p: string)
    requires StatsOk(st)
    requires TrailerCell(MinRow, st, impl, p).Some? && TrailerCell(MaxRow, st, impl, p).Some?
    ensures var lo := TrailerCell(MinRow, st, impl, p).value;
      var hi := TrailerCell(MaxRow, st, impl, p).value;
      lo.NumPct? && hi.NumPct? && lo.x <= hi.x
  {
    assert Lookup(st.minRes, impl).Some?;
    MinLeMax(Lookup(st.geos, impl).value);
  }

  /** The header: the three key columns, the baseline, then one column per
      implementation that is not ignored, in sorted order. */
  lemma HeaderShape(c: Ctx)
    ensures var cols := Columns(c.impls, c.baseline, c.tex);
      && |Header(c)| == 4 + |cols|
      && Header(c)[..3] == [Label("Benchmark"), Label("Dataset"), Label("Num Cores")]
      && Header(c)[3] == Label(c.baseline + if c.icache then Perc(c.tex) else "(s)")
      && forall j :: 0 <= j < |cols| ==> Header(c)[4 + j] == Label(cols[j] + " (" + Perc(c.tex) + ")")
  {
    HeaderCellsColumns(c.impls, c.baseline, c.tex);
  }

  /** The body rows of a finished table are at most as wide as the header
      and its statistics are consistent. */
  lemma BodyOk(c: Ctx)
    requires Body(c).Some?
    ensures AccOk(c, Body(c).value)
  {
    BenchRowsOk(c, Sort(Keys(Lookup(c.res, c.baseline).value)), Acc([], NoStats));
  }

  /** A finished table is the header, the body rows and the Min, Geomean and
      Max rows, in that order. */
  lemma TableParts(c: Ctx)
    requires Table(c).Some?
    ensures Body(c).Some?
    ensures var st := Body(c).value.stats;
      Table(c).value == [Header(c)] + Body(c).value.rows
        + [TrailerRow(MinRow, c, st).value, TrailerRow(GeoRow, c, st).value, TrailerRow(MaxRow, c, st).value]
  {
  }

  lemma MiddleRows<T>(t: seq<seq<T>>, h: seq<T>, rows: seq<seq<T>>, tr: seq<seq<T>>, w: int)
    requires t == [h] + rows + tr && |tr| == 3
    requires forall r :: r in rows ==> 4 <= |r| <= w
    ensures |t| >= 4 && t[0] == h && t[|t| - 3..] == tr
    ensures forall i :: 1 <= i < |t| - 3 ==> 4 <= |t[i]| <= w
  {
    forall i | 1 <= i < |t| - 3 ensures 4 <= |t[i]| <= w {
      assert t[i] == rows[i - 1];
    }
    assert t[|t| - 3..] == tr;
  }

  /** The shape of a finished table: the header, body rows no wider than the
      header and no narrower than the four leading cells, then the three
      trailer rows. */
  lemma TableShape(c: Ctx)
    requires Table(c).Some?
    ensures var t := Table(c).value;
      var st := Body(c).value.stats;
      && |t| >= 4
      && t[0] == Header(c)
      && (forall i :: 1 <= i < |t| - 3 ==> 4 <= |t[i]| <= 4 + |Columns(c.impls, c.baseline, c.tex)|)
      && t[|t| - 3..] == [TrailerRow(MinRow, c, st).value, TrailerRow(GeoRow, c, st).value, TrailerRow(MaxRow, c, st).value]
  {
    TableParts(c);
    BodyOk(c);
    var st := Body(c).value.stats;
    MiddleRows(Table(c).value, Header(c), Body(c).value.rows,
               [TrailerRow(MinRow, c, st).value, TrailerRow(GeoRow, c, st).value, TrailerRow(MaxRow, c, st).value],
               4 + |Columns(c.impls, c.baseline, c.tex)|);
  }

  /** The trailer rows of a finished table are named Min, Geomean and Max,
      are as wide as the header, and in each column the Min cell is a number
      no greater than the Max cell. */
  lemma TableMinBelowMax(c: Ctx)
    requires Table(c).Some?
    ensures var t := Table(c).value;
      var w := 4 + |Columns(c.impls, c.baseline, c.tex)|;
      var mins := t[|t| - 3][4..];
      var maxs := t[|t| - 1][4..];
      && t[|t| - 3][..4] == [Label("Min"), Label(""), Label(""), Label("")]
      && t[|t| - 2][..4] == [Label("Geomean"), Label(""), Label(""), Label("")]
      && t[|t| - 1][..4] == [Label("Max"), Label(""), Label(""), Label("")]
      && |t[|t| - 3]| == |t[|t| - 2]| == |t[|t| - 1]| == w
      && forall j :: 0 <= j < |mins| ==> mins[j].NumPct? && maxs[j].NumPct? && mins[j].x <= maxs[j].x
  {
    TableShape(c);
    BodyOk(c);
    TrailerFacts(c, Body(c).value.stats, Table(c).value);
  }

  lemma TrailerFacts(c: Ctx, st: Stats, t: seq<seq<Cell>>)
    requires StatsOk(st)
    requires TrailerRow(MinRow, c, st).Some? && TrailerRow(GeoRow, c, st).Some? && TrailerRow(MaxRow, c, st).Some?
    requires |t| >= 3
    requires t[|t| - 3..] == [TrailerRow(MinRow, c, st).value, TrailerRow(GeoRow, c, st).value, TrailerRow(MaxRow, c, st).value]
    ensures var w := 4 + |Columns(c.impls, c.baseline, c.tex)|;
      var mins := t[|t| - 3][4..];
      var maxs := t[|t| - 1][4..];
      && t[|t| - 3][..4] == [Label("Min"), Label(""), Label(""), Label("")]
      && t[|t| - 2][..4] == [Label("Geomean"), Label(""), Label(""), Label("")]
      && t[|t| - 1][..4] == [Label("Max"), Label(""), Label(""), Label("")]
      && |t[|t| - 3]| == |t[|t| - 2]| == |t[|t| - 1]| == w
      && forall j :: 0 <= j < |mins| ==> mins[j].NumPct? && maxs[j].NumPct? && mins[j].x <= maxs[j].x
  {
    var trailer := t[|t| - 3..];
    assert t[|t| - 3] == trailer[0] && t[|t| - 2] == trailer[1] && t[|t| - 1] == trailer[2];
    TrailerRowShape(MinRow, c, st);
    TrailerRowShape(GeoRow, c, st);
    TrailerRowShape(MaxRow, c, st);
    MinBelowMax(c, st);
  }

  /** A run the harness reported as failed is stored as all -1, and such a
      value never yields a number: its baseline cell and every comparison
      with it are N/A. */
  lemma {:induction false} SentinelSum(vs: seq<real>)
    requires forall k :: 0 <= k < |vs| ==> vs[k] == -1.0
    ensures Sum(vs) == -(|vs| as real)
    decreases |vs|
  {
    if |vs| > 0 {
      SentinelSum(vs[..|vs| - 1]);
    }
  }

  lemma SentinelIsNA(vs: seq<real>, samples: nat, icache: bool, other: real, perc: string)
    requires forall k :: 0 <= k < |vs| ==> vs[k] == -1.0
    requires Representative(vs, samples, icache).Some?
    ensures Representative(vs, samples, icache) == Some(-1.0)
    ensures CompareCell(-1.0, other, icache, perc) == NA
    ensures CompareCell(other, -1.0, icache, perc) == NA
  {
    if !icache {
      var n := if samples < |vs| then samples else |vs|;
      SentinelSum(vs[..n]);
      assert Sum(vs[..n]) / (n as real) == -1.0;
    }
  }

  /** `sorted(set_of_impl)` depends only on which implementations were seen,
      so the table does too, not on the order the rows came in. */
  lemma TableIndependentOfOrder(s: seq<string>, t: seq<string>, res: Results, samples: nat, tex: bool, icache: bool)
    requires Distinct(s) && Distinct(t)
    requires forall x :: x in s <==> x in t
    ensures ProcessResultsSpec(s, res, samples, tex, icache) == ProcessResultsSpec(t, res, samples, tex, icache)
  {
    SortOrderIndependent(s, t);
  }
}
