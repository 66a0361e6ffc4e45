/** Where the Min, Geomean and Max rows of `process_results` come from: the
    numeric cells of each implementation in the body rows. A body row holds
    one cell per column that has results for the row's three keys, so the
    owner of each cell is read off the row's keys. */
module AnalysisStats {
  import opened Wrappers
  import opened Dicts
  import opened Sorting
  import opened AnalysisLabels
  import opened AnalysisStore
  import opened AnalysisTable

  /** The factors `imp / 100 + 1` that `geomean_res` collects. */
  function Factors(xs: seq<real>): (r: seq<real>)
    ensures |r| == |xs|
    decreases |xs|
  {
    if |xs| == 0 then [] else Factors(xs[..|xs| - 1]) + [xs[|xs| - 1] / 100.0 + 1.0]
  }

  lemma {:induction false} FactorsAppend(a: seq<real>, b: seq<real>)
    ensures Factors(a + b) == Factors(a) + Factors(b)
    decreases |b|
  {
    if |b| == 0 {
      assert a + b == a;
    } else {
      assert (a + b)[..|a + b| - 1] == a + b[..|b| - 1];
      FactorsAppend(a, b[..|b| - 1]);
    }
  }

  /** The least element of a non-empty list. */
  function Least(xs: seq<real>): (r: real)
    requires |xs| > 0
    ensures r in xs && forall x :: x in xs ==> r <= x
    decreases |xs|
  {
    if |xs| == 1 then xs[0]
    else
      var init := xs[..|xs| - 1];
      var m := Least(init);
      var x := xs[|xs| - 1];
      assert xs == init + [x];
      if x < m then x else m
  }

  /** The greatest element of a non-empty list. */
  function Greatest(xs: seq<real>): (r: real)
    requires |xs| > 0
    ensures r in xs && forall x :: x in xs ==> x <= r
    decreases |xs|
  {
    if |xs| == 1 then xs[0]
    else
      var init := xs[..|xs| - 1];
      var m := Greatest(init);
      var x := xs[|xs| - 1];
      assert xs == init + [x];
      if x > m then x else m
  }

  /** Undoing the factors gives back the least and greatest improvement. */
  lemma {:induction false} ImpsOfFactors(xs: seq<real>)
    requires |xs| > 0
    ensures MinImp(Factors(xs)) == Least(xs) && MaxImp(Factors(xs)) == Greatest(xs)
    decreases |xs|
  {
    var x := xs[|xs| - 1];
    assert Unfactor(x / 100.0 + 1.0) == x;
    if |xs| > 1 {
      ImpsOfFactors(xs[..|xs| - 1]);
      assert Factors(xs)[..|xs| - 1] == Factors(xs[..|xs| - 1]);
    }
  }

  /** The improvements of the numeric cells whose owner, at the same position
      of `ws`, is `impl`, in cell order. */
  function CellImps(cells: seq<Cell>, ws: seq<string>, impl: string): seq<real>
    decreases |ws|
  {
    if |ws| == 0 then []
    else
      var j := |ws| - 1;
      CellImps(cells, ws[..j], impl)
        + (if j < |cells| && ws[j] == impl && cells[j].NumPct? then [cells[j].x] else [])
  }

  lemma {:induction false} CellImpsExtend(cells: seq<Cell>, ws: seq<string>, impl: string, more: seq<Cell>)
    requires |ws| <= |cells|
    ensures CellImps(cells + more, ws, impl) == CellImps(cells, ws, impl)
    decreases |ws|
  {
    if |ws| > 0 {
      CellImpsExtend(cells, ws[..|ws| - 1], impl, more);
      assert (cells + more)[|ws| - 1] == cells[|ws| - 1];
    }
  }

  /** A number is one of the improvements of `impl` exactly when some numeric
      cell owned by `impl` holds it. */
  lemma {:induction false} CellImpsMembers(cells: seq<Cell>, ws: seq<string>, impl: string, x: real)
    requires |ws| <= |cells|
    ensures x in CellImps(cells, ws, impl) <==>
      exists j :: 0 <= j < |ws| && ws[j] == impl && cells[j].NumPct? && cells[j].x == x
    decreases |ws|
  {
    if |ws| > 0 {
      var n := |ws| - 1;
      CellImpsMembers(cells, ws[..n], impl, x);
      if x in CellImps(cells, ws[..n], impl) {
        var j :| 0 <= j < n && ws[..n][j] == impl && cells[j].NumPct? && cells[j].x == x;
        assert ws[j] == impl;
      }
      if exists j :: 0 <= j < |ws| && ws[j] == impl && cells[j].NumPct? && cells[j].x == x {
        var j :| 0 <= j < |ws| && ws[j] == impl && cells[j].NumPct? && cells[j].x == x;
        if j < n {
          assert ws[..n][j] == impl;
        }
      }
    }
  }

  /** The implementations owning the cells of a body row after the fourth:
      the columns that have results for the row's three keys. */
  function Owners(c: Ctx, row: seq<Cell>): seq<string> {
    if |row| >= 3 && row[0].Label? && row[1].Label? && row[2].Label?
    then WithTriple(c, row[0].s, row[1].s, row[2].s, c.impls)
    else []
  }

  /** A body row: three key labels, the baseline cell, then exactly one cell
      per owner. */
  predicate Keyed(c: Ctx, row: seq<Cell>) {
    && |row| >= 4 && row[0].Label? && row[1].Label? && row[2].Label?
    && |row| == 4 + |Owners(c, row)|
  }

  /** The improvements of `impl` in one body row. */
  function RowImps(c: Ctx, row: seq<Cell>, impl: string): seq<real> {
    if |row| < 4 then [] else CellImps(row[4..], Owners(c, row), impl)
  }

  /** The improvements of `impl` over the body rows, in row order: what its
      column shows as numbers. */
  function ColumnImps(c: Ctx, rows: seq<seq<Cell>>, impl: string): seq<real>
    decreases |rows|
  {
    if |rows| == 0 then []
    else ColumnImps(c, rows[..|rows| - 1], impl) + RowImps(c, rows[|rows| - 1], impl)
  }

  /** The rows are body rows, and `geomean_res` holds the factors of exactly
      the numeric cells of each implementation. */
  ghost predicate Tracks(c: Ctx, acc: Acc) {
    && (forall r :: r in acc.rows ==> Keyed(c, r))
    && forall impl :: GetOr(acc.stats.geos, impl, []) == Factors(ColumnImps(c, acc.rows, impl))
  }

  /** The implementation loop of one row adds one cell per owner, and records
      the factor of each numeric cell under the cell's owner. */
  lemma {:induction false} ImplCellsTrack(c: Ctx, k1: string, k2: string, k3: string, b: real, impls: seq<string>, st: Stats)
    requires ImplCells(c, k1, k2, k3, b, impls, st).Some?
    ensures var r := ImplCells(c, k1, k2, k3, b, impls, st).value;
      var ws := WithTriple(c, k1, k2, k3, impls);
      && |r.cells| == |ws|
      && forall impl :: GetOr(r.stats.geos, impl, []) == GetOr(st.geos, impl, []) + Factors(CellImps(r.cells, ws, impl))
    decreases |impls|
  {
    if |impls| > 0 {
      var init := impls[..|impls| - 1];
      var last := impls[|impls| - 1];
      ImplCellsTrack(c, k1, k2, k3, b, init, st);
      var prev := ImplCells(c, k1, k2, k3, b, init, st).value;
      var ws0 := WithTriple(c, k1, k2, k3, init);
      var r := ImplCells(c, k1, k2, k3, b, impls, st).value;
      var ws := WithTriple(c, k1, k2, k3, impls);
      if IgnoreImpl(last, c.baseline, c.tex) {
        assert r == prev && ws == ws0;
      } else {
        var byImpl := Lookup(c.res, last);
        assert byImpl.Some?;
        var other := Lookup3(byImpl.value, k1, k2, k3);
        if other.None? {
          assert r == prev && ws == ws0;
        } else {
          var o := Representative(other.value, c.samples, c.icache).value;
          var cell := CompareCell(b, o, c.icache, Perc(c.tex));
          assert r.cells == prev.cells + [cell] && ws == ws0 + [last];
          assert r.stats == if cell.NumPct? then Track(prev.stats, last, cell.x) else prev.stats;
          AppendCellTrack(st, prev.cells, ws0, prev.stats, last, cell);
        }
      }
    }
  }

  /** One more cell, owned by `last`: a numeric one adds its factor under
      `last` and nowhere else. */
  lemma AppendCellTrack(st0: Stats, cells: seq<Cell>, ws: seq<string>, prev: Stats, last: string, cell: Cell)
    requires |cells| == |ws|
    requires forall impl :: GetOr(prev.geos, impl, []) == GetOr(st0.geos, impl, []) + Factors(CellImps(cells, ws, impl))
    ensures var next := if cell.NumPct? then Track(prev, last, cell.x) else prev;
      forall impl :: GetOr(next.geos, impl, []) == GetOr(st0.geos, impl, []) + Factors(CellImps(cells + [cell], ws + [last], impl))
  {
    forall impl
      ensures GetOr((if cell.NumPct? then Track(prev, last, cell.x) else prev).geos, impl, [])
              == GetOr(st0.geos, impl, []) + Factors(CellImps(cells + [cell], ws + [last], impl))
    {
      AppendCellOne(GetOr(st0.geos, impl, []), cells, ws, prev, last, cell, impl);
    }
  }

  /** `AppendCellTrack` for one implementation. */
  lemma AppendCellOne(before: seq<real>, cells: seq<Cell>, ws: seq<string>, prev: Stats, last: string, cell: Cell, impl: string)
    requires |cells| == |ws|
    requires GetOr(prev.geos, impl, []) == before + Factors(CellImps(cells, ws, impl))
    ensures GetOr((if cell.NumPct? then Track(prev, last, cell.x) else prev).geos, impl, [])
            == before + Factors(CellImps(cells + [cell], ws + [last], impl))
  {
    var ci := CellImps(cells, ws, impl);
    CellImpsSnoc(cells, ws, impl, last, cell);
    if last == impl && cell.NumPct? {
      AppendOwnCell(before, ci, prev, impl, cell.x);
    } else {
      assert ci + [] == ci;
      assert CellImps(cells + [cell], ws + [last], impl) == ci;
      if cell.NumPct? {
        TrackGeos(prev, last, cell.x, impl);
        assert GetOr(prev.geos, impl, []) + [] == GetOr(prev.geos, impl, []);
      }
    }
  }

  /** A numeric cell of `impl` itself: its factor goes last. */
  lemma AppendOwnCell(before: seq<real>, ci: seq<real>, prev: Stats, impl: string, x: real)
    requires GetOr(prev.geos, impl, []) == before + Factors(ci)
    ensures GetOr(Track(prev, impl, x).geos, impl, []) == before + Factors(ci + [x])
  {
    TrackGeos(prev, impl, x, impl);
    FactorsAppend(ci, [x]);
    FactorsOne(x);
  }

  lemma FactorsOne(x: real)
    ensures Factors([x]) == [x / 100.0 + 1.0]
  {
    assert [x][..0] == [];
  }

  /** `Track` appends the factor of the improvement under its
      implementation and changes no other entry of `geomean_res`. */
  lemma TrackGeos(st: Stats, last: string, x: real, impl: string)
    ensures GetOr(Track(st, last, x).geos, impl, []) ==
      GetOr(st.geos, impl, []) + (if impl == last then [x / 100.0 + 1.0] else [])
  {
    var g := Put(st.geos, last, GetOr(st.geos, last, []) + [x / 100.0 + 1.0]);
    assert Track(st, last, x).geos == g;
    if impl != last {
      assert Lookup(g, impl) == Lookup(st.geos, impl);
    }
  }

  /** One more cell and owner add the cell's improvement exactly when it is
      numeric and owned by `impl`. */
  lemma CellImpsSnoc(cells: seq<Cell>, ws: seq<string>, impl: string, last: string, cell: Cell)
    requires |cells| == |ws|
    ensures CellImps(cells + [cell], ws + [last], impl) ==
      CellImps(cells, ws, impl) + (if last == impl && cell.NumPct? then [cell.x] else [])
  {
    CellImpsExtend(cells, ws, impl, [cell]);
    assert (ws + [last])[..|ws|] == ws;
    assert (cells + [cell])[|ws|] == cell;
  }

  /** Appending the row of a key triple keeps the statistics in step with
      the rows. */
  lemma TripleStepTrack(c: Ctx, k1: string, k2: string, k3: string, acc: Acc)
    requires Tracks(c, acc) && TripleStep(c, k1, k2, k3, acc).Some?
    ensures Tracks(c, TripleStep(c, k1, k2, k3, acc).value)
  {
    var bs := Lookup4(c.res, c.baseline, k1, k2, k3).value;
    var b := Representative(bs, c.samples, c.icache).value;
    var cs := ImplCells(c, k1, k2, k3, b, c.impls, acc.stats).value;
    ImplCellsTrack(c, k1, k2, k3, b, c.impls, acc.stats);
    var r := TripleStep(c, k1, k2, k3, acc).value;
    var row := [Label(k1), Label(k2), Label(k3), if b < 0.0 then NA else Num(b)] + cs.cells;
    var ws := WithTriple(c, k1, k2, k3, c.impls);
    assert r.rows == acc.rows + [row] && r.stats == cs.stats;
    assert row[4..] == cs.cells;
    assert Owners(c, row) == ws;
    assert r.rows[..|acc.rows|] == acc.rows;
    forall impl ensures GetOr(r.stats.geos, impl, []) == Factors(ColumnImps(c, r.rows, impl)) {
      assert ColumnImps(c, r.rows, impl) == ColumnImps(c, acc.rows, impl) + CellImps(cs.cells, ws, impl);
      FactorsAppend(ColumnImps(c, acc.rows, impl), CellImps(cs.cells, ws, impl));
    }
  }

  lemma {:induction false} CoresRowsTrack(c: Ctx, k1: string, k2: string, k3s: seq<string>, acc: Acc)
    requires Tracks(c, acc) && CoresRows(c, k1, k2, k3s, acc).Some?
    ensures Tracks(c, CoresRows(c, k1, k2, k3s, acc).value)
    decreases |k3s|
  {
    if |k3s| > 0 {
      CoresRowsTrack(c, k1, k2, k3s[..|k3s| - 1], acc);
      TripleStepTrack(c, k1, k2, k3s[|k3s| - 1], CoresRows(c, k1, k2, k3s[..|k3s| - 1], acc).value);
    }
  }

  lemma {:induction false} DatasetRowsTrack(c: Ctx, k1: string, k2s: seq<string>, acc: Acc)
    requires Tracks(c, acc) && DatasetRows(c, k1, k2s, acc).Some?
    ensures Tracks(c, DatasetRows(c, k1, k2s, acc).value)
    decreases |k2s|
  {
    if |k2s| > 0 {
      var init := k2s[..|k2s| - 1];
      DatasetRowsTrack(c, k1, init, acc);
      var prev := DatasetRows(c, k1, init, acc).value;
      var k2 := k2s[|k2s| - 1];
      var byCores := Lookup(BaselineBench(c, k1).value, k2).value;
      CoresRowsTrack(c, k1, k2, Keys(byCores), prev);
    }
  }

  lemma {:induction false} BenchRowsTrack(c: Ctx, k1s: seq<string>, acc: Acc)
    requires Tracks(c, acc) && BenchRows(c, k1s, acc).Some?
    ensures Tracks(c, BenchRows(c, k1s, acc).value)
    decreases |k1s|
  {
    if |k1s| > 0 {
      var init := k1s[..|k1s| - 1];
      BenchRowsTrack(c, init, acc);
      var prev := BenchRows(c, init, acc).value;
      var k1 := k1s[|k1s| - 1];
      BenchStepTrack(c, k1, prev);
    }
  }

  lemma BenchStepTrack(c: Ctx, k1: string, acc: Acc)
    requires Tracks(c, acc) && BenchStep(c, k1, acc).Some?
    ensures Tracks(c, BenchStep(c, k1, acc).value)
  {
    DatasetRowsTrack(c, k1, Keys(BaselineBench(c, k1).value), acc);
  }

  /** For every implementation, `geomean_res` has no entry exactly when no
      body row shows a number in its column; otherwise it holds the factors
      of exactly those numbers, in row order. Every body row is keyed. */
  lemma GeosFromBody(c: Ctx, impl: string)
    requires Body(c).Some?
    ensures var body := Body(c).value;
      var xs := ColumnImps(c, body.rows, impl);
      && (forall r :: r in body.rows ==> Keyed(c, r))
      && (Lookup(body.stats.geos, impl).None? <==> xs == [])
      && (xs != [] ==> Lookup(body.stats.geos, impl) == Some(Factors(xs)))
  {
    var top := Lookup(c.res, c.baseline).value;
    assert Tracks(c, Acc([], NoStats));
    BenchRowsTrack(c, Sort(Keys(top)), Acc([], NoStats));
    BodyOk(c);
    var body := Body(c).value;
    var xs := ColumnImps(c, body.rows, impl);
    assert GetOr(body.stats.geos, impl, []) == Factors(xs);
    if Lookup(body.stats.geos, impl).Some? {
      assert impl in Keys(body.stats.geos);
      assert |Factors(xs)| > 0;
    }
  }

  /** Each trailer cell of an implementation: missing (the KeyError) exactly
      when its column shows no number; otherwise the least, the factors for
      the geometric mean, and the greatest of the numbers its column shows. */
  lemma TrailerCellsFromBody(c: Ctx, impl: string)
    requires Body(c).Some?
    ensures var body := Body(c).value;
      var xs := ColumnImps(c, body.rows, impl);
      var p := Perc(c.tex);
      && (TrailerCell(MinRow, body.stats, impl, p).Some? <==> xs != [])
      && (TrailerCell(GeoRow, body.stats, impl, p).Some? <==> xs != [])
      && (TrailerCell(MaxRow, body.stats, impl, p).Some? <==> xs != [])
      && (xs != [] ==>
            && TrailerCell(MinRow, body.stats, impl, p) == Some(NumPct(Least(xs), p))
            && TrailerCell(GeoRow, body.stats, impl, p) == Some(GeoPct(Factors(xs), p))
            && TrailerCell(MaxRow, body.stats, impl, p) == Some(NumPct(Greatest(xs), p)))
  {
    GeosFromBody(c, impl);
    BodyOk(c);
    var st := Body(c).value.stats;
    var xs := ColumnImps(c, Body(c).value.rows, impl);
    assert impl in Keys(st.minRes) <==> impl in Keys(st.geos);
    assert impl in Keys(st.maxRes) <==> impl in Keys(st.geos);
    if xs != [] {
      ImpsOfFactors(xs);
      assert impl in Keys(st.geos);
    }
  }

  /** The trailer cell of kind `k` for a column whose numbers are `xs`. */
  function Summary(k: TrailerKind, xs: seq<real>, p: string): Cell
    requires |xs| > 0
  {
    match k
    case MinRow => NumPct(Least(xs), p)
    case GeoRow => GeoPct(Factors(xs), p)
    case MaxRow => NumPct(Greatest(xs), p)
  }

  /** A trailer row exists exactly when every column shows a number, and then
      its cell for each column summarises exactly the numbers that column
      shows. */
  lemma TrailerRowFromBody(k: TrailerKind, c: Ctx)
    requires Body(c).Some?
    ensures var body := Body(c).value;
      var cols := Columns(c.impls, c.baseline, c.tex);
      var row := TrailerRow(k, c, body.stats);
      && (row.Some? <==> forall j :: 0 <= j < |cols| ==> ColumnImps(c, body.rows, cols[j]) != [])
      && (row.Some? ==>
            && |row.value| == 4 + |cols|
            && forall j :: 0 <= j < |cols| ==>
                 ColumnImps(c, body.rows, cols[j]) != []
                 && row.value[4 + j] == Summary(k, ColumnImps(c, body.rows, cols[j]), Perc(c.tex)))
  {
    var body := Body(c).value;
    var st := body.stats;
    var cols := Columns(c.impls, c.baseline, c.tex);
    var p := Perc(c.tex);
    TrailerCellsColumns(k, c, st, c.impls);
    forall x | x in c.impls && !IgnoreImpl(x, c.baseline, c.tex)
      ensures TrailerCell(k, st, x, p).Some? <==> ColumnImps(c, body.rows, x) != []
      ensures TrailerCell(k, st, x, p).Some? ==> TrailerCell(k, st, x, p).value == Summary(k, ColumnImps(c, body.rows, x), p)
    {
      TrailerCellsFromBody(c, x);
    }
    if forall j :: 0 <= j < |cols| ==> ColumnImps(c, body.rows, cols[j]) != [] {
      forall x | x in c.impls && !IgnoreImpl(x, c.baseline, c.tex)
        ensures TrailerCell(k, st, x, p).Some?
      {
        assert x in cols;
        var j :| 0 <= j < |cols| && cols[j] == x;
      }
    }
    if TrailerRow(k, c, st).Some? {
      TrailerRowShape(k, c, st);
      var row := TrailerRow(k, c, st).value;
      forall j | 0 <= j < |cols|
        ensures ColumnImps(c, body.rows, cols[j]) != []
        ensures row[4 + j] == Summary(k, ColumnImps(c, body.rows, cols[j]), p)
      {
        assert cols[j] in cols;
        assert row[4 + j] == row[4..][j];
      }
    }
  }

  /** The Min, Geomean and Max rows of a finished table: present exactly
      when every column shows a number, and then in each column the least
      of the numbers the column shows, the factors `imp / 100 + 1` of all of
      them, and the greatest. */
  lemma TableTrailerFromBody(c: Ctx)
    requires Body(c).Some?
    ensures var rows := Body(c).value.rows;
      var cols := Columns(c.impls, c.baseline, c.tex);
      Table(c).Some? <==> forall j :: 0 <= j < |cols| ==> ColumnImps(c, rows, cols[j]) != []
    ensures Table(c).Some? ==>
      var t := Table(c).value;
      var rows := Body(c).value.rows;
      var cols := Columns(c.impls, c.baseline, c.tex);
      var p := Perc(c.tex);
      var mins := t[|t| - 3][4..];
      var geos := t[|t| - 2][4..];
      var maxs := t[|t| - 1][4..];
      && |mins| == |geos| == |maxs| == |cols|
      && forall j :: 0 <= j < |cols| ==>
           var xs := ColumnImps(c, rows, cols[j]);
           && xs != []
           && mins[j] == NumPct(Least(xs), p)
           && geos[j] == GeoPct(Factors(xs), p)
           && maxs[j] == NumPct(Greatest(xs), p)
  {
    TrailerRowFromBody(MinRow, c);
    TrailerRowFromBody(GeoRow, c);
    TrailerRowFromBody(MaxRow, c);
    if Table(c).Some? {
      TableShape(c);
      var st := Body(c).value.stats;
      TrailerTail(Table(c).value, TrailerRow(MinRow, c, st).value, TrailerRow(GeoRow, c, st).value,
                  TrailerRow(MaxRow, c, st).value);
    }
  }

  lemma TrailerTail<T>(t: seq<seq<T>>, mn: seq<T>, gm: seq<T>, mx: seq<T>)
    requires |t| >= 3 && t[|t| - 3..] == [mn, gm, mx]
    ensures t[|t| - 3] == mn && t[|t| - 2] == gm && t[|t| - 1] == mx
  {
    assert t[|t| - 3..][0] == t[|t| - 3];
    assert t[|t| - 3..][1] == t[|t| - 2];
    assert t[|t| - 3..][2] == t[|t| - 1];
  }

  /** A body row shows `x` in the column of `impl`: one of its numeric
      cells, owned by `impl`, holds `x`. */
  predicate Shows(c: Ctx, row: seq<Cell>, impl: string, x: real) {
    && Keyed(c, row)
    && exists j :: 0 <= j < |Owners(c, row)| && Owners(c, row)[j] == impl && row[4 + j].NumPct? && row[4 + j].x == x
  }

  lemma RowImpsMembers(c: Ctx, row: seq<Cell>, impl: string, x: real)
    requires Keyed(c, row)
    ensures x in RowImps(c, row, impl) <==> Shows(c, row, impl, x)
  {
    var ws := Owners(c, row);
    CellImpsMembers(row[4..], ws, impl, x);
    if x in RowImps(c, row, impl) {
      var j :| 0 <= j < |ws| && ws[j] == impl && row[4..][j].NumPct? && row[4..][j].x == x;
      assert row[4 + j] == row[4..][j];
    }
    if Shows(c, row, impl, x) {
      var j :| 0 <= j < |ws| && ws[j] == impl && row[4 + j].NumPct? && row[4 + j].x == x;
      assert row[4 + j] == row[4..][j];
    }
  }

  /** A number is among the numbers of a column exactly when some body row
      shows it in that column. */
  lemma {:induction false} ColumnImpsMembers(c: Ctx, rows: seq<seq<Cell>>, impl: string, x: real)
    requires forall i :: 0 <= i < |rows| ==> Keyed(c, rows[i])
    ensures x in ColumnImps(c, rows, impl) <==> exists i :: 0 <= i < |rows| && Shows(c, rows[i], impl, x)
    decreases |rows|
  {
    if |rows| > 0 {
      var n := |rows| - 1;
      var init := rows[..n];
      assert forall i :: 0 <= i < |init| ==> init[i] == rows[i];
      ColumnImpsMembers(c, init, impl, x);
      RowImpsMembers(c, rows[n], impl, x);
      assert ColumnImps(c, rows, impl) == ColumnImps(c, init, impl) + RowImps(c, rows[n], impl);
      if x in ColumnImps(c, rows, impl) {
        if x in ColumnImps(c, init, impl) {
          var i :| 0 <= i < |init| && Shows(c, init[i], impl, x);
          assert Shows(c, rows[i], impl, x);
        } else {
          assert Shows(c, rows[n], impl, x);
        }
      }
      if exists i :: 0 <= i < |rows| && Shows(c, rows[i], impl, x) {
        var i :| 0 <= i < |rows| && Shows(c, rows[i], impl, x);
        if i < n {
          assert Shows(c, init[i], impl, x);
          assert x in ColumnImps(c, init, impl);
        } else {
          assert i == n;
          assert Shows(c, rows[n], impl, x);
        }
      }
    }
  }
}
