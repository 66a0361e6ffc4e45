/** The sample extractors of the driver: each run helper turns the benchmark's
    standard output, already cut into lines, into the list of samples it
    returns with a `Correct` status. A sample is kept as the field text that
    `float` would convert. */
module HarnessExtract {
  import opened Wrappers
  import opened Strings
  import opened HarnessConfig

  const PbbsMarker := "PBBS-time"
  const ParlayMarker := "Parlay time"
  const ICacheMarker := "icache"
  const PromotedMarker := "-1,"
  const PushLabel := "number of success push_workctx"
  const WorkLabel := "work size"
  const TasksLabel := "number of total tasks"

  /** The five line loops: cilk5 timings, pbbs timings, pbbs_v2 timings,
      instruction-cache counters and promoted-task counters. */
  datatype Extractor = Cilk5Time | PbbsTime | ParlayTime | ICacheCount | PromotedCount

  /** A line that contains a marker containing `c` has a field after the first `c`. */
  lemma MarkerGivesSecondField(line: string, marker: string, c: char)
    requires Contains(line, marker) && c in marker
    ensures |Split(line, c)| >= 2
  {
    if c !in line {
      NoCharNoContains(line, marker, c);
    }
    SplitFirst(line, c);
  }

  /** The pbbs and pbbs_v2 rule: a line containing `marker` whose text before
      the first ':' contains it too contributes field 1; `None` is the
      IndexError when that line has no ':'. */
  function MarkedTime(marker: string, line: string): Option<seq<string>> {
    if !Contains(line, marker) then Some([])
    else
      var f := Split(line, ':');
      if !Contains(f[0], marker) then Some([])
      else if |f| < 2 then None
      else Some([f[1]])
  }

  /** What one output line contributes under each extractor. */
  function LineFields(e: Extractor, line: string): (r: Option<seq<string>>)
    ensures r.Some? ==> |r.value| <= 1
  {
    match e
    case Cilk5Time =>
      if !Contains(line, PbbsMarker) then Some([])
      else
        var f := Split(line, ':');
        if |f| < 2 then None else Some([f[1]])
    case PbbsTime => MarkedTime(PbbsMarker, line)
    case ParlayTime => MarkedTime(ParlayMarker, line)
    case ICacheCount =>
      if Contains(line, ICacheMarker) then Some([Split(line, ',')[0]]) else Some([])
    case PromotedCount =>
      if !Contains(line, PromotedMarker) then Some([])
      else
        var f := Split(line, ',');
        MarkerGivesSecondField(line, PromotedMarker, ',');
        if Contains(f[1], PushLabel) || Contains(f[1], WorkLabel) || Contains(f[1], TasksLabel) then
          if |f| < 3 then None else Some([f[2]])
        else Some([])
  }

  /** The samples of a whole output under one extractor, in line order;
      `None` when some line raises. */
  function Gather(e: Extractor, lines: seq<string>): Option<seq<string>>
    decreases |lines|
  {
    if |lines| == 0 then Some([])
    else
      match Gather(e, lines[..|lines| - 1])
      case None => None
      case Some(prev) =>
        match LineFields(e, lines[|lines| - 1])
        case None => None
        case Some(f) => Some(prev + f)
  }

  /** Both parts must succeed, and then their samples are concatenated. */
  function Then(a: Option<seq<string>>, b: Option<seq<string>>): Option<seq<string>> {
    if a.Some? && b.Some? then Some(a.value + b.value) else None
  }

  /** One extraction loop: walk the lines, append what each contributes. */
  method Extract(e: Extractor, lines: seq<string>) returns (r: Option<seq<string>>)
    ensures r == Gather(e, lines)
  {
    var resTime: seq<string> := [];
    var i := 0;
    while i < |lines|
      invariant 0 <= i <= |lines|
      invariant Gather(e, lines[..i]) == Some(resTime)
    {
      assert lines[..i + 1][..i] == lines[..i];
      var f := LineFields(e, lines[i]);
      if f.None? {
        GatherAppend(e, lines[..i + 1], lines[i + 1..]);
        assert lines[..i + 1] + lines[i + 1..] == lines;
        return None;
      }
      resTime := resTime + f.value;
      i := i + 1;
    }
    assert lines[..i] == lines;
    r := Some(resTime);
  }

  /** Extracting from two outputs one after the other is extracting from
      their concatenation: samples keep the order of the lines they come from. */
  lemma {:induction false} GatherAppend(e: Extractor, a: seq<string>, b: seq<string>)
    ensures Gather(e, a + b) == Then(Gather(e, a), Gather(e, b))
    decreases |b|
  {
    if |b| == 0 {
      assert a + b == a;
      if Gather(e, a).Some? {
        assert Gather(e, a).value + [] == Gather(e, a).value;
      }
    } else {
      var b' := b[..|b| - 1];
      assert (a + b)[..|a + b| - 1] == a + b';
      assert (a + b)[|a + b| - 1] == b[|b| - 1];
      GatherAppend(e, a, b');
      var f := LineFields(e, b[|b| - 1]);
      if Gather(e, a).Some? && Gather(e, b').Some? && f.Some? {
        var x, y := Gather(e, a).value, Gather(e, b').value;
        assert (x + y) + f.value == x + (y + f.value);
      }
    }
  }

  /** Extraction fails exactly when some line raises, and otherwise gives at
      most one sample per line. */
  lemma {:induction false} GatherFails(e: Extractor, lines: seq<string>)
    ensures Gather(e, lines).None? <==> exists k :: 0 <= k < |lines| && LineFields(e, lines[k]).None?
    ensures Gather(e, lines).Some? ==> |Gather(e, lines).value| <= |lines|
    decreases |lines|
  {
    if |lines| > 0 {
      var init := lines[..|lines| - 1];
      GatherFails(e, init);
      if exists k :: 0 <= k < |init| && LineFields(e, init[k]).None? {
        var k :| 0 <= k < |init| && LineFields(e, init[k]).None?;
        assert lines[k] == init[k];
      }
      if exists k :: 0 <= k < |lines| && LineFields(e, lines[k]).None? {
        var k :| 0 <= k < |lines| && LineFields(e, lines[k]).None?;
        if k < |init| {
          assert init[k] == lines[k];
        }
      }
    }
  }

  /** The pbbs rule, said positionally: a line counts when the marker lies
      before its first ':'; it then gives the text between the first and the
      second ':', unless there is no ':' at all, which raises. */
  lemma MarkedTimeRule(marker: string, line: string)
    requires ':' !in marker
    ensures var f := Split(line, ':');
      MarkedTime(marker, line) ==
        if !Contains(f[0], marker) then Some([])
        else if ':' !in line then None
        else Some([f[1]])
  {
    var f := Split(line, ':');
    SplitFirst(line, ':');
    if Contains(f[0], marker) {
      ContainsExtend([], f[0], line[|f[0]|..], marker);
      assert [] + f[0] + line[|f[0]|..] == line;
    }
  }

  /** A line printed as `<marker>:<v>`, with no ':' in `v`, yields exactly `v`. */
  lemma PrintedTime(marker: string, v: string)
    requires ':' !in marker && ':' !in v
    ensures MarkedTime(marker, marker + ":" + v) == Some([v])
  {
    var line := marker + ":" + v;
    assert Join([marker, v], [':']) == line;
    SplitJoin([marker, v], ':');
    assert marker <= marker + ":" + v;
    assert Contains(marker, marker);
  }

  /** The lines a pbbs benchmark prints for its timings. */
  function TimeLines(marker: string, vs: seq<string>): seq<string> {
    seq(|vs|, k requires 0 <= k < |vs| => marker + ":" + vs[k])
  }

  /** The lines of all but the last value, then the last value's line. */
  lemma TimeLinesSnoc(marker: string, vs: seq<string>)
    requires |vs| > 0
    ensures |TimeLines(marker, vs)| == |vs|
    ensures TimeLines(marker, vs)[..|vs| - 1] == TimeLines(marker, vs[..|vs| - 1])
    ensures TimeLines(marker, vs)[|vs| - 1] == marker + ":" + vs[|vs| - 1]
  {
  }

  /** The marker of a timing extractor. */
  function TimeMarker(e: Extractor): string {
    if e == PbbsTime then PbbsMarker else ParlayMarker
  }

  /** The pbbs and pbbs_v2 extractors read the line a benchmark prints for
      one timing as that timing. */
  lemma TimedLine(e: Extractor, v: string)
    requires e == PbbsTime || e == ParlayTime
    requires ':' !in v
    ensures LineFields(e, TimeMarker(e) + ":" + v) == Some([v])
  {
    assert ':' !in PbbsMarker && ':' !in ParlayMarker;
    PrintedTime(TimeMarker(e), v);
  }

  /** Reading back the timing lines a pbbs or pbbs_v2 benchmark printed gives
      its timings, in order. */
  lemma {:induction false} TimeLinesRoundTrip(e: Extractor, vs: seq<string>)
    requires e == PbbsTime || e == ParlayTime
    requires forall k :: 0 <= k < |vs| ==> ':' !in vs[k]
    ensures Gather(e, TimeLines(TimeMarker(e), vs)) == Some(vs)
    decreases |vs|
  {
    if |vs| > 0 {
      var m := TimeMarker(e);
      var n := |vs|;
      var init := vs[..n - 1];
      var last := vs[n - 1];
      var lines := TimeLines(m, vs);
      TimeLinesSnoc(m, vs);
      TimeLinesRoundTrip(e, init);
      assert Gather(e, lines[..n - 1]) == Some(init);
      TimedLine(e, last);
      assert LineFields(e, lines[n - 1]) == Some([last]);
      assert init + [last] == vs;
    }
  }

  /** The cilk5 loop does not check where the marker is: on any line whose
      marker comes before its first ':' it agrees with the pbbs loop. */
  lemma Cilk5AgreesWithPbbs(line: string)
    requires Contains(line, PbbsMarker) ==> Contains(Split(line, ':')[0], PbbsMarker)
    ensures LineFields(Cilk5Time, line) == LineFields(PbbsTime, line)
  {
    MarkedTimeRule(PbbsMarker, line);
    SplitFirst(line, ':');
  }

  /** ... and a marker after the first ':' is where they differ: cilk5 still
      takes field 1, pbbs takes nothing. */
  lemma Cilk5MarkerAfterColon()
    ensures LineFields(Cilk5Time, "x:PBBS-time") == Some(["PBBS-time"])
    ensures LineFields(PbbsTime, "x:PBBS-time") == Some([])
  {
    var line := "x:PBBS-time";
    assert Join(["x", "PBBS-time"], [':']) == line;
    SplitJoin(["x", "PBBS-time"], ':');
    assert PbbsMarker <= line[2..];
    assert Contains(line[2..], PbbsMarker);
    assert line[1..][1..] == line[2..];
    assert Contains(line[1..], PbbsMarker);
    assert !Contains("x", PbbsMarker);
  }

  /** A promoted-task line contributes field 2 exactly when field 1 carries
      one of the three counter labels. */
  lemma PromotedRule(line: string)
    requires Contains(line, PromotedMarker)
    ensures var f := Split(line, ',');
      |f| >= 2 &&
      LineFields(PromotedCount, line) ==
        if !(Contains(f[1], PushLabel) || Contains(f[1], WorkLabel) || Contains(f[1], TasksLabel)) then Some([])
        else if |f| < 3 then None
        else Some([f[2]])
  {
    MarkerGivesSecondField(line, PromotedMarker, ',');
  }

  /** What the pbbs_v2 run helper returns for one output: the timings, then
      the cache counters when `measureICache`, then the promoted-task counters
      when `measurePromoted`. */
  function PbbsV2Samples(lines: seq<string>, measureICache: bool, measurePromoted: bool): Option<seq<string>> {
    Then(Then(Gather(ParlayTime, lines),
              if measureICache then Gather(ICacheCount, lines) else Some([])),
         if measurePromoted then Gather(PromotedCount, lines) else Some([]))
  }

  /** The pbbs_v2 pass as the run helper performs it. */
  method ExtractPbbsV2(lines: seq<string>, measureICache: bool, measurePromoted: bool) returns (r: Option<seq<string>>)
    ensures r == PbbsV2Samples(lines, measureICache, measurePromoted)
  {
    r := Extract(ParlayTime, lines);
    if r.None? {
      return;
    }
    if measureICache {
      var c := Extract(ICacheCount, lines);
      r := Then(r, c);
      if r.None? {
        return;
      }
    } else {
      assert r.value + [] == r.value;
    }
    if measurePromoted {
      var p := Extract(PromotedCount, lines);
      r := Then(r, p);
    } else {
      assert r.value + [] == r.value;
    }
  }

  /** With both counters off the pbbs_v2 samples are just the timings, and
      every counter sample comes after all timing samples. */
  lemma PbbsV2TimingsFirst(lines: seq<string>, measureICache: bool, measurePromoted: bool)
    requires PbbsV2Samples(lines, measureICache, measurePromoted).Some?
    ensures Gather(ParlayTime, lines).Some?
    ensures Gather(ParlayTime, lines).value <= PbbsV2Samples(lines, measureICache, measurePromoted).value
    ensures !measureICache && !measurePromoted ==> PbbsV2Samples(lines, false, false) == Gather(ParlayTime, lines)
  {
    var t := Gather(ParlayTime, lines).value;
    assert t + [] == t;
    assert t + [] + [] == t;
  }

  /** How a benchmark process ended: its exit code and output lines, or a
      timeout. */
  datatype Process = Exited(code: int, lines: seq<string>) | TimedOut

  /** The benchmark suite a descriptor belongs to. */
  datatype Suite = Cilk5 | Pbbs | PbbsV2

  /** `run_benchmark` after the process has ended: status and samples.
      cilk5 and pbbs treat any non-zero exit code as incorrect, pbbs_v2 only
      code 139. `None` means the helper raised. */
  function RunResult(suite: Suite, p: Process, measureICache: bool, measurePromoted: bool): Option<(RunStatus, seq<string>)> {
    match p
    case TimedOut => Some((Timeout, []))
    case Exited(code, lines) =>
      var failed := if suite == PbbsV2 then code == 139 else code != 0;
      var samples :=
        match suite
        case Cilk5 => Gather(Cilk5Time, lines)
        case Pbbs => Gather(PbbsTime, lines)
        case PbbsV2 => PbbsV2Samples(lines, measureICache, measurePromoted);
      if failed then Some((Incorrect, []))
      else if samples.None? then None
      else Some((Correct, samples.value))
  }

  /** Samples come only with a `Correct` status; pbbs_v2 reports a crash
      exit other than 139 as `Correct` with whatever it parsed. */
  lemma RunResultFacts(suite: Suite, p: Process, ic: bool, pr: bool)
    ensures RunResult(suite, p, ic, pr).Some? && RunResult(suite, p, ic, pr).value.0 != Correct ==>
      RunResult(suite, p, ic, pr).value.1 == []
    ensures p.TimedOut? ==> RunResult(suite, p, ic, pr) == Some((Timeout, []))
    ensures suite != PbbsV2 && p.Exited? && p.code != 0 ==> RunResult(suite, p, ic, pr) == Some((Incorrect, []))
    ensures p.Exited? && p.code == 1 && PbbsV2Samples(p.lines, ic, pr).Some? ==>
      RunResult(PbbsV2, p, ic, pr) == Some((Correct, PbbsV2Samples(p.lines, ic, pr).value))
  {
  }
}
