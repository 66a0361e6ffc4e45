/** The small, total pieces of the benchmark driver (testBenchmark_compile.py):
    run-status names, the lowering enumeration and its result-file label, the
    make-variable string built for pbbs_v2 compilation, the rule that decides
    whether a compilation failed, and the list of core counts to run. */
module HarnessConfig {
  import opened Wrappers
  import opened Strings

  /** Outcome of one run or one check of a benchmark binary. */
  datatype RunStatus = Correct | Incorrect | Timeout

  /** `get_run_status_str`. */
  function RunStatusStr(s: RunStatus): string {
    match s
    case Correct => "Correct"
    case Incorrect => "Incorrect"
    case Timeout => "Timeout"
  }

  /** Different statuses are written differently. */
  lemma RunStatusStrInjective(a: RunStatus, b: RunStatus)
    ensures RunStatusStr(a) == RunStatusStr(b) ==> a == b
  {
    if a != b {
      match a
      case Correct => assert RunStatusStr(a)[0] == 'C';
      case Incorrect => assert RunStatusStr(a)[0] == 'I';
      case Timeout => assert RunStatusStr(a)[0] == 'T';
    }
  }

  /** The `CilkLowering` enumeration. */
  datatype Lowering = Serial | LazyD2 | Nopoll | SIGUSR | UIPI | LazyD0 | CilkPlus

  /** The `--parallel_framework` choice as `main` turns it into a lowering;
      anything unrecognised keeps the initial LazyD0. */
  function LoweringFromFlag(flag: string): Lowering {
    if flag == "lazyd2" then LazyD2
    else if flag == "lazyd0" then LazyD0
    else if flag == "nopoll" then Nopoll
    else if flag == "tapir" then CilkPlus
    else if flag == "serial" then Serial
    else LazyD0
  }

  /** The PARALLEL_FRAMEWORK cell `execute_benchmark` writes; `None` is the
      `assert(0)` reached for SIGUSR and UIPI. */
  function FrameworkLabel(l: Lowering): Option<string> {
    match l
    case Serial => Some("Serial")
    case LazyD2 => Some("LazyD with Frequent Polling")
    case Nopoll => Some("LazyD with No Polling")
    case LazyD0 => Some("LazyD with InFrequent Polling")
    case CilkPlus => Some("OpenCilk")
    case _ => None
  }

  /** The label is missing exactly for the two lowerings the command line
      cannot select, and distinct lowerings get distinct labels. */
  lemma FrameworkLabelFacts(flag: string, a: Lowering, b: Lowering)
    ensures FrameworkLabel(a).None? <==> a == SIGUSR || a == UIPI
    ensures FrameworkLabel(LoweringFromFlag(flag)).Some?
    ensures FrameworkLabel(a).Some? && FrameworkLabel(a) == FrameworkLabel(b) ==> a == b
  {
  }

  /** The make variable selected by `--schedule_tasks` (PBBS and anything
      else select none). */
  function SchedulerOption(taskScheduler: string): string {
    if taskScheduler == "PRC" then "PRC=1"
    else if taskScheduler == "PRL" then "PRL=1"
    else if taskScheduler == "PRCPRL" then "PRCPRL=1"
    else if taskScheduler == "DELEGATEPRC" then "DELEGATEPRC=1"
    else if taskScheduler == "DELEGATEPRCPRL" then "DELEGATEPRCPRL=1"
    else if taskScheduler == "OPENCILKDEFAULT_FINE" then "OPENCILKDEFAULT_FINE=1"
    else ""
  }

  /** `additional_options` in `compile_benchmark_pbbs_v2`. */
  function AdditionalOptions(taskScheduler: string, noopt: bool, finerGrainSize: bool): string {
    SchedulerOption(taskScheduler)
      + (if noopt then " NOOPT=1" else "")
      + (if finerGrainSize then " GRAINSIZE8=1" else "")
  }

  /** The third character from the end tells which flag was appended last:
      '8' for GRAINSIZE8=1, 'T' for NOOPT=1; no scheduler option has either
      there. */
  lemma SchedulerOptionTail(taskScheduler: string)
    ensures var o := SchedulerOption(taskScheduler); |o| < 3 || (o[|o| - 3] != '8' && o[|o| - 3] != 'T')
  {
  }

  /** The character three from the end of `s`, when there is one. */
  predicate ThirdFromEnd(s: string, c: char) {
    |s| >= 3 && s[|s| - 3] == c
  }

  lemma NoOptTag(t: string, n: bool)
    ensures ThirdFromEnd(SchedulerOption(t) + (if n then " NOOPT=1" else ""), 'T') <==> n
  {
    SchedulerOptionTail(t);
  }

  lemma GrainTag(t: string, n: bool, f: bool)
    ensures ThirdFromEnd(AdditionalOptions(t, n, f), '8') <==> f
  {
    SchedulerOptionTail(t);
  }

  /** Different (scheduler option, noopt, finer grain size) settings give
      different make-variable strings, so the string identifies the
      configuration it was built from. */
  lemma {:induction false} AdditionalOptionsInjective(t1: string, n1: bool, f1: bool, t2: string, n2: bool, f2: bool)
    requires AdditionalOptions(t1, n1, f1) == AdditionalOptions(t2, n2, f2)
    ensures SchedulerOption(t1) == SchedulerOption(t2) && n1 == n2 && f1 == f2
  {
    var x1 := SchedulerOption(t1) + (if n1 then " NOOPT=1" else "");
    var x2 := SchedulerOption(t2) + (if n2 then " NOOPT=1" else "");
    var s := AdditionalOptions(t1, n1, f1);
    GrainTag(t1, n1, f1);
    GrainTag(t2, n2, f2);
    assert x1 == x2 by {
      var g := " GRAINSIZE8=1";
      if f1 {
        assert s == x1 + g;
        assert AdditionalOptions(t2, n2, f2) == x2 + g;
        assert x1 == (x1 + g)[..|x1|];
        assert x2 == (x2 + g)[..|x2|];
        assert |x1| == |x2|;
      } else {
        assert s == x1 && AdditionalOptions(t2, n2, f2) == x2;
      }
    }
    var o1, o2 := SchedulerOption(t1), SchedulerOption(t2);
    NoOptTag(t1, n1);
    NoOptTag(t2, n2);
    if n1 {
      assert x1 == o1 + " NOOPT=1" && x2 == o2 + " NOOPT=1";
      assert o1 == (o1 + " NOOPT=1")[..|o1|];
      assert o2 == (o2 + " NOOPT=1")[..|o2|];
      assert |o1| == |o2|;
    } else {
      assert x1 == o1 && x2 == o2;
    }
  }

  /** The compile-outcome rule shared by the three compile helpers: output
      that mentions "Error" means failure with message "Compilation failed",
      anything else success with an empty message. */
  function CompileOutcome(out: string): (r: (int, string))
    ensures r.0 == 0 || r.0 == 1
    ensures r.0 == 0 <==> Contains(out, "Error")
    ensures r.1 == "" <==> r.0 == 1
  {
    if Contains(out, "Error") then (0, "Compilation failed") else (1, "")
  }

  /** A failing compilation stays failed whatever else the output contains. */
  lemma CompileFailureSticks(before: string, out: string, after: string)
    requires CompileOutcome(out).0 == 0
    ensures CompileOutcome(before + out + after) == (0, "Compilation failed")
  {
    ContainsExtend(before, out, after, "Error");
  }

  /** The numeric entries of the user's comma-separated core list, as ints,
      in input order. */
  function UserCores(parts: seq<string>): seq<nat>
    decreases |parts|
  {
    if |parts| == 0 then []
    else
      var p := parts[|parts| - 1];
      UserCores(parts[..|parts| - 1]) + (if IsNumeric(p) then [DecimalValue(p)] else [])
  }

  /** The decimal texts of some numbers. */
  function DecimalTexts(ns: seq<nat>): (r: seq<string>)
    ensures |r| == |ns|
    ensures forall k :: 0 <= k < |ns| ==> r[k] == NatToString(ns[k])
  {
    seq(|ns|, k requires 0 <= k < |ns| => NatToString(ns[k]))
  }

  lemma {:induction false} UserCoresOfTexts(ns: seq<nat>)
    ensures UserCores(DecimalTexts(ns)) == ns
    decreases |ns|
  {
    if |ns| > 0 {
      var init := ns[..|ns| - 1];
      assert DecimalTexts(ns)[..|ns| - 1] == DecimalTexts(init);
      UserCoresOfTexts(init);
    }
  }

  /** Writing core counts as "n1,n2,...,nk" and reading them back gives the
      same counts in the same order. */
  lemma UserCoresRoundTrip(ns: seq<nat>)
    requires |ns| > 0
    ensures UserCores(Split(Join(DecimalTexts(ns), ","), ',')) == ns
  {
    var parts := DecimalTexts(ns);
    forall k | 0 <= k < |parts| ensures ',' !in parts[k] {
      assert IsNumeric(parts[k]);
    }
    SplitJoin(parts, ',');
    UserCoresOfTexts(ns);
  }

  predicate StrictlyIncreasing(s: seq<nat>) {
    forall i, j :: 0 <= i < j < |s| ==> s[i] < s[j]
  }

  /** The core counts run when the user gives none, described without the
      loop: 1, every positive multiple of 8 up to the machine's core count, and
      that core count itself. */
  predicate DefaultCore(x: int, maxCores: nat) {
    x == 1 || (maxCores >= 1 && x == maxCores) || (x % 8 == 0 && 8 <= x <= maxCores)
  }

  /** The first loop of `get_test_num_cores`: keep the numeric entries of
      the comma-separated list, converted to ints. */
  method ParseUserCores(text: string) returns (cores: seq<nat>)
    ensures cores == UserCores(Split(text, ','))
  {
    var stringCore := Split(text, ',');
    cores := [];
    var i := 0;
    while i < |stringCore|
      invariant 0 <= i <= |stringCore|
      invariant cores == UserCores(stringCore[..i])
    {
      assert stringCore[..i + 1][..i] == stringCore[..i];
      if IsNumeric(stringCore[i]) {
        cores := cores + [DecimalValue(stringCore[i])];
      }
      i := i + 1;
    }
    assert stringCore[..i] == stringCore;
  }

  /** The fallback of `get_test_num_cores`: 1, then 8, 16, ... while not
      above the machine's core count, then that count if it is not yet last. */
  method DefaultTestCores(maxCores: nat) returns (testCores: seq<nat>)
    ensures testCores != [] && testCores[0] == 1
    ensures testCores[|testCores| - 1] == (if maxCores >= 1 then maxCores else 1)
    ensures StrictlyIncreasing(testCores)
    ensures forall x :: x in testCores <==> DefaultCore(x, maxCores)
  {
    testCores := [1];
    var n := 8;
    while n <= maxCores
      invariant n % 8 == 0 && 8 <= n <= maxCores + 8
      invariant |testCores| == n / 8
      invariant testCores[0] == 1
      invariant forall k :: 1 <= k < |testCores| ==> testCores[k] == 8 * k
    {
      testCores := testCores + [n];
      n := n + 8;
    }
    if testCores[|testCores| - 1] < maxCores {
      testCores := testCores + [maxCores];
    }
    forall x ensures x in testCores <==> DefaultCore(x, maxCores) {
      if x % 8 == 0 && 8 <= x <= maxCores {
        assert testCores[x / 8] == x;
      }
    }
  }

  /** `get_test_num_cores`. `specified` is the `--num_cores` argument list
      (argparse always gives at least one element, `None` when the option is
      absent) and `maxCores` stands for `multiprocessing.cpu_count()`. */
  method GetTestNumCores(specified: seq<Option<string>>, maxCores: nat) returns (testCores: seq<nat>)
    requires |specified| >= 1
    ensures specified[0].Some? && UserCores(Split(specified[0].value, ',')) != [] ==>
      testCores == UserCores(Split(specified[0].value, ','))
    ensures !(specified[0].Some? && UserCores(Split(specified[0].value, ',')) != []) ==>
      && testCores != [] && testCores[0] == 1
      && testCores[|testCores| - 1] == (if maxCores >= 1 then maxCores else 1)
      && StrictlyIncreasing(testCores)
      && (forall x :: x in testCores <==> DefaultCore(x, maxCores))
  {
    testCores := [];
    if specified[0].Some? {
      testCores := ParseUserCores(specified[0].value);
    }
    if |testCores| != 0 {
      return;
    }
    testCores := DefaultTestCores(maxCores);
  }
}
