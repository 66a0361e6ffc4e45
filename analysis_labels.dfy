/** The implementation-label helpers of the analysis script (analyzecsv.py):
    the remap table from configuration labels to short implementation names,
    the column filter and the miss-rate formula. */
module AnalysisLabels {
  import opened Wrappers
  import opened Strings

  /** `binaryname2implname`. */
  const ImplNames: map<string, string> := map[
    "LazyD with Frequent Polling+DELEGATEPRCPRL+8+cg" := "LazyD",
    "LazyD with InFrequent Polling+DELEGATEPRCPRL+8+cg" := "LazyD",
    "LazyD with InFrequent Polling+PRCPRL+8+cg" := "LazyD-EF",
    "LazyD with Frequent Polling+PRCPRL+8+cg" := "LazyD-EF",
    "LazyD with InFrequent Polling+DELEGATEPRC+8+cg" := "LazyD-PRL",
    "LazyD with Frequent Polling+DELEGATEPRC+8+cg" := "LazyD-PRL",
    "OpenCilk+OPENCILKDEFAULT_FINE+8+cg" := "OpenCilk.fine",
    "LazyD with Frequent Polling+DELEGATEPRCPRL+8+nocg" := "LazyD-cg",
    "LazyD with InFrequent Polling+DELEGATEPRCPRL+8+nocg" := "LazyD-cg",
    "OpenCilk+PBBS+2048+nocg" := "OpenCilk-cg",
    "OpenCilk+PBBS+2048+cg" := "OpenCilk",
    "LazyD with No Polling+PRL+8+cg" := "LazyD-poll",
    "Serial" := "Serial"]

  /** The short names the table can produce. */
  const ShortNames: seq<string> := ["LazyD", "LazyD-EF", "LazyD-PRL", "OpenCilk.fine", "LazyD-cg",
                                    "OpenCilk-cg", "OpenCilk", "LazyD-poll", "Serial"]

  lemma ShortNamesAreValues(opt: string)
    requires opt in ImplNames
    ensures ImplNames[opt] in ShortNames
  {
  }

  /** `checkValid`: -1 for a label the table does not know; Python's `None`
      (the function falling off its end) otherwise. */
  function CheckValid(opt: string): (r: Option<int>)
    ensures r == Some(-1) <==> opt !in ImplNames
    ensures r.None? <==> opt in ImplNames
  {
    if opt !in ImplNames then Some(-1) else None
  }

  /** `getImplNameArg`: the table's short name for a known label, the label
      itself otherwise. */
  function GetImplNameArg(opt: string): string {
    if CheckValid(opt) != Some(-1) then ImplNames[opt] else opt
  }

  /** Remapping keeps unknown labels and renames known ones; because no short
      name except "Serial" (which maps to itself) is also a label, remapping
      twice is remapping once. */
  lemma GetImplNameArgFacts(opt: string)
    ensures opt !in ImplNames ==> GetImplNameArg(opt) == opt
    ensures opt in ImplNames ==> GetImplNameArg(opt) == ImplNames[opt] && GetImplNameArg(opt) in ShortNames
    ensures GetImplNameArg(GetImplNameArg(opt)) == GetImplNameArg(opt)
  {
    if opt in ImplNames {
      ShortNamesAreValues(opt);
      var v := ImplNames[opt];
      assert v in ImplNames ==> v == "Serial";
    }
  }

  /** The baseline implementation of the comparison table. */
  lemma BaselineName()
    ensures GetImplNameArg("OpenCilk+PBBS+2048+cg") == "OpenCilk"
  {
  }

  /** `ignore_impl`: no column for the baseline itself, nor in LaTeX mode for
      a label with a '+', that is one the table did not rename. */
  predicate IgnoreImpl(impl: string, baseline: string, tex: bool) {
    impl == baseline || (tex && '+' in impl)
  }

  /** For a one-character text, Python's `in` is plain membership, which is
      how `IgnoreImpl` reads `'+' in impl`. */
  lemma CharInIsContains(s: string, c: char)
    ensures c in s <==> Contains(s, [c])
  {
    ContainsAt(s, [c]);
    if c in s {
      var i :| 0 <= i < |s| && s[i] == c;
      assert [c] <= s[i..];
    }
    if Contains(s, [c]) {
      var i :| 0 <= i <= |s| - 1 && [c] <= s[i..];
      assert s[i..][0] == s[i];
    }
  }

  /** The label `getresult` builds from a row: framework, scheduler, grain
      size and grain-size mode, joined by '+'. */
  function RawLabel(framework: string, scheduler: string, grain: string, ignoreUserGrain: string): string {
    framework + "+" + scheduler + "+" + grain + "+" + (if ignoreUserGrain == "Yes" then "nocg" else "cg")
  }

  /** In LaTeX mode a row label gets a column exactly when the table renames
      it to something other than the baseline. */
  lemma TexColumns(framework: string, scheduler: string, grain: string, ignoreUserGrain: string)
    ensures var l := RawLabel(framework, scheduler, grain, ignoreUserGrain);
      !IgnoreImpl(GetImplNameArg(l), "OpenCilk", true) <==> l in ImplNames && ImplNames[l] != "OpenCilk"
  {
    var l := RawLabel(framework, scheduler, grain, ignoreUserGrain);
    assert l[|framework|] == '+';
    if l in ImplNames {
      ShortNamesAreValues(l);
      assert '+' !in ImplNames[l];
    }
  }

  /** `calculate_mr` on the miss and hit counts: -1 for a negative miss
      count, `None` for the ZeroDivisionError of zero misses and hits, the
      miss percentage otherwise. */
  function MissRate(imisses: real, ihits: real): (r: Option<real>)
    ensures imisses < 0.0 ==> r == Some(-1.0)
    ensures r.None? <==> imisses >= 0.0 && imisses + ihits == 0.0
    ensures imisses >= 0.0 && ihits >= 0.0 && imisses + ihits > 0.0 ==> r.Some? && 0.0 <= r.value <= 100.0
  {
    if imisses < 0.0 then Some(-1.0)
    else if imisses + ihits == 0.0 then None
    else Some(100.0 * imisses / (imisses + ihits))
  }
}
