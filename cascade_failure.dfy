/**
 * A run that reaches a component without `gain` or `NF` fails, on any
 * component list and data list: repeated uids, and data not aligned with
 * the components, included.
 */
module CascadeFailure {
  import opened Curves
  import opened ParamMaps
  import opened Cascade

  /** A stage whose component lacks `gain` or `NF` fails, whatever the data list holds. */
  lemma StepFailsAtMissing(conv: Conversions, comps: seq<Stage>, data: seq<Stage>, idx: nat, freq: real)
    requires idx < |comps| && StagesParallel(comps) && StagesParallel(data)
    requires "gain" !in comps[idx].params || "NF" !in comps[idx].params
    ensures Step(conv, comps, data, idx, freq).1.Fail?
  {
  }

  /** Iterations from `idx` on fail when a component at or after `idx` lacks `gain` or `NF`. */
  lemma {:induction false} RunFromFails(conv: Conversions, comps: seq<Stage>, data: seq<Stage>, idx: nat, m: nat,
                                        freq: real)
    requires idx <= m < |comps| && StagesParallel(comps) && StagesParallel(data)
    requires "gain" !in comps[m].params || "NF" !in comps[m].params
    ensures RunFrom(conv, comps, data, idx, freq).1.Fail?
    decreases m - idx
  {
    if idx == m {
      StepFailsAtMissing(conv, comps, data, idx, freq);
    } else if Step(conv, comps, data, idx, freq).1.Pass? {
      RunFromFails(conv, comps, Step(conv, comps, data, idx, freq).0, idx + 1, m, freq);
    }
  }

  /**
   * Any run, with repeated uids or data not aligned with the components,
   * fails when some component lacks `gain` or `NF`.
   */
  lemma RunFailsAtMissing(conv: Conversions, comps: seq<Stage>, data: seq<Stage>, m: nat, freq: real)
    requires StagesParallel(comps) && StagesParallel(data)
    requires m < |comps| && ("gain" !in comps[m].params || "NF" !in comps[m].params)
    ensures Run(conv, comps, data, freq).1.Fail?
  {
    RunFromFails(conv, comps, data, 0, m, freq);
  }
}
