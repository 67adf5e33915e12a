/**
 * What one `CascadeEngine.run(freq)` does, stated on values: each stage is
 * a (uid, name, parameter map) triple, the engine's data list is a sequence
 * of such stages, and a run walks the component list in index order.
 *
 * The dB/linear conversions, `log10` and two-decimal rounding are floating
 * point library calls; they are parameters here (`Conversions`), so every
 * property below holds whatever those functions compute.
 */
module Cascade {
  import opened Errors
  import opened Curves
  import opened ParamMaps

  /** `_get_linear_value` (10^(x/10)), `_get_db_value` (10 log10 x) and `round(x, 2)`. */
  datatype Conversions = Conversions(toLinear: real -> real, toDb: real -> real, round2: real -> real)

  /** A component or a component-data entry seen as a value. */
  datatype Stage = Stage(uid: string, name: string, params: Params)

  predicate StagesParallel(ss: seq<Stage>)
  {
    forall i :: 0 <= i < |ss| ==> AllParallel(ss[i].params)
  }

  predicate StagesSorted(ss: seq<Stage>)
  {
    forall i :: 0 <= i < |ss| ==> AllSorted(ss[i].params)
  }

  lemma SortedIsParallel(ss: seq<Stage>)
    requires StagesSorted(ss)
    ensures StagesParallel(ss)
  {
    forall i | 0 <= i < |ss|
      ensures AllParallel(ss[i].params)
    {
    }
  }

  /** The first entry holding `uid`, as the scan in `add_component_data` finds it. */
  function FindUid(data: seq<Stage>, uid: string): (r: Option<nat>)
    ensures r.Some? ==> r.value < |data| && data[r.value].uid == uid
    ensures r.Some? ==> forall j :: 0 <= j < r.value ==> data[j].uid != uid
    ensures r.None? ==> forall j :: 0 <= j < |data| ==> data[j].uid != uid
  {
    if data == [] then None
    else if data[0].uid == uid then Some(0)
    else match FindUid(data[1..], uid)
      case None => None
      case Some(i) => Some(i + 1)
  }

  /** `add_component_data`: the entry with this uid, else a new empty entry appended. */
  function GetOrAppend(data: seq<Stage>, uid: string, name: string): (r: (seq<Stage>, nat))
    ensures r.1 < |r.0| && r.0[r.1].uid == uid
  {
    match FindUid(data, uid)
    case Some(i) => (data, i)
    case None => (data + [Stage(uid, name, map[])], |data|)
  }

  /** Get-or-append leaves an existing uid's list alone and otherwise appends exactly one entry. */
  lemma GetOrAppendEffect(data: seq<Stage>, uid: string, name: string)
    ensures var (d, k) := GetOrAppend(data, uid, name);
            (exists j :: 0 <= j < |data| && data[j].uid == uid) ==> d == data && data[k].uid == uid
    ensures var (d, k) := GetOrAppend(data, uid, name);
            (forall j :: 0 <= j < |data| ==> data[j].uid != uid) ==>
              d == data + [Stage(uid, name, map[])] && k == |data|
  {
  }

  /** Write `value` at `freq` into parameter `name` of entry `k` (`update_parameter`). */
  function SetParam(data: seq<Stage>, k: nat, name: string, freq: real, value: real): (r: seq<Stage>)
    requires k < |data| && StagesParallel(data)
    ensures |r| == |data| && StagesParallel(r)
    ensures forall j :: 0 <= j < |data| && j != k ==> r[j] == data[j]
  {
    UpdateParallel(data[k].params, name, freq, value);
    data[k := data[k].(params := Update(data[k].params, name, freq, value))]
  }

  /**
   * The cascaded value the stage before idx left in the data list
   * (`self.comp_data[idx - 1]`); stage 0 starts from 0 dB.
   */
  function Before(data: seq<Stage>, idx: nat, name: string, freq: real): (r: Result<real>)
    requires StagesParallel(data)
    ensures idx == 0 ==> r == Ok(0.0)
    ensures 0 < idx <= |data| ==> r == ValueAt(data[idx - 1].params, name, freq)
    ensures idx > |data| ==> r == Err(IndexOutOfRange)
  {
    if idx == 0 then Ok(0.0)
    else if idx - 1 >= |data| then Err(IndexOutOfRange)
    else ValueAt(data[idx - 1].params, name, freq)
  }

  /** `cascade_gain`: previous cascaded gain (0 at stage 0) plus this stage's own gain. */
  function StageGain(comps: seq<Stage>, data: seq<Stage>, idx: nat, k: nat, freq: real): (r: Result<seq<Stage>>)
    requires idx < |comps| && k < |data| && StagesParallel(comps) && StagesParallel(data)
    ensures r.Ok? ==> |r.value| == |data| && StagesParallel(r.value)
  {
    var prev := Before(data, idx, "gain", freq);
    if prev.Err? then Err(prev.error)
    else
      var own := ValueAt(comps[idx].params, "gain", freq);
      if own.Err? then Err(own.error)
      else Ok(SetParam(data, k, "gain", freq, prev.value + own.value))
  }

  /**
   * The Friis recurrence F = F_prev + (F_own - 1) / G_prev in linear units,
   * converted back to dB and rounded; a zero divisor and a non-positive
   * logarithm argument fail as the library calls do.
   */
  function NoiseFigure(conv: Conversions, prevGain: real, prevNf: real, ownNf: real): Result<real>
  {
    var prevNfLinear := conv.toLinear(prevNf);
    var gainLinear := conv.toLinear(prevGain);
    var ownNfLinear := conv.toLinear(ownNf);
    if gainLinear == 0.0 then Err(ZeroDivision)
    else
      var nfLinear := prevNfLinear + (ownNfLinear - 1.0) / gainLinear;
      if nfLinear <= 0.0 then Err(MathDomain)
      else Ok(conv.round2(conv.toDb(nfLinear)))
  }

  /** `cascade_nf`: previous cascaded gain and NF (both 0 dB at stage 0) with this stage's own NF. */
  function StageNf(conv: Conversions, comps: seq<Stage>, data: seq<Stage>, idx: nat, k: nat, freq: real)
    : (r: Result<seq<Stage>>)
    requires idx < |comps| && k < |data| && StagesParallel(comps) && StagesParallel(data)
    ensures r.Ok? ==> |r.value| == |data| && StagesParallel(r.value)
  {
    var prevGain := Before(data, idx, "gain", freq);
    if prevGain.Err? then Err(prevGain.error)
    else
      var prevNf := Before(data, idx, "NF", freq);
      if prevNf.Err? then Err(prevNf.error)
      else
        var own := ValueAt(comps[idx].params, "NF", freq);
        if own.Err? then Err(own.error)
        else match NoiseFigure(conv, prevGain.value, prevNf.value, own.value)
          case Err(e) => Err(e)
          case Ok(nf) => Ok(SetParam(data, k, "NF", freq, nf))
  }

  /** One iteration of the loop in `run`: resolve the entry, then cascade gain, then NF. */
  function Step(conv: Conversions, comps: seq<Stage>, data: seq<Stage>, idx: nat, freq: real)
    : (r: (seq<Stage>, Outcome))
    requires idx < |comps| && StagesParallel(comps) && StagesParallel(data)
    ensures StagesParallel(r.0)
  {
    var (d1, k) := GetOrAppend(data, comps[idx].uid, comps[idx].name);
    assert StagesParallel(d1);
    match StageGain(comps, d1, idx, k, freq)
    case Err(e) => (d1, Fail(e))
    case Ok(d2) =>
      match StageNf(conv, comps, d2, idx, k, freq)
      case Err(e) => (d2, Fail(e))
      case Ok(d3) => (d3, Pass)
  }

  /** The remaining iterations from `idx` on; the first failure ends the run. */
  function RunFrom(conv: Conversions, comps: seq<Stage>, data: seq<Stage>, idx: nat, freq: real)
    : (r: (seq<Stage>, Outcome))
    requires idx <= |comps| && StagesParallel(comps) && StagesParallel(data)
    ensures StagesParallel(r.0)
    decreases |comps| - idx
  {
    if idx == |comps| then (data, Pass)
    else
      var r := Step(conv, comps, data, idx, freq);
      if r.1.Fail? then r else RunFrom(conv, comps, r.0, idx + 1, freq)
  }

  /** `CascadeEngine.run(freq)` on the engine's component list and data list. */
  function Run(conv: Conversions, comps: seq<Stage>, data: seq<Stage>, freq: real): (seq<Stage>, Outcome)
    requires StagesParallel(comps) && StagesParallel(data)
  {
    RunFrom(conv, comps, data, 0, freq)
  }

  // ---------------------------------------------------------------------
  // The properties of a run

  predicate DistinctUids(comps: seq<Stage>)
  {
    forall i, j :: 0 <= i < j < |comps| ==> comps[i].uid != comps[j].uid
  }

  /** The data list is index-aligned with a prefix of the component list. */
  predicate Aligned(comps: seq<Stage>, data: seq<Stage>)
  {
    |data| <= |comps| && forall i :: 0 <= i < |data| ==> data[i].uid == comps[i].uid
  }

  /** The own gain of stages 0..k summed, or the first lookup error. */
  function GainSum(comps: seq<Stage>, freq: real, k: nat): Result<real>
    requires k < |comps| && StagesParallel(comps)
  {
    var prev := if k == 0 then Ok(0.0) else GainSum(comps, freq, k - 1);
    if prev.Err? then prev
    else
      var own := ValueAt(comps[k].params, "gain", freq);
      if own.Err? then own else Ok(prev.value + own.value)
  }

  /** The running sum extends by the next own gain. */
  lemma GainSumNext(comps: seq<Stage>, freq: real, k: nat)
    requires 0 < k < |comps| && StagesParallel(comps)
    requires GainSum(comps, freq, k - 1).Ok? && ValueAt(comps[k].params, "gain", freq).Ok?
    ensures GainSum(comps, freq, k) == Ok(GainSum(comps, freq, k - 1).value + ValueAt(comps[k].params, "gain", freq).value)
  {
  }

  /**
   * What entry k holds at `freq` once stage k has been cascaded: the gain is
   * the sum of the own gains of stages 0..k, and the NF is the recurrence
   * applied to entry k-1's cascaded gain and NF (0 and 0 at stage 0) and
   * stage k's own NF.
   */
  predicate StageDone(conv: Conversions, comps: seq<Stage>, d: seq<Stage>, k: nat, freq: real)
    requires k < |comps| && k < |d| && StagesParallel(comps) && StagesParallel(d)
  {
    var ownNf := ValueAt(comps[k].params, "NF", freq);
    && GainSum(comps, freq, k).Ok?
    && ValueAt(d[k].params, "gain", freq) == GainSum(comps, freq, k)
    && ownNf.Ok?
    && ValueAt(d[k].params, "NF", freq).Ok?
    && (k == 0 ==> ValueAt(d[k].params, "NF", freq) == NoiseFigure(conv, 0.0, 0.0, ownNf.value))
    && (k > 0 ==>
          && ValueAt(d[k - 1].params, "gain", freq).Ok?
          && ValueAt(d[k - 1].params, "NF", freq).Ok?
          && ValueAt(d[k].params, "NF", freq) ==
             NoiseFigure(conv, ValueAt(d[k - 1].params, "gain", freq).value,
                         ValueAt(d[k - 1].params, "NF", freq).value, ownNf.value))
  }

  /** Resolving the entry of stage idx over an aligned list yields index idx. */
  lemma GetOrAppendAligned(comps: seq<Stage>, data: seq<Stage>, idx: nat)
    requires DistinctUids(comps) && Aligned(comps, data) && idx < |comps| && idx <= |data|
    ensures var (d, k) := GetOrAppend(data, comps[idx].uid, comps[idx].name);
            && k == idx && Aligned(comps, d)
            && |d| == (if idx < |data| then |data| else idx + 1)
            && (forall j :: 0 <= j < |data| ==> d[j] == data[j])
            && (idx == |data| ==> d[idx].params == map[])
  {
    var r := FindUid(data, comps[idx].uid);
    if r.Some? {
      assert data[r.value].uid == comps[r.value].uid;
    }
  }

  /** The gain half of a stage keeps the list aligned and sorted, touches only entry idx, and needs an own gain. */
  lemma StageGainFrame(comps: seq<Stage>, d: seq<Stage>, idx: nat, freq: real)
    requires idx < |comps| && idx < |d| && StagesSorted(d) && StagesParallel(comps) && Aligned(comps, d)
    ensures StagesParallel(d)
    ensures "gain" !in comps[idx].params ==> StageGain(comps, d, idx, idx, freq).Err?
    ensures var g := StageGain(comps, d, idx, idx, freq);
            g.Ok? ==> StagesSorted(g.value) && Aligned(comps, g.value)
                      && forall j :: 0 <= j < |d| && j != idx ==> g.value[j] == d[j]
  {
    SortedIsParallel(d);
    StageGainSorted(comps, d, idx, idx, freq);
    if "gain" !in comps[idx].params {
      ValueAtMissing(comps[idx].params, "gain", freq);
    }
  }

  /** The gain half of a stage writes the previous cascaded gain plus the own gain into entry idx. */
  lemma StageGainValue(comps: seq<Stage>, d: seq<Stage>, idx: nat, freq: real)
    requires idx < |comps| && idx < |d| && StagesSorted(d) && StagesParallel(comps)
    ensures StagesParallel(d)
    ensures var g := StageGain(comps, d, idx, idx, freq);
            g.Ok? ==> && Before(d, idx, "gain", freq).Ok?
                      && ValueAt(comps[idx].params, "gain", freq).Ok?
                      && ValueAt(g.value[idx].params, "gain", freq) ==
                         Ok(Before(d, idx, "gain", freq).value + ValueAt(comps[idx].params, "gain", freq).value)
  {
    SortedIsParallel(d);
    var prev := Before(d, idx, "gain", freq);
    var own := ValueAt(comps[idx].params, "gain", freq);
    if prev.Ok? && own.Ok? {
      var v := prev.value + own.value;
      UpdateReadBack(d[idx].params, "gain", freq, v);
      var r := SetParam(d, idx, "gain", freq, v);
      assert r[idx].params == Update(d[idx].params, "gain", freq, v);
      assert StageGain(comps, d, idx, idx, freq) == Ok(r);
    }
  }

  /** The gain half of a stage records one sample in entry idx's gain curve and keeps its other curves. */
  lemma StageGainRecorded(comps: seq<Stage>, d: seq<Stage>, idx: nat, freq: real)
    requires idx < |comps| && idx < |d| && StagesSorted(d) && StagesParallel(comps)
    ensures StagesParallel(d)
    ensures var g := StageGain(comps, d, idx, idx, freq);
            g.Ok? ==> forall n :: n in d[idx].params && n != "gain" ==> n in g.value[idx].params && g.value[idx].params[n] == d[idx].params[n]
    ensures var g := StageGain(comps, d, idx, idx, freq);
            g.Ok? ==> Recorded(d[idx].params, g.value[idx].params, "gain", freq)
  {
    SortedIsParallel(d);
    var prev := Before(d, idx, "gain", freq);
    var own := ValueAt(comps[idx].params, "gain", freq);
    if prev.Ok? && own.Ok? {
      var v := prev.value + own.value;
      UpdateReadBack(d[idx].params, "gain", freq, v);
      UpdateRecorded(d[idx].params, "gain", freq, v);
      assert StageGain(comps, d, idx, idx, freq) == Ok(SetParam(d, idx, "gain", freq, v));
    }
  }

  /** The NF half of a stage keeps the list aligned and sorted, touches only entry idx, and needs an own NF. */
  lemma StageNfFrame(conv: Conversions, comps: seq<Stage>, d: seq<Stage>, idx: nat, freq: real)
    requires idx < |comps| && idx < |d| && StagesSorted(d) && StagesParallel(comps) && Aligned(comps, d)
    ensures StagesParallel(d)
    ensures "NF" !in comps[idx].params ==> StageNf(conv, comps, d, idx, idx, freq).Err?
    ensures var g := StageNf(conv, comps, d, idx, idx, freq);
            g.Ok? ==> StagesSorted(g.value) && Aligned(comps, g.value)
                      && forall j :: 0 <= j < |d| && j != idx ==> g.value[j] == d[j]
  {
    SortedIsParallel(d);
    StageNfSorted(conv, comps, d, idx, idx, freq);
    if "NF" !in comps[idx].params {
      ValueAtMissing(comps[idx].params, "NF", freq);
    }
  }

  /** The NF half of a stage writes the recurrence over entry idx-1 and the own NF into entry idx. */
  lemma StageNfValue(conv: Conversions, comps: seq<Stage>, d: seq<Stage>, idx: nat, freq: real)
    requires idx < |comps| && idx < |d| && StagesSorted(d) && StagesParallel(comps)
    ensures StagesParallel(d)
    ensures var g := StageNf(conv, comps, d, idx, idx, freq);
            g.Ok? ==> && Before(d, idx, "gain", freq).Ok?
                      && Before(d, idx, "NF", freq).Ok?
                      && ValueAt(comps[idx].params, "NF", freq).Ok?
                      && ValueAt(g.value[idx].params, "NF", freq) ==
                         NoiseFigure(conv, Before(d, idx, "gain", freq).value, Before(d, idx, "NF", freq).value,
                                     ValueAt(comps[idx].params, "NF", freq).value)
  {
    SortedIsParallel(d);
    var prevGain := Before(d, idx, "gain", freq);
    var prevNf := Before(d, idx, "NF", freq);
    var own := ValueAt(comps[idx].params, "NF", freq);
    if prevGain.Ok? && prevNf.Ok? && own.Ok? {
      var nf := NoiseFigure(conv, prevGain.value, prevNf.value, own.value);
      if nf.Ok? {
        UpdateReadBack(d[idx].params, "NF", freq, nf.value);
        assert StageNf(conv, comps, d, idx, idx, freq) == Ok(SetParam(d, idx, "NF", freq, nf.value));
      }
    }
  }

  /** The NF half of a stage records one sample in entry idx's NF curve and keeps its other curves. */
  lemma StageNfRecorded(conv: Conversions, comps: seq<Stage>, d: seq<Stage>, idx: nat, freq: real)
    requires idx < |comps| && idx < |d| && StagesSorted(d) && StagesParallel(comps)
    ensures StagesParallel(d)
    ensures var g := StageNf(conv, comps, d, idx, idx, freq);
            g.Ok? ==> forall n :: n in d[idx].params && n != "NF" ==> n in g.value[idx].params && g.value[idx].params[n] == d[idx].params[n]
    ensures var g := StageNf(conv, comps, d, idx, idx, freq);
            g.Ok? ==> Recorded(d[idx].params, g.value[idx].params, "NF", freq)
  {
    SortedIsParallel(d);
    var prevGain := Before(d, idx, "gain", freq);
    var prevNf := Before(d, idx, "NF", freq);
    var own := ValueAt(comps[idx].params, "NF", freq);
    if prevGain.Ok? && prevNf.Ok? && own.Ok? {
      var nf := NoiseFigure(conv, prevGain.value, prevNf.value, own.value);
      if nf.Ok? {
        UpdateReadBack(d[idx].params, "NF", freq, nf.value);
        UpdateRecorded(d[idx].params, "NF", freq, nf.value);
        assert StageNf(conv, comps, d, idx, idx, freq) == Ok(SetParam(d, idx, "NF", freq, nf.value));
      }
    }
  }

  /** One stage over an aligned, sorted list: the shape is kept and a missing own gain or NF fails. */
  lemma StepShape(conv: Conversions, comps: seq<Stage>, data: seq<Stage>, idx: nat, freq: real)
    requires DistinctUids(comps) && Aligned(comps, data) && StagesSorted(data) && StagesParallel(comps)
    requires idx < |comps| && idx <= |data|
    ensures StagesParallel(data)
    ensures var (d, o) := Step(conv, comps, data, idx, freq);
            && Aligned(comps, d) && StagesSorted(d)
            && |d| == (if idx < |data| then |data| else idx + 1)
            && (forall j :: 0 <= j < |data| && j != idx ==> d[j] == data[j])
            && (("gain" !in comps[idx].params || "NF" !in comps[idx].params) ==> o.Fail?)
  {
    SortedIsParallel(data);
    GetOrAppendAligned(comps, data, idx);
    var (d1, k) := GetOrAppend(data, comps[idx].uid, comps[idx].name);
    assert StagesSorted(d1);
    StageGainFrame(comps, d1, idx, freq);
    var g := StageGain(comps, d1, idx, k, freq);
    if g.Ok? {
      StageNfFrame(conv, comps, g.value, idx, freq);
    }
  }

  /**
   * A successful stage writes, into entry idx, the previous entry's cascaded
   * gain plus the own gain, and the NF recurrence over the previous entry's
   * gain and NF and the own NF.
   */
  lemma StepValues(conv: Conversions, comps: seq<Stage>, data: seq<Stage>, idx: nat, freq: real)
    requires DistinctUids(comps) && Aligned(comps, data) && StagesSorted(data) && StagesParallel(comps)
    requires idx < |comps| && idx <= |data|
    requires StagesParallel(data)
    ensures var (d, o) := Step(conv, comps, data, idx, freq);
            o.Pass? ==> && StagesParallel(d) && idx < |d|
                        && Before(data, idx, "gain", freq).Ok? && Before(data, idx, "NF", freq).Ok?
                        && ValueAt(comps[idx].params, "gain", freq).Ok?
                        && ValueAt(comps[idx].params, "NF", freq).Ok?
                        && ValueAt(d[idx].params, "gain", freq) ==
                           Ok(Before(data, idx, "gain", freq).value + ValueAt(comps[idx].params, "gain", freq).value)
                        && ValueAt(d[idx].params, "NF", freq) ==
                           NoiseFigure(conv, Before(data, idx, "gain", freq).value, Before(data, idx, "NF", freq).value,
                                       ValueAt(comps[idx].params, "NF", freq).value)
  {
    GetOrAppendAligned(comps, data, idx);
    var d1 := GetOrAppend(data, comps[idx].uid, comps[idx].name).0;
    assert StagesSorted(d1);
    StageGainFrame(comps, d1, idx, freq);
    StageGainValue(comps, d1, idx, freq);
    var g := StageGain(comps, d1, idx, idx, freq);
    if g.Ok? {
      var d2 := g.value;
      StageNfFrame(conv, comps, d2, idx, freq);
      StageNfValue(conv, comps, d2, idx, freq);
      StageNfRecorded(conv, comps, d2, idx, freq);
      var n := StageNf(conv, comps, d2, idx, idx, freq);
      if n.Ok? {
        var d3 := n.value;
        assert Step(conv, comps, data, idx, freq) == (d3, Pass);
        assert d3[idx].params["gain"] == d2[idx].params["gain"];
        if idx > 0 {
          assert d2[idx - 1] == d1[idx - 1] == data[idx - 1];
        }
        assert Before(d1, idx, "gain", freq) == Before(data, idx, "gain", freq);
        assert Before(d2, idx, "gain", freq) == Before(data, idx, "gain", freq);
        assert Before(d2, idx, "NF", freq) == Before(data, idx, "NF", freq);
      }
    }
  }

  /** Stage idx is done once its entry holds the values one stage writes over a done stage idx-1. */
  lemma DoneFromValues(conv: Conversions, comps: seq<Stage>, data: seq<Stage>, d: seq<Stage>, idx: nat, freq: real)
    requires idx < |comps| && idx < |d| && idx <= |data|
    requires StagesParallel(comps) && StagesParallel(data) && StagesParallel(d)
    requires idx > 0 ==> d[idx - 1] == data[idx - 1] && StageDone(conv, comps, data, idx - 1, freq)
    requires Before(data, idx, "gain", freq).Ok? && Before(data, idx, "NF", freq).Ok?
    requires ValueAt(comps[idx].params, "gain", freq).Ok? && ValueAt(comps[idx].params, "NF", freq).Ok?
    requires ValueAt(d[idx].params, "gain", freq) ==
             Ok(Before(data, idx, "gain", freq).value + ValueAt(comps[idx].params, "gain", freq).value)
    requires ValueAt(d[idx].params, "NF", freq) ==
             NoiseFigure(conv, Before(data, idx, "gain", freq).value, Before(data, idx, "NF", freq).value,
                         ValueAt(comps[idx].params, "NF", freq).value)
    ensures StageDone(conv, comps, d, idx, freq)
  {
    if idx > 0 {
      GainSumNext(comps, freq, idx);
    }
  }

  /** A successful stage, given the previous stage done, leaves stage idx done. */
  lemma StepDone(conv: Conversions, comps: seq<Stage>, data: seq<Stage>, idx: nat, freq: real)
    requires DistinctUids(comps) && Aligned(comps, data) && StagesSorted(data) && StagesParallel(comps)
    requires idx < |comps| && idx <= |data|
    requires StagesParallel(data)
    requires idx > 0 ==> StageDone(conv, comps, data, idx - 1, freq)
    ensures var (d, o) := Step(conv, comps, data, idx, freq);
            o.Pass? ==> StagesParallel(d) && idx < |d| && StageDone(conv, comps, d, idx, freq)
  {
    StepValues(conv, comps, data, idx, freq);
    StepShape(conv, comps, data, idx, freq);
    var d, o := Step(conv, comps, data, idx, freq).0, Step(conv, comps, data, idx, freq).1;
    if o.Pass? {
      DoneFromValues(conv, comps, data, d, idx, freq);
    }
  }

  /** The entry a stage starts from: the existing one, or an empty one about to be appended. */
  function Prior(data: seq<Stage>, k: nat): (ps: Params)
    ensures k >= |data| ==> ps == map[]
  {
    if k < |data| then data[k].params else map[]
  }

  /** A successful stage records one sample at `freq` in both the gain and the NF curve of entry idx. */
  lemma StepRecorded(conv: Conversions, comps: seq<Stage>, data: seq<Stage>, idx: nat, freq: real)
    requires DistinctUids(comps) && Aligned(comps, data) && StagesSorted(data) && StagesParallel(comps)
    requires idx < |comps| && idx <= |data|
    ensures var (d, o) := Step(conv, comps, data, idx, freq);
            o.Pass? ==> idx < |d| && Recorded(Prior(data, idx), d[idx].params, "gain", freq)
                                  && Recorded(Prior(data, idx), d[idx].params, "NF", freq)
  {
    SortedIsParallel(data);
    GetOrAppendAligned(comps, data, idx);
    var d1 := GetOrAppend(data, comps[idx].uid, comps[idx].name).0;
    assert StagesSorted(d1);
    assert d1[idx].params == Prior(data, idx);
    StageGainRecorded(comps, d1, idx, freq);
    StageGainSorted(comps, d1, idx, idx, freq);
    var g := StageGain(comps, d1, idx, idx, freq);
    if g.Ok? {
      var d2 := g.value;
      StageNfRecorded(conv, comps, d2, idx, freq);
      var n := StageNf(conv, comps, d2, idx, idx, freq);
      if n.Ok? {
        assert Step(conv, comps, data, idx, freq) == (n.value, Pass);
        assert n.value[idx].params["gain"] == d2[idx].params["gain"];
      }
    }
  }

  /** Entries from `from` on are those of `data0`, and none was appended beyond it. */
  predicate Untouched(data0: seq<Stage>, data: seq<Stage>, from: nat)
  {
    && (|data| <= from || |data| <= |data0|)
    && forall k :: from <= k < |data| ==> data[k] == data0[k]
  }

  /** A list that differs from `data` at most at idx (or appends entry idx) is untouched past idx. */
  lemma UntouchedPast(data0: seq<Stage>, data: seq<Stage>, d: seq<Stage>, idx: nat)
    requires Untouched(data0, data, idx)
    requires |d| == (if idx < |data| then |data| else idx + 1)
    requires forall j :: 0 <= j < |data| && j != idx ==> d[j] == data[j]
    ensures Untouched(data0, d, idx + 1)
  {
  }

  lemma UntouchedLater(data0: seq<Stage>, d: seq<Stage>, a: nat, b: nat)
    requires a <= b && Untouched(data0, d, a)
    ensures Untouched(data0, d, b)
  {
  }

  /** Entries 0..n-1 recorded one sample at `freq` in gain and NF, relative to `data0`. */
  predicate RecordedUpTo(data0: seq<Stage>, data: seq<Stage>, n: nat, freq: real)
    requires n <= |data|
  {
    forall k :: 0 <= k < n ==> RecordedAt(data0, data, k, freq)
  }

  /** Entry k recorded one sample at `freq` in gain and NF, relative to `data0`. */
  predicate RecordedAt(data0: seq<Stage>, data: seq<Stage>, k: nat, freq: real)
    requires k < |data|
  {
    Recorded(Prior(data0, k), data[k].params, "gain", freq) && Recorded(Prior(data0, k), data[k].params, "NF", freq)
  }

  /** One stage keeps entries after idx untouched and, on success, extends the recorded prefix. */
  lemma StepFrames(conv: Conversions, comps: seq<Stage>, data0: seq<Stage>, data: seq<Stage>, idx: nat, freq: real)
    requires DistinctUids(comps) && Aligned(comps, data) && StagesSorted(data) && StagesParallel(comps)
    requires idx < |comps| && idx <= |data| && |data0| <= |data|
    requires Untouched(data0, data, idx)
    ensures var (d, o) := Step(conv, comps, data, idx, freq);
            && Aligned(comps, d) && StagesSorted(d) && idx < |d| && |data0| <= |d|
            && Untouched(data0, d, idx + 1)
            && (RecordedUpTo(data0, data, idx, freq) && o.Pass? ==> RecordedUpTo(data0, d, idx + 1, freq))
  {
    StepShape(conv, comps, data, idx, freq);
    StepRecorded(conv, comps, data, idx, freq);
    var d, o := Step(conv, comps, data, idx, freq).0, Step(conv, comps, data, idx, freq).1;
    UntouchedPast(data0, data, d, idx);
    if RecordedUpTo(data0, data, idx, freq) && o.Pass? {
      assert Prior(data, idx) == Prior(data0, idx);
      forall k | 0 <= k < idx
        ensures RecordedAt(data0, d, k, freq)
      {
        assert d[k] == data[k] && RecordedAt(data0, data, k, freq);
      }
      assert RecordedAt(data0, d, idx, freq);
    }
  }

  /** What a recorded run carries from one iteration to the next. */
  predicate RecordingFrom(comps: seq<Stage>, data0: seq<Stage>, data: seq<Stage>, idx: nat, freq: real)
  {
    (&& DistinctUids(comps) && Aligned(comps, data) && StagesSorted(data) && StagesParallel(comps)
     && StagesParallel(data) && idx <= |comps| && idx <= |data| && |data0| <= |data|
     && Untouched(data0, data, idx) && RecordedUpTo(data0, data, idx, freq)) == true
  }

  /** One iteration of a recorded run: the recorded prefix grows, or the run fails here. */
  lemma RecordedStep(conv: Conversions, comps: seq<Stage>, data0: seq<Stage>, data: seq<Stage>, idx: nat, freq: real)
    requires RecordingFrom(comps, data0, data, idx, freq) && idx < |comps|
    ensures var (d1, o1) := Step(conv, comps, data, idx, freq);
            && (o1.Fail? ==> RunFrom(conv, comps, data, idx, freq).1.Fail?)
            && (o1.Pass? ==> && RecordingFrom(comps, data0, d1, idx + 1, freq)
                             && RunFrom(conv, comps, data, idx, freq) == RunFrom(conv, comps, d1, idx + 1, freq))
  {
    StepFrames(conv, comps, data0, data, idx, freq);
    SortedIsParallel(Step(conv, comps, data, idx, freq).0);
  }

  lemma {:induction false} RunFromRecorded(conv: Conversions, comps: seq<Stage>, data0: seq<Stage>, data: seq<Stage>,
                                           idx: nat, freq: real)
    requires RecordingFrom(comps, data0, data, idx, freq)
    ensures var (d, o) := RunFrom(conv, comps, data, idx, freq);
            o.Pass? ==> |d| >= |comps| && RecordedUpTo(data0, d, |comps|, freq)
    decreases |comps| - idx
  {
    if idx == |comps| {
      assert RunFrom(conv, comps, data, idx, freq) == (data, Pass);
    } else {
      RecordedStep(conv, comps, data0, data, idx, freq);
      var d1, o1 := Step(conv, comps, data, idx, freq).0, Step(conv, comps, data, idx, freq).1;
      if o1.Pass? {
        RunFromRecorded(conv, comps, data0, d1, idx + 1, freq);
      }
    }
  }

  /**
   * After a successful run every entry's gain and NF curves hold `freq`:
   * re-running at a frequency an entry already holds keeps its curve
   * lengths, a new frequency adds exactly one sample, and an entry created
   * by this run holds exactly one.
   */
  lemma RunRecorded(conv: Conversions, comps: seq<Stage>, data: seq<Stage>, freq: real)
    requires DistinctUids(comps) && Aligned(comps, data) && StagesSorted(data) && StagesParallel(comps)
    ensures StagesParallel(data)
    ensures var (d, o) := Run(conv, comps, data, freq);
            o.Pass? ==> |d| >= |comps| &&
                        forall k :: 0 <= k < |comps| ==> Recorded(Prior(data, k), d[k].params, "gain", freq)
                                                         && Recorded(Prior(data, k), d[k].params, "NF", freq)
  {
    SortedIsParallel(data);
    RunFromRecorded(conv, comps, data, data, 0, freq);
    var d := Run(conv, comps, data, freq).0;
    if Run(conv, comps, data, freq).1.Pass? {
      forall k | 0 <= k < |comps|
        ensures Recorded(Prior(data, k), d[k].params, "gain", freq)
        ensures Recorded(Prior(data, k), d[k].params, "NF", freq)
      {
        assert RecordedAt(data, d, k, freq);
      }
    }
  }

  /** One iteration of a run that must stop at stage m: it fails here, or passes on a smaller frame. */
  lemma StopsStep(conv: Conversions, comps: seq<Stage>, data0: seq<Stage>, data: seq<Stage>,
                  idx: nat, m: nat, freq: real)
    requires DistinctUids(comps) && Aligned(comps, data) && StagesSorted(data) && StagesParallel(comps)
    requires idx <= m < |comps| && idx <= |data| && |data0| <= |data|
    requires "gain" !in comps[m].params || "NF" !in comps[m].params
    requires Untouched(data0, data, idx)
    ensures StagesParallel(data)
    ensures var (d1, o1) := Step(conv, comps, data, idx, freq);
            && Aligned(comps, d1) && StagesSorted(d1) && StagesParallel(d1)
            && idx + 1 <= |d1| && |data0| <= |d1| && Untouched(data0, d1, idx + 1)
            && (o1.Pass? ==> idx < m && RunFrom(conv, comps, data, idx, freq) == RunFrom(conv, comps, d1, idx + 1, freq))
            && (o1.Fail? ==> RunFrom(conv, comps, data, idx, freq) == (d1, o1) && Untouched(data0, d1, m + 1))
  {
    SortedIsParallel(data);
    StepFrames(conv, comps, data0, data, idx, freq);
    var d1, o1 := Step(conv, comps, data, idx, freq).0, Step(conv, comps, data, idx, freq).1;
    SortedIsParallel(d1);
    if idx == m {
      StepShape(conv, comps, data, idx, freq);
    }
    if o1.Fail? {
      UntouchedLater(data0, d1, idx + 1, m + 1);
    }
  }

  lemma {:induction false} RunFromStops(conv: Conversions, comps: seq<Stage>, data0: seq<Stage>, data: seq<Stage>,
                                        idx: nat, m: nat, freq: real)
    requires DistinctUids(comps) && Aligned(comps, data) && StagesSorted(data) && StagesParallel(comps)
    requires idx <= m < |comps| && idx <= |data| && |data0| <= |data|
    requires StagesParallel(data)
    requires "gain" !in comps[m].params || "NF" !in comps[m].params
    requires Untouched(data0, data, idx)
    ensures RunFrom(conv, comps, data, idx, freq).1.Fail?
    ensures Untouched(data0, RunFrom(conv, comps, data, idx, freq).0, m + 1)
    decreases |comps| - idx
  {
    StopsStep(conv, comps, data0, data, idx, m, freq);
    var d1, o1 := Step(conv, comps, data, idx, freq).0, Step(conv, comps, data, idx, freq).1;
    if o1.Pass? {
      RunFromStops(conv, comps, data0, d1, idx + 1, m, freq);
    }
  }

  /**
   * A component without `gain` or `NF` makes the run fail at that stage:
   * no entry after it is written or appended.
   */
  lemma RunStopsAtMissing(conv: Conversions, comps: seq<Stage>, data: seq<Stage>, m: nat, freq: real)
    requires DistinctUids(comps) && Aligned(comps, data) && StagesSorted(data) && StagesParallel(comps)
    requires m < |comps| && ("gain" !in comps[m].params || "NF" !in comps[m].params)
    ensures StagesParallel(data)
    ensures Run(conv, comps, data, freq).1.Fail?
    ensures Untouched(data, Run(conv, comps, data, freq).0, m + 1)
  {
    SortedIsParallel(data);
    RunFromStops(conv, comps, data, data, 0, m, freq);
  }

  /** Stage k's readout depends only on entries k-1 and k. */
  lemma StageDoneFrame(conv: Conversions, comps: seq<Stage>, d: seq<Stage>, d': seq<Stage>, k: nat, freq: real)
    requires k < |comps| && k < |d| && k < |d'| && StagesParallel(comps) && StagesParallel(d) && StagesParallel(d')
    requires d'[k] == d[k] && (k > 0 ==> d'[k - 1] == d[k - 1])
    requires StageDone(conv, comps, d, k, freq)
    ensures StageDone(conv, comps, d', k, freq)
  {
  }

  /** One iteration of a cascading run: stages 0..idx are done afterwards, or the run fails here. */
  lemma CascadeStep(conv: Conversions, comps: seq<Stage>, data: seq<Stage>, idx: nat, freq: real)
    requires DistinctUids(comps) && Aligned(comps, data) && StagesSorted(data) && StagesParallel(comps)
    requires idx < |comps| && idx <= |data|
    requires StagesParallel(data)
    requires forall k :: 0 <= k < idx ==> StageDone(conv, comps, data, k, freq)
    ensures var (d1, o1) := Step(conv, comps, data, idx, freq);
            && Aligned(comps, d1) && StagesSorted(d1) && StagesParallel(d1) && idx < |d1|
            && (o1.Fail? ==> RunFrom(conv, comps, data, idx, freq) == (d1, o1))
            && (o1.Pass? ==> && RunFrom(conv, comps, data, idx, freq) == RunFrom(conv, comps, d1, idx + 1, freq)
                             && forall k :: 0 <= k < idx + 1 ==> StageDone(conv, comps, d1, k, freq))
  {
    StepShape(conv, comps, data, idx, freq);
    StepDone(conv, comps, data, idx, freq);
    var d1, o1 := Step(conv, comps, data, idx, freq).0, Step(conv, comps, data, idx, freq).1;
    SortedIsParallel(d1);
    if o1.Pass? {
      forall k | 0 <= k < idx
        ensures StageDone(conv, comps, d1, k, freq)
      {
        StageDoneFrame(conv, comps, data, d1, k, freq);
      }
    }
  }

  lemma {:induction false} RunFromCascade(conv: Conversions, comps: seq<Stage>, data: seq<Stage>, idx: nat, freq: real)
    requires DistinctUids(comps) && Aligned(comps, data) && StagesSorted(data) && StagesParallel(comps)
    requires idx <= |comps| && idx <= |data|
    requires StagesParallel(data)
    requires forall k :: 0 <= k < idx ==> StageDone(conv, comps, data, k, freq)
    ensures Aligned(comps, RunFrom(conv, comps, data, idx, freq).0)
    ensures StagesSorted(RunFrom(conv, comps, data, idx, freq).0)
    ensures RunFrom(conv, comps, data, idx, freq).1.Pass? ==>
              && |RunFrom(conv, comps, data, idx, freq).0| == |comps|
              && forall k :: 0 <= k < |comps| ==> StageDone(conv, comps, RunFrom(conv, comps, data, idx, freq).0, k, freq)
    decreases |comps| - idx
  {
    if idx < |comps| {
      CascadeStep(conv, comps, data, idx, freq);
      var d1, o1 := Step(conv, comps, data, idx, freq).0, Step(conv, comps, data, idx, freq).1;
      if o1.Pass? {
        RunFromCascade(conv, comps, d1, idx + 1, freq);
      }
    }
  }

  /**
   * Over distinct uids and an aligned, sorted data list, a successful run
   * leaves one entry per component, index-aligned by uid, each holding the
   * cascaded gain (the sum of own gains so far) and the cascaded NF (the
   * Friis recurrence over the previous entry) at `freq`; any run keeps the
   * list aligned and sorted.
   */
  lemma RunCascade(conv: Conversions, comps: seq<Stage>, data: seq<Stage>, freq: real)
    requires DistinctUids(comps) && Aligned(comps, data) && StagesSorted(data) && StagesParallel(comps)
    ensures StagesParallel(data)
    ensures var (d, o) := Run(conv, comps, data, freq);
            && Aligned(comps, d) && StagesSorted(d)
            && (o.Pass? ==> |d| == |comps| && forall k :: 0 <= k < |comps| ==> d[k].uid == comps[k].uid)
            && (o.Pass? ==> forall k :: 0 <= k < |comps| ==> StageDone(conv, comps, d, k, freq))
  {
    SortedIsParallel(data);
    RunFromCascade(conv, comps, data, 0, freq);
  }

  /** Writing one sample into one entry keeps every curve of the list ascending. */
  lemma SetParamSorted(data: seq<Stage>, k: nat, name: string, freq: real, value: real)
    requires k < |data| && StagesSorted(data)
    ensures StagesParallel(data) && StagesSorted(SetParam(data, k, name, freq, value))
  {
    SortedIsParallel(data);
    UpdateReadBack(data[k].params, name, freq, value);
    var r := SetParam(data, k, name, freq, value);
    forall i | 0 <= i < |r|
      ensures AllSorted(r[i].params)
    {
      if i != k {
        assert r[i] == data[i];
      }
    }
  }

  lemma StageGainSorted(comps: seq<Stage>, data: seq<Stage>, idx: nat, k: nat, freq: real)
    requires idx < |comps| && k < |data| && StagesParallel(comps) && StagesSorted(data)
    ensures StagesParallel(data)
    ensures var g := StageGain(comps, data, idx, k, freq); g.Ok? ==> StagesSorted(g.value)
  {
    SortedIsParallel(data);
    var prev := Before(data, idx, "gain", freq);
    var own := ValueAt(comps[idx].params, "gain", freq);
    if prev.Ok? && own.Ok? {
      SetParamSorted(data, k, "gain", freq, prev.value + own.value);
    }
  }

  lemma StageNfSorted(conv: Conversions, comps: seq<Stage>, data: seq<Stage>, idx: nat, k: nat, freq: real)
    requires idx < |comps| && k < |data| && StagesParallel(comps) && StagesSorted(data)
    ensures StagesParallel(data)
    ensures var g := StageNf(conv, comps, data, idx, k, freq); g.Ok? ==> StagesSorted(g.value)
  {
    SortedIsParallel(data);
    var prevGain := Before(data, idx, "gain", freq);
    var prevNf := Before(data, idx, "NF", freq);
    var own := ValueAt(comps[idx].params, "NF", freq);
    if prevGain.Ok? && prevNf.Ok? && own.Ok? {
      var nf := NoiseFigure(conv, prevGain.value, prevNf.value, own.value);
      if nf.Ok? {
        SetParamSorted(data, k, "NF", freq, nf.value);
      }
    }
  }

  /** Whatever the uids, one stage keeps every curve of the data list ascending. */
  lemma StepSorted(conv: Conversions, comps: seq<Stage>, data: seq<Stage>, idx: nat, freq: real)
    requires idx < |comps| && StagesParallel(comps) && StagesSorted(data)
    ensures StagesParallel(data)
    ensures StagesSorted(Step(conv, comps, data, idx, freq).0)
  {
    SortedIsParallel(data);
    var (d1, k) := GetOrAppend(data, comps[idx].uid, comps[idx].name);
    assert StagesSorted(d1);
    StageGainSorted(comps, d1, idx, k, freq);
    var g := StageGain(comps, d1, idx, k, freq);
    if g.Ok? {
      StageNfSorted(conv, comps, g.value, idx, k, freq);
    }
  }

  /** One iteration keeps the list sorted and hands the rest of the run to the next index. */
  lemma SortedStep(conv: Conversions, comps: seq<Stage>, data: seq<Stage>, idx: nat, freq: real)
    requires idx < |comps| && StagesParallel(comps) && StagesSorted(data) && StagesParallel(data)
    ensures var (d1, o1) := Step(conv, comps, data, idx, freq);
            && StagesSorted(d1) && StagesParallel(d1)
            && (o1.Fail? ==> RunFrom(conv, comps, data, idx, freq) == (d1, o1))
            && (o1.Pass? ==> RunFrom(conv, comps, data, idx, freq) == RunFrom(conv, comps, d1, idx + 1, freq))
  {
    StepSorted(conv, comps, data, idx, freq);
    SortedIsParallel(Step(conv, comps, data, idx, freq).0);
  }

  lemma {:induction false} RunFromSorted(conv: Conversions, comps: seq<Stage>, data: seq<Stage>, idx: nat, freq: real)
    requires idx <= |comps| && StagesParallel(comps) && StagesSorted(data) && StagesParallel(data)
    ensures StagesSorted(RunFrom(conv, comps, data, idx, freq).0)
    decreases |comps| - idx
  {
    if idx < |comps| {
      SortedStep(conv, comps, data, idx, freq);
      var d1, o1 := Step(conv, comps, data, idx, freq).0, Step(conv, comps, data, idx, freq).1;
      if o1.Pass? {
        RunFromSorted(conv, comps, d1, idx + 1, freq);
      }
    }
  }

  /** Any run, with repeated uids or not, keeps every curve of the data list ascending. */
  lemma RunSorted(conv: Conversions, comps: seq<Stage>, data: seq<Stage>, freq: real)
    requires StagesParallel(comps) && StagesSorted(data)
    ensures StagesParallel(data)
    ensures StagesSorted(Run(conv, comps, data, freq).0)
  {
    SortedIsParallel(data);
    RunFromSorted(conv, comps, data, 0, freq);
  }
}
