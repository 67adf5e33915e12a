/**
 * `CascadeEngine`: holds the component list and a data list of
 * `ComponentData` objects it creates and updates in place. Each method is
 * proved against the value-level specification in module `Cascade`, the
 * data objects read through `View`.
 */
module Engine {
  import opened Errors
  import opened ParamMaps
  import opened Components
  import opened Cascade

  /** A component as a stage value. */
  ghost function View(c: Component): Stage
    reads c
  {
    Stage(c.uid, c.name, c.model)
  }

  class CascadeEngine {
    /** The component list, each component as the stage value it holds when the engine is built. */
    const comps: seq<Stage>
    /** The dB/linear conversions and the rounding `run` applies. */
    const conv: Conversions
    var compData: seq<Component>
    /** The data list as stage values. */
    ghost var data: seq<Stage>
    /** The data list's objects, which the engine owns. */
    ghost var DataRepr: set<object>

    /**
     * The data list lies in its footprint, its entries have distinct uids
     * (so they are distinct objects, owning distinct parameters), and each
     * is a well-formed untyped component mirrored by `data`.
     */
    ghost predicate DataValid()
      reads this, DataRepr
    {
      && (forall i :: 0 <= i < |compData| ==> compData[i] in DataRepr && compData[i].parameters.Values <= DataRepr)
      && (forall i :: 0 <= i < |compData| ==> compData[i].Valid() && compData[i].tag.None?)
      && (forall i, j :: 0 <= i < j < |compData| ==> compData[i].uid != compData[j].uid)
      && |data| == |compData| && (forall i :: 0 <= i < |compData| ==> data[i] == View(compData[i]))
      && StagesParallel(data)
    }

    /** Stated as one boolean, so that the solver does not split it at every use. */
    ghost predicate Valid()
      reads this, DataRepr
    {
      (this !in DataRepr && StagesParallel(comps) && DataValid()) == true
    }

    constructor (comps: seq<Stage>, conv: Conversions)
      requires StagesParallel(comps)
      ensures Valid() && this.comps == comps && this.conv == conv && compData == [] && data == []
    {
      this.comps := comps;
      this.conv := conv;
      compData := [];
      data := [];
      DataRepr := {};
    }

    /**
     * `add_component_data`: return the first data entry with this uid, else
     * append a new, empty `ComponentData`; `k` is the entry's index.
     */
    method AddComponentData(uid: string, name: string) returns (cd: Component, ghost k: nat)
      requires Valid()
      modifies this
      ensures Valid() && fresh(DataRepr - old(DataRepr))
      ensures (data, k) == GetOrAppend(old(data), uid, name)
      ensures k < |compData| && cd == compData[k]
    {
      var i := 0;
      while i < |compData|
        invariant 0 <= i <= |compData|
        invariant forall j :: 0 <= j < i ==> compData[j].uid != uid
      {
        if compData[i].uid == uid {
          assert FindUid(data, uid) == Some(i);
          return compData[i], i;
        }
        i := i + 1;
      }
      assert FindUid(data, uid) == None;
      cd := AppendData(uid, name);
      k := |compData| - 1;
    }

    /** The tail of `add_component_data`: a new, empty `ComponentData` appended to the list. */
    method AppendData(uid: string, name: string) returns (cd: Component)
      requires Valid() && forall j :: 0 <= j < |compData| ==> compData[j].uid != uid
      modifies this
      ensures Valid() && fresh(DataRepr - old(DataRepr))
      ensures data == old(data) + [Stage(uid, name, map[])]
      ensures compData == old(compData) + [cd]
    {
      cd := new Component(uid, name, None);
      compData := compData + [cd];
      data := data + [Stage(uid, name, map[])];
      DataRepr := DataRepr + {cd};
    }
  
    /** `comp_data.update_parameter(name, freq, value)` on data entry k. */
    method UpdateEntry(cd: Component, ghost k: nat, name: string, freq: real, value: real)
      requires Valid() && k < |compData| && cd == compData[k]
      modifies this, cd, cd.parameters.Values
      ensures Valid() && fresh(DataRepr - old(DataRepr)) && compData == old(compData)
      ensures StagesParallel(old(data)) && data == SetParam(old(data), k, name, freq, value)
    {
      ghost var d0, R0, touched := data, DataRepr, cd.Repr();
      assert this !in touched;
      cd.UpdateParameter(name, freq, value);
      data := SetParam(d0, k, name, freq, value);
      DataRepr := R0 + cd.parameters.Values;
      DataRestored(k);
    }

    /**
     * `cascade_gain`: the previous entry's cascaded gain (0 at stage 0) plus
     * this component's own gain, written into its data entry; a missing
     * `gain` or a previous entry that does not exist fails and writes nothing.
     */
    method CascadeGain(cd: Component, ghost k: nat, idx: nat, freq: real) returns (o: Outcome)
      requires Valid() && idx < |comps| && k < |compData| && cd == compData[k]
      modifies this, cd, cd.parameters.Values
      ensures Valid() && fresh(DataRepr - old(DataRepr)) && compData == old(compData)
      ensures StageGain(comps, old(data), idx, k, freq).Ok? ==>
                o == Pass && data == StageGain(comps, old(data), idx, k, freq).value
      ensures StageGain(comps, old(data), idx, k, freq).Err? ==>
                o == Fail(StageGain(comps, old(data), idx, k, freq).error) && data == old(data)
    {
      ghost var d0 := data;
      StageGainCases(comps, d0, idx, k, freq);
      var prevGain := 0.0;
      if idx != 0 {
        if idx - 1 >= |compData| {
          assert Before(d0, idx, "gain", freq) == Err(IndexOutOfRange);
          return Fail(IndexOutOfRange);
        }
        var prev := compData[idx - 1].GetValue("gain", freq);
        assert prev == Before(d0, idx, "gain", freq);
        if prev.Err? {
          return Fail(prev.error);
        }
        prevGain := prev.value;
      }
      var own := ValueAt(comps[idx].params, "gain", freq);
      if own.Err? {
        return Fail(own.error);
      }
      assert StageGain(comps, d0, idx, k, freq) == Ok(SetParam(d0, k, "gain", freq, prevGain + own.value));
      UpdateEntry(cd, k, "gain", freq, prevGain + own.value);
      o := Pass;
    }

    /**
     * `cascade_nf`: the previous entry's cascaded gain and NF (0 dB at stage
     * 0) and this component's own NF, combined by the Friis recurrence in
     * linear units, converted back to dB, rounded to two places and written
     * into its data entry. A failed read, a zero linear gain or a
     * non-positive logarithm argument fails and writes nothing.
     */
    method CascadeNf(cd: Component, ghost k: nat, idx: nat, freq: real) returns (o: Outcome)
      requires Valid() && idx < |comps| && k < |compData| && cd == compData[k]
      modifies this, cd, cd.parameters.Values
      ensures Valid() && fresh(DataRepr - old(DataRepr)) && compData == old(compData)
      ensures StageNf(conv, comps, old(data), idx, k, freq).Ok? ==>
                o == Pass && data == StageNf(conv, comps, old(data), idx, k, freq).value
      ensures StageNf(conv, comps, old(data), idx, k, freq).Err? ==>
                o == Fail(StageNf(conv, comps, old(data), idx, k, freq).error) && data == old(data)
    {
      ghost var d0 := data;
      StageNfFails(conv, comps, d0, idx, k, freq);
      var prevGain, prevNf := 0.0, 0.0;
      if idx != 0 {
        if idx - 1 >= |compData| {
          assert Before(d0, idx, "gain", freq) == Err(IndexOutOfRange);
          return Fail(IndexOutOfRange);
        }
        var g := compData[idx - 1].GetValue("gain", freq);
        assert g == Before(d0, idx, "gain", freq);
        if g.Err? {
          return Fail(g.error);
        }
        var n := compData[idx - 1].GetValue("NF", freq);
        assert n == Before(d0, idx, "NF", freq);
        if n.Err? {
          return Fail(n.error);
        }
        prevGain, prevNf := g.value, n.value;
      }
      var own := ValueAt(comps[idx].params, "NF", freq);
      if own.Err? {
        return Fail(own.error);
      }
      StageNfFrom(conv, comps, d0, idx, k, freq, prevGain, prevNf, own.value);
      var nf := NoiseFigure(conv, prevGain, prevNf, own.value);
      if nf.Err? {
        return Fail(nf.error);
      }
      UpdateEntry(cd, k, "NF", freq, nf.value);
      o := Pass;
    }

    /**
     * `run(freq)`: for each component in order, resolve its data entry and
     * cascade gain, then NF, into it; the first failure ends the run with
     * the entries written so far kept.
     */
    method Run(freq: real) returns (o: Outcome)
      requires Valid()
      modifies this, DataRepr
      ensures Valid() && fresh(DataRepr - old(DataRepr))
      ensures (data, o) == Cascade.Run(conv, comps, old(data), freq)
    {
      var idx := 0;
      while idx < |comps|
        invariant Valid() && idx <= |comps| && fresh(DataRepr - old(DataRepr))
        invariant RunFrom(conv, comps, data, idx, freq) == Cascade.Run(conv, comps, old(data), freq)
      {
        ghost var d0 := data;
        o := RunStage(idx, freq);
        assert RunFrom(conv, comps, d0, idx, freq) ==
               (if o.Fail? then (data, o) else RunFrom(conv, comps, data, idx + 1, freq));
        if o.Fail? {
          return;
        }
        idx := idx + 1;
      }
      o := Pass;
    }

    /** The body of the loop in `run` for component idx: resolve its entry, cascade gain, then NF. */
    method RunStage(idx: nat, freq: real) returns (o: Outcome)
      requires Valid() && idx < |comps|
      modifies this, DataRepr
      ensures Valid() && fresh(DataRepr - old(DataRepr))
      ensures (data, o) == Step(conv, comps, old(data), idx, freq)
    {
      var cd, k := AddComponentData(comps[idx].uid, comps[idx].name);
      assert fresh(DataRepr - old(DataRepr));
      o := CascadeGain(cd, k, idx, freq);
      assert fresh(DataRepr - old(DataRepr));
      if o.Fail? {
        return;
      }
      o := CascadeNf(cd, k, idx, freq);
    }

    /** After entry k was updated and nothing else in the data list was touched, the data list is valid again. */
    twostate lemma DataRestored(k: nat)
      requires old(DataValid()) && k < |compData| && compData == old(compData)
      requires compData[k].Valid()
      requires unchanged(old(DataRepr) - old(compData[k].Repr()))
      requires |data| == |compData| && data[k] == View(compData[k]) && StagesParallel(data)
      requires forall j :: 0 <= j < |compData| && j != k ==> data[j] == old(data[j])
      requires DataRepr == old(DataRepr) + compData[k].parameters.Values
      ensures DataValid()
    {
      forall j | 0 <= j < |compData| && j != k
        ensures compData[j].Valid() && data[j] == View(compData[j])
        ensures compData[j] in DataRepr && compData[j].parameters.Values <= DataRepr
      {
        assert old(compData[j].uid != compData[k].uid);
        assert old(compData[j].Repr() !! compData[k].Repr());
        EntryKept(compData[j]);
      }
    }
  }

  /** How `StageGain` resolves: the first failing read, else the sum written into entry k. */
  lemma StageGainCases(comps: seq<Stage>, data: seq<Stage>, idx: nat, k: nat, freq: real)
    requires idx < |comps| && k < |data| && StagesParallel(comps) && StagesParallel(data)
    ensures Before(data, idx, "gain", freq).Err? ==>
              StageGain(comps, data, idx, k, freq) == Err(Before(data, idx, "gain", freq).error)
    ensures Before(data, idx, "gain", freq).Ok? && ValueAt(comps[idx].params, "gain", freq).Err? ==>
              StageGain(comps, data, idx, k, freq) == Err(ValueAt(comps[idx].params, "gain", freq).error)
    ensures Before(data, idx, "gain", freq).Ok? && ValueAt(comps[idx].params, "gain", freq).Ok? ==>
              StageGain(comps, data, idx, k, freq) ==
              Ok(SetParam(data, k, "gain", freq,
                          Before(data, idx, "gain", freq).value + ValueAt(comps[idx].params, "gain", freq).value))
  {
  }

  /** How `StageNf` fails: at the first failing read or conversion. */
  lemma StageNfFails(conv: Conversions, comps: seq<Stage>, data: seq<Stage>, idx: nat, k: nat, freq: real)
    requires idx < |comps| && k < |data| && StagesParallel(comps) && StagesParallel(data)
    ensures Before(data, idx, "gain", freq).Err? ==>
              StageNf(conv, comps, data, idx, k, freq) == Err(Before(data, idx, "gain", freq).error)
    ensures Before(data, idx, "gain", freq).Ok? && Before(data, idx, "NF", freq).Err? ==>
              StageNf(conv, comps, data, idx, k, freq) == Err(Before(data, idx, "NF", freq).error)
    ensures Before(data, idx, "gain", freq).Ok? && Before(data, idx, "NF", freq).Ok?
            && ValueAt(comps[idx].params, "NF", freq).Err? ==>
              StageNf(conv, comps, data, idx, k, freq) == Err(ValueAt(comps[idx].params, "NF", freq).error)
  {
  }

  /** With all three reads known, `StageNf` is the noise-figure formula's verdict. */
  lemma StageNfFrom(conv: Conversions, comps: seq<Stage>, data: seq<Stage>, idx: nat, k: nat, freq: real,
                    prevGain: real, prevNf: real, ownNf: real)
    requires idx < |comps| && k < |data| && StagesParallel(comps) && StagesParallel(data)
    requires Before(data, idx, "gain", freq) == Ok(prevGain) && Before(data, idx, "NF", freq) == Ok(prevNf)
    requires ValueAt(comps[idx].params, "NF", freq) == Ok(ownNf)
    ensures NoiseFigure(conv, prevGain, prevNf, ownNf).Err? ==>
              StageNf(conv, comps, data, idx, k, freq) == Err(NoiseFigure(conv, prevGain, prevNf, ownNf).error)
    ensures NoiseFigure(conv, prevGain, prevNf, ownNf).Ok? ==>
              StageNf(conv, comps, data, idx, k, freq) ==
              Ok(SetParam(data, k, "NF", freq, NoiseFigure(conv, prevGain, prevNf, ownNf).value))
  {
  }

  /** A component whose objects nobody touched keeps its validity and its value. */
  twostate lemma EntryKept(c: Component)
    requires old(c.Valid()) && unchanged(c) && unchanged(old(c.parameters.Values))
    ensures c.Valid() && View(c) == old(View(c)) && c.parameters == old(c.parameters)
  {
  }
}
