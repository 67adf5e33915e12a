/**
 * The parameter set of a component, seen as a value: a map from parameter
 * name to curve. These functions state what `add_parameter` (base and
 * passive), `get_value` and `update_parameter` do to that map.
 */
module ParamMaps {
  import opened Errors
  import opened Tolerances
  import opened Curves
  import opened ComponentTypes

  type Params = map<string, Curve>

  predicate AllParallel(ps: Params)
  {
    forall n :: n in ps ==> Parallel(ps[n])
  }

  /** Every curve parallel and ascending without repeats. */
  predicate AllSorted(ps: Params)
  {
    forall n :: n in ps ==> Parallel(ps[n]) && StrictlySorted(ps[n].freqs)
  }

  /** `Component.get_value`: the named curve read at `freq`; a missing name fails. */
  function ValueAt(ps: Params, name: string, freq: real): (r: Result<real>)
    requires AllParallel(ps)
  {
    if name !in ps then Err(MissingParameter(name)) else CurveValue(ps[name], freq)
  }

  /** The lookup fails with "missing parameter" exactly when the name is absent. */
  lemma ValueAtMissing(ps: Params, name: string, freq: real)
    requires AllParallel(ps)
    ensures ValueAt(ps, name, freq) == Err(MissingParameter(name)) <==> name !in ps
    ensures name in ps && |ps[name].freqs| > 0 ==> ValueAt(ps, name, freq).Ok?
  {
  }

  /**
   * `Component.add_parameter`: refuses a duplicate name, then a length
   * mismatch, then any error the tolerance options raise; otherwise adds
   * exactly one entry.
   */
  function Add(ps: Params, name: string, freqs: seq<real>, values: seq<real>, kwargs: map<string, KwArg>)
    : (Params, Outcome)
  {
    if name in ps then (ps, Fail(DuplicateParameter(name)))
    else if |freqs| != |values| then (ps, Fail(LengthMismatch))
    else match FromKwargs(kwargs)
      case Err(e) => (ps, Fail(e))
      case Ok(t) => (ps[name := Curve(freqs, values, t)], Pass)
  }

  /** A duplicate name fails and leaves the map unchanged. */
  lemma AddDuplicate(ps: Params, name: string, freqs: seq<real>, values: seq<real>, kwargs: map<string, KwArg>)
    requires name in ps
    ensures Add(ps, name, freqs, values, kwargs) == (ps, Fail(DuplicateParameter(name)))
  {
  }

  /**
   * A length mismatch fails; otherwise a new name with acceptable options
   * adds exactly that key, holding the given lists, and nothing else changes.
   */
  lemma AddNewName(ps: Params, name: string, freqs: seq<real>, values: seq<real>, kwargs: map<string, KwArg>)
    requires name !in ps
    ensures |freqs| != |values| ==> Add(ps, name, freqs, values, kwargs) == (ps, Fail(LengthMismatch))
    ensures |freqs| == |values| && FromKwargs(kwargs).Ok? ==>
              var (ps', o) := Add(ps, name, freqs, values, kwargs);
              && o == Pass
              && ps'.Keys == ps.Keys + {name}
              && ps'[name] == Curve(freqs, values, FromKwargs(kwargs).value)
              && forall n :: n in ps ==> ps'[n] == ps[n]
    ensures Add(ps, name, freqs, values, kwargs).1.Fail? ==> Add(ps, name, freqs, values, kwargs).0 == ps
  {
  }

  /** Each value multiplied by -1: the derived noise figure of a passive part. */
  function Negate(values: seq<real>): (r: seq<real>)
    ensures |r| == |values|
  {
    seq(|values|, i requires 0 <= i < |values| => values[i] * -1.0)
  }

  /**
   * `PassiveComponent.add_parameter`: only `gain` is handled; it is added
   * with its options and then `NF` is added at the same frequencies with
   * negated values and no options. Any other name is ignored.
   */
  function PassiveAdd(ps: Params, name: string, freqs: seq<real>, values: seq<real>, kwargs: map<string, KwArg>)
    : (Params, Outcome)
  {
    if name != "gain" then (ps, Pass)
    else
      var (ps1, o1) := Add(ps, name, freqs, values, kwargs);
      if o1.Fail? then (ps1, o1)
      else Add(ps1, "NF", freqs, Negate(values), map[])
  }

  /** The add policy of a component: passive parts derive NF, all others add verbatim. */
  function AddWithPolicy(tag: Option<ComponentType>, ps: Params, name: string, freqs: seq<real>,
                         values: seq<real>, kwargs: map<string, KwArg>): (Params, Outcome)
  {
    if tag.Some? && IsPassive(tag.value) then PassiveAdd(ps, name, freqs, values, kwargs)
    else Add(ps, name, freqs, values, kwargs)
  }

  /** A passive part silently drops every name other than `gain`. */
  lemma PassiveIgnoresOtherNames(ps: Params, name: string, freqs: seq<real>, values: seq<real>,
                                 kwargs: map<string, KwArg>)
    requires name != "gain"
    ensures PassiveAdd(ps, name, freqs, values, kwargs) == (ps, Pass)
  {
  }

  /**
   * Adding `gain` to a passive part with neither `gain` nor `NF` present adds
   * `gain` as given, with its tolerance, and `NF` at the same frequencies with
   * every value negated and no tolerance.
   */
  lemma PassiveGainDerivesNF(ps: Params, freqs: seq<real>, values: seq<real>, kwargs: map<string, KwArg>)
    requires "gain" !in ps && "NF" !in ps && |freqs| == |values| && FromKwargs(kwargs).Ok?
    ensures var (ps', o) := PassiveAdd(ps, "gain", freqs, values, kwargs);
            && o == Pass
            && ps'.Keys == ps.Keys + {"gain", "NF"}
            && ps'["gain"] == Curve(freqs, values, FromKwargs(kwargs).value)
            && ps'["NF"].freqs == freqs && ps'["NF"].tolerance == None
            && |ps'["NF"].values| == |values|
            && (forall i :: 0 <= i < |values| ==> ps'["NF"].values[i] == -values[i])
            && forall n :: n in ps ==> ps'[n] == ps[n]
  {
    AddNewName(ps, "gain", freqs, values, kwargs);
    var ps1 := Add(ps, "gain", freqs, values, kwargs).0;
    FromKwargsOutcomes(map[]);
    AddNewName(ps1, "NF", freqs, Negate(values), map[]);
  }

  /** An existing `gain` fails at once, before `NF` is touched. */
  lemma PassiveGainExists(ps: Params, freqs: seq<real>, values: seq<real>, kwargs: map<string, KwArg>)
    requires "gain" in ps
    ensures PassiveAdd(ps, "gain", freqs, values, kwargs) == (ps, Fail(DuplicateParameter("gain")))
  {
  }

  /** An existing `NF` lets `gain` in and then fails on the derived `NF`, leaving `NF` as it was. */
  lemma PassiveNFExists(ps: Params, freqs: seq<real>, values: seq<real>, kwargs: map<string, KwArg>)
    requires "gain" !in ps && "NF" in ps && |freqs| == |values| && FromKwargs(kwargs).Ok?
    ensures var (ps', o) := PassiveAdd(ps, "gain", freqs, values, kwargs);
            && o == Fail(DuplicateParameter("NF"))
            && ps' == ps["gain" := Curve(freqs, values, FromKwargs(kwargs).value)]
            && ps'["NF"] == ps["NF"]
  {
  }

  /** The documented example: gain [-0.5, -1.0] at [10, 20] gives NF [0.5, 1.0]. */
  lemma PassiveFilterExample()
    ensures PassiveAdd(map[], "gain", [10.0, 20.0], [-0.5, -1.0], map[]) ==
            (map["gain" := Curve([10.0, 20.0], [-0.5, -1.0], None),
                 "NF" := Curve([10.0, 20.0], [0.5, 1.0], None)], Pass)
  {
    FromKwargsOutcomes(map[]);
    assert Negate([-0.5, -1.0]) == [0.5, 1.0];
  }

  /**
   * `ComponentData.update_parameter`: an absent name gets a one-sample
   * curve without tolerance (what `add_parameter` creates, see
   * `UpdateAbsentAdds`); a present one is upserted.
   */
  function Update(ps: Params, name: string, freq: real, value: real): Params
    requires AllParallel(ps)
  {
    if name !in ps then ps[name := Curve([freq], [value], None)]
    else ps[name := Upsert(ps[name], freq, value)]
  }

  /** For an absent name, the update is `add_parameter(name, [freq], [value])`, which then succeeds. */
  lemma UpdateAbsentAdds(ps: Params, name: string, freq: real, value: real)
    requires AllParallel(ps) && name !in ps
    ensures Add(ps, name, [freq], [value], map[]) == (Update(ps, name, freq, value), Pass)
  {
    FromKwargsOutcomes(map[]);
  }

  /**
   * After an update, the parameter reads back `value` at `freq`, the map
   * stays sorted, the name is present, and no other entry changes.
   */
  lemma UpdateReadBack(ps: Params, name: string, freq: real, value: real)
    requires AllSorted(ps)
    ensures AllParallel(ps)
    ensures AllSorted(Update(ps, name, freq, value))
    ensures Update(ps, name, freq, value).Keys == ps.Keys + {name}
    ensures ValueAt(Update(ps, name, freq, value), name, freq) == Ok(value)
    ensures forall n :: n in ps && n != name ==> Update(ps, name, freq, value)[n] == ps[n]
  {
    FromKwargsOutcomes(map[]);
    if name in ps {
      UpsertKeepsShape(ps[name], freq, value);
      UpsertReadBack(ps[name], freq, value);
    }
  }

  /** Updating an existing name keeps its curve length when `freq` is known and grows it by one otherwise. */
  lemma UpdateLength(ps: Params, name: string, freq: real, value: real)
    requires AllParallel(ps) && name in ps
    ensures var c := Update(ps, name, freq, value)[name];
            |c.freqs| == |c.values| == |ps[name].freqs| + (if freq in ps[name].freqs then 0 else 1)
    ensures freq in Update(ps, name, freq, value)[name].freqs
  {
    if freq !in ps[name].freqs {
      UpsertNew(ps[name], freq, value);
    }
  }

  /** Updates keep every curve parallel. */
  lemma UpdateParallel(ps: Params, name: string, freq: real, value: real)
    requires AllParallel(ps)
    ensures AllParallel(Update(ps, name, freq, value))
    ensures Update(ps, name, freq, value).Keys == ps.Keys + {name}
    ensures forall n :: n in ps && n != name ==> Update(ps, name, freq, value)[n] == ps[n]
  {
    FromKwargsOutcomes(map[]);
    if name in ps {
      UpsertKeepsShape(ps[name], freq, value);
    }
  }

  /**
   * After recording one sample at `freq` under `name`: the curve holds `freq`,
   * its two lists stay parallel, and it has as many samples as before when
   * `freq` was already there, one more when it was new, and exactly one when
   * the name was absent.
   */
  predicate Recorded(before: Params, after: Params, name: string, freq: real)
  {
    && name in after
    && freq in after[name].freqs
    && |after[name].freqs| == |after[name].values|
    && |after[name].freqs| ==
       (if name !in before then 1
        else |before[name].freqs| + (if freq in before[name].freqs then 0 else 1))
  }

  lemma UpdateRecorded(ps: Params, name: string, freq: real, value: real)
    requires AllParallel(ps)
    ensures Recorded(ps, Update(ps, name, freq, value), name, freq)
  {
    FromKwargsOutcomes(map[]);
    if name in ps {
      UpdateLength(ps, name, freq, value);
    }
  }
}
