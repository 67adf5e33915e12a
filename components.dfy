/**
 * The mutable entities: `Parameter` (two lists updated in place) and
 * `Component`, which owns a name-to-Parameter dictionary. One class stands
 * for `Component`, `PassiveComponent`, `ActiveComponent` and `ComponentData`:
 * the type tag selects the add policy, and a component without a tag is a
 * plain `Component` or a `ComponentData`.
 */
module Components {
  import opened Errors
  import opened Tolerances
  import opened Curves
  import opened ComponentTypes
  import opened ParamMaps

  class Parameter {
    const name: string
    var freqs: seq<real>
    var values: seq<real>
    const tolerance: Option<Tolerance>
    /** The component whose dictionary holds this parameter. */
    ghost const owner: object

    ghost predicate Valid()
      reads this
    {
      |freqs| == |values|
    }

    /** The curve this parameter currently holds. */
    function State(): (c: Curve)
      reads this
      ensures Valid() ==> Parallel(c)
    {
      Curve(freqs, values, tolerance)
    }

    constructor (name: string, freqs: seq<real>, values: seq<real>, tolerance: Option<Tolerance>, ghost owner: object)
      requires |freqs| == |values|
      ensures Valid() && this.name == name && this.owner == owner && State() == Curve(freqs, values, tolerance)
    {
      this.owner := owner;
      this.name := name;
      this.freqs := freqs;
      this.values := values;
      this.tolerance := tolerance;
    }

    /** `Parameter.get_value`: one sample answers every query; an empty curve fails. */
    function GetValue(freq: real): (r: Result<real>)
      reads this
      requires Valid()
      ensures r == CurveValue(State(), freq)
      ensures r.Err? <==> |freqs| == 0
      ensures |freqs| == 1 ==> r == Ok(values[0])
      ensures |freqs| >= 2 && StrictlySorted(freqs) && freq <= freqs[0] ==> r == Ok(values[0])
      ensures |freqs| >= 2 && StrictlySorted(freqs) && freq >= freqs[|freqs| - 1] ==> r == Ok(values[|values| - 1])
    {
      if |freqs| >= 2 && StrictlySorted(freqs) && freq <= freqs[0] then
        QueryBelowMinimum(State(), freq);
        CurveValue(State(), freq)
      else if |freqs| >= 2 && StrictlySorted(freqs) && freq >= freqs[|freqs| - 1] then
        QueryAboveMaximum(State(), freq);
        CurveValue(State(), freq)
      else
        CurveValue(State(), freq)
    }

    /**
     * `Parameter.update_value`: look the frequency up; overwrite its value if
     * found, else count the smaller frequencies and insert both entries there.
     */
    method UpdateValue(freq: real, value: real)
      requires Valid()
      modifies this
      ensures Valid()
      ensures State() == Upsert(old(State()), freq, value)
    {
      var i := 0;
      while i < |freqs| && freqs[i] != freq
        invariant 0 <= i <= |freqs|
        invariant freq !in freqs[..i]
      {
        assert freqs[..i + 1] == freqs[..i] + [freqs[i]];
        i := i + 1;
      }
      if i < |freqs| {
        assert IndexOf(freqs, freq) == i;
        values := values[i := value];
      } else {
        assert freqs[..i] == freqs;
        var n := 0;
        var j := 0;
        while j < |freqs|
          invariant 0 <= j <= |freqs|
          invariant n == CountLess(freqs[..j], freq)
        {
          assert freqs[..j + 1][..j] == freqs[..j];
          if freqs[j] < freq {
            n := n + 1;
          }
          j := j + 1;
        }
        assert freqs[..j] == freqs;
        CountLessBound(freqs, freq);
        freqs := freqs[..n] + [freq] + freqs[n..];
        values := values[..n] + [value] + values[n..];
      }
    }
  }

  class Component {
    const uid: string
    const name: string
    /** The concrete type; `None` for a plain `Component` or a `ComponentData`. */
    const tag: Option<ComponentType>
    var parameters: map<string, Parameter>
    /** The parameter set as a value: each name's current curve. */
    ghost var model: Params

    ghost function Repr(): set<object>
      reads this
    {
      {this} + parameters.Values
    }

    /**
     * Each entry is a well-formed parameter of this component named by its
     * key (so no two keys share one), and `model` holds its curve.
     */
    ghost predicate Valid()
      reads this, parameters.Values
    {
      && (forall n :: n in parameters ==> parameters[n].Valid() && parameters[n].name == n && parameters[n].owner == this)
      && model.Keys == parameters.Keys
      && (forall n :: n in parameters ==> model[n] == parameters[n].State())
    }

    lemma ModelParallel()
      requires Valid()
      ensures AllParallel(model)
    {
    }

    constructor (uid: string, name: string, tag: Option<ComponentType>)
      ensures Valid() && this.uid == uid && this.name == name && this.tag == tag
      ensures parameters == map[] && model == map[]
    {
      this.uid := uid;
      this.name := name;
      this.tag := tag;
      parameters := map[];
      model := map[];
    }

    /** `Component.add_parameter` as the base class defines it. */
    method AddBase(pname: string, freqs: seq<real>, values: seq<real>, kwargs: map<string, KwArg>)
      returns (o: Outcome)
      requires Valid()
      modifies this
      ensures Valid() && fresh(Repr() - old(Repr()))
      ensures (model, o) == Add(old(model), pname, freqs, values, kwargs)
    {
      if pname in parameters {
        return Fail(DuplicateParameter(pname));
      }
      if |freqs| != |values| {
        return Fail(LengthMismatch);
      }
      var t := FromKwargs(kwargs);
      if t.Err? {
        return Fail(t.error);
      }
      var p := new Parameter(pname, freqs, values, t.value, this);
      parameters := parameters[pname := p];
      model := model[pname := p.State()];
      o := Pass;
    }

    /** `add_parameter` with the component's own policy (the passive override or the base one). */
    method AddParameter(pname: string, freqs: seq<real>, values: seq<real>, kwargs: map<string, KwArg>)
      returns (o: Outcome)
      requires Valid()
      modifies this
      ensures Valid() && fresh(Repr() - old(Repr()))
      ensures (model, o) == AddWithPolicy(tag, old(model), pname, freqs, values, kwargs)
    {
      if tag.Some? && IsPassive(tag.value) {
        if pname == "gain" {
          o := AddBase(pname, freqs, values, kwargs);
          if o.Pass? {
            o := AddBase("NF", freqs, Negate(values), map[]);
          }
        } else {
          o := Pass;
        }
      } else {
        o := AddBase(pname, freqs, values, kwargs);
      }
    }

    /** `Component.get_parameter`: the parameter object, or an error naming the missing name. */
    function GetParameter(pname: string): (r: Result<Parameter>)
      reads this
      ensures r.Ok? <==> pname in parameters
      ensures r.Ok? ==> r.value == parameters[pname]
      ensures r.Err? ==> r.error == MissingParameter(pname)
    {
      if pname !in parameters then Err(MissingParameter(pname)) else Ok(parameters[pname])
    }

    /** `Component.get_value`: the named parameter read at `freq`. */
    function GetValue(pname: string, freq: real): (r: Result<real>)
      reads this, parameters.Values
      requires Valid()
      ensures AllParallel(model) && r == ValueAt(model, pname, freq)
      ensures r == Err(MissingParameter(pname)) <==> pname !in parameters
    {
      match GetParameter(pname)
      case Err(e) => Err(e)
      case Ok(p) => p.GetValue(freq)
    }

    /**
     * `ComponentData.update_parameter`: create a one-sample parameter, or
     * upsert the existing one. Only a `ComponentData` (untagged) has it.
     */
    method UpdateParameter(pname: string, freq: real, value: real)
      requires Valid() && tag.None?
      modifies Repr()
      ensures Valid() && fresh(Repr() - old(Repr()))
      ensures AllParallel(old(model)) && model == Update(old(model), pname, freq, value)
      ensures old(pname in parameters) ==> parameters == old(parameters)
    {
      ModelParallel();
      if pname !in parameters {
        UpdateAbsentAdds(model, pname, freq, value);
        var o := AddBase(pname, [freq], [value], map[]);
      } else {
        var p := parameters[pname];
        p.UpdateValue(freq, value);
        model := model[pname := p.State()];
      }
    }
  }
}
