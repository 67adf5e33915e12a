/**
 * `component_builder`: a component dictionary (uid, name, type name and the
 * parameter entries in dictionary order) becomes a component of that type
 * with every parameter added through the type's own `add_parameter`.
 *
 * The type name is checked against VALID_COMPONENTS first; the class is then
 * looked up among the names the package imports, which are only `Filter`
 * and `Amplifier`, so every other valid name fails at the lookup.
 */
module Builder {
  import opened Errors
  import opened Tolerances
  import opened Curves
  import opened ComponentTypes
  import opened ParamMaps
  import opened Components

  /** One entry of `params`: the keyword arguments of one `add_parameter` call. */
  datatype ParamSpec = ParamSpec(name: string, freqs: seq<real>, values: seq<real>, kwargs: map<string, KwArg>)

  /** The dictionary the XML loader produces for one component. */
  datatype ComponentDict = ComponentDict(uid: string, name: string, typeName: string, params: seq<ParamSpec>)

  /** A built component as a value: its identity, its tag and its parameter set. */
  datatype Built = Built(uid: string, name: string, tag: ComponentType, params: Params)

  /** The class a type name resolves to in the package namespace, if it is bound there. */
  function BoundClass(typeName: string): (r: Option<ComponentType>)
    ensures r.Some? <==> typeName == "Filter" || typeName == "Amplifier"
    ensures r.Some? ==> TypeName(r.value) == typeName
  {
    if typeName == "Filter" then Some(Filter)
    else if typeName == "Amplifier" then Some(Amplifier)
    else None
  }

  /**
   * The `add_parameter` calls in order under one add policy; the first
   * failure propagates, with the additions before it kept on the object.
   */
  function AddAll(tag: Option<ComponentType>, ps: Params, specs: seq<ParamSpec>): (Params, Outcome)
    decreases |specs|
  {
    if specs == [] then (ps, Pass)
    else
      var (ps1, o) := AddWithPolicy(tag, ps, specs[0].name, specs[0].freqs, specs[0].values, specs[0].kwargs);
      if o.Fail? then (ps1, o) else AddAll(tag, ps1, specs[1..])
  }

  /**
   * `component_builder(comp_dict)` as a value: an invalid type name fails
   * naming the valid list, a valid but unbound one fails at the lookup, and
   * otherwise the component holds what the additions produce.
   */
  function Build(d: ComponentDict): (r: Result<Built>)
    ensures d.typeName !in VALID_COMPONENTS ==> r == Err(InvalidComponentType(d.typeName, VALID_COMPONENTS))
    ensures d.typeName in VALID_COMPONENTS && d.typeName != "Filter" && d.typeName != "Amplifier" ==>
              r == Err(UnboundComponentType(d.typeName))
    ensures r.Ok? ==> && r.value.uid == d.uid && r.value.name == d.name
                      && TypeName(r.value.tag) == d.typeName
                      && AddAll(Some(r.value.tag), map[], d.params) == (r.value.params, Pass)
    ensures BoundClass(d.typeName).Some? ==>
              (r.Ok? <==> AddAll(BoundClass(d.typeName), map[], d.params).1.Pass?) &&
              (r.Err? ==> Fail(r.error) == AddAll(BoundClass(d.typeName), map[], d.params).1)
  {
    if d.typeName !in VALID_COMPONENTS then Err(InvalidComponentType(d.typeName, VALID_COMPONENTS))
    else match BoundClass(d.typeName)
      case None => Err(UnboundComponentType(d.typeName))
      case Some(t) =>
        var (ps, o) := AddAll(Some(t), map[], d.params);
        if o.Fail? then Err(o.error) else Ok(Built(d.uid, d.name, t, ps))
  }

  /** Running two lists of additions is running the first, then (if it passed) the second. */
  lemma {:induction false} AddAllAppend(tag: Option<ComponentType>, ps: Params, s1: seq<ParamSpec>, s2: seq<ParamSpec>)
    ensures AddAll(tag, ps, s1 + s2) ==
            (var (ps1, o1) := AddAll(tag, ps, s1); if o1.Fail? then (ps1, o1) else AddAll(tag, ps1, s2))
    decreases |s1|
  {
    if s1 != [] {
      assert (s1 + s2)[0] == s1[0];
      assert (s1 + s2)[1..] == s1[1..] + s2;
      var (ps1, o) := AddWithPolicy(tag, ps, s1[0].name, s1[0].freqs, s1[0].values, s1[0].kwargs);
      if o.Pass? {
        AddAllAppend(tag, ps1, s1[1..], s2);
      }
    } else {
      assert s1 + s2 == s2;
    }
  }

  /** The names the additions can introduce: each entry's own name, and `NF` under the passive policy. */
  predicate Introduced(tag: Option<ComponentType>, specs: seq<ParamSpec>, n: string)
  {
    (exists i :: 0 <= i < |specs| && specs[i].name == n) || (n == "NF" && tag.Some? && IsPassive(tag.value))
  }

  /**
   * Additions never overwrite or remove an existing parameter, and every new
   * key is one the entries name (or the derived `NF` of a passive part).
   */
  lemma {:induction false} AddAllKeeps(tag: Option<ComponentType>, ps: Params, specs: seq<ParamSpec>)
    ensures var r := AddAll(tag, ps, specs).0;
            && (forall n :: n in ps ==> n in r && r[n] == ps[n])
            && (forall n :: n in r && n !in ps ==> Introduced(tag, specs, n))
    decreases |specs|
  {
    if specs != [] {
      var s := specs[0];
      var (ps1, o) := AddWithPolicy(tag, ps, s.name, s.freqs, s.values, s.kwargs);
      assert forall n :: n in ps ==> n in ps1 && ps1[n] == ps[n];
      assert forall n :: n in ps1 && n !in ps ==> n == s.name || (n == "NF" && tag.Some? && IsPassive(tag.value));
      if o.Pass? {
        AddAllKeeps(tag, ps1, specs[1..]);
        var r := AddAll(tag, ps1, specs[1..]).0;
        forall n | n in r && n !in ps
          ensures Introduced(tag, specs, n)
        {
          if n in ps1 {
            if n == s.name {
              assert specs[0].name == n;
            }
          } else {
            assert Introduced(tag, specs[1..], n);
            if !(n == "NF" && tag.Some? && IsPassive(tag.value)) {
              var i :| 0 <= i < |specs[1..]| && specs[1..][i].name == n;
              assert specs[i + 1].name == n;
            }
          }
        }
      } else {
        if s.name in ps1 && s.name !in ps {
          assert specs[0].name == s.name;
        }
      }
    }
  }

  /** The names of a list of entries, in order. */
  function Names(specs: seq<ParamSpec>): (r: seq<string>)
    ensures |r| == |specs| && forall i :: 0 <= i < |specs| ==> r[i] == specs[i].name
  {
    seq(|specs|, i requires 0 <= i < |specs| => specs[i].name)
  }

  /**
   * Under the base policy, entries with distinct fresh names, matching
   * lengths and acceptable options all succeed: the map gains exactly their
   * names, each holding its lists and tolerance.
   */
  lemma {:induction false} AddAllBase(tag: Option<ComponentType>, ps: Params, specs: seq<ParamSpec>)
    requires tag.None? || !IsPassive(tag.value)
    requires forall i, j :: 0 <= i < j < |specs| ==> specs[i].name != specs[j].name
    requires forall i :: 0 <= i < |specs| ==> specs[i].name !in ps
    requires forall i :: 0 <= i < |specs| ==> |specs[i].freqs| == |specs[i].values| && FromKwargs(specs[i].kwargs).Ok?
    ensures AddAll(tag, ps, specs).1 == Pass
    ensures AddAll(tag, ps, specs).0.Keys == ps.Keys + (set n | n in Names(specs))
    ensures forall n :: n in ps ==> AddAll(tag, ps, specs).0[n] == ps[n]
    decreases |specs|
  {
    if specs != [] {
      var s := specs[0];
      var rest := specs[1..];
      var ps1 := ps[s.name := Curve(s.freqs, s.values, FromKwargs(s.kwargs).value)];
      AddBaseFirst(tag, ps, specs);
      AddBaseRest(ps, ps1, specs);
      AddAllBase(tag, ps1, rest);
      NameSetCons(specs);
    }
  }

  /** The set of names of a non-empty list: the first entry's name and the rest's names. */
  lemma NameSetCons(specs: seq<ParamSpec>)
    requires |specs| > 0
    ensures (set n | n in Names(specs)) == {specs[0].name} + (set n | n in Names(specs[1..]))
  {
    assert Names(specs) == [specs[0].name] + Names(specs[1..]);
  }

  /** Each entry AddAllBase admits ends up holding its own lists and tolerance. */
  lemma {:induction false} AddAllBaseValues(tag: Option<ComponentType>, ps: Params, specs: seq<ParamSpec>)
    requires tag.None? || !IsPassive(tag.value)
    requires forall i, j :: 0 <= i < j < |specs| ==> specs[i].name != specs[j].name
    requires forall i :: 0 <= i < |specs| ==> specs[i].name !in ps
    requires forall i :: 0 <= i < |specs| ==> |specs[i].freqs| == |specs[i].values| && FromKwargs(specs[i].kwargs).Ok?
    ensures forall i :: 0 <= i < |specs| ==>
              && specs[i].name in AddAll(tag, ps, specs).0
              && AddAll(tag, ps, specs).0[specs[i].name] == Curve(specs[i].freqs, specs[i].values, FromKwargs(specs[i].kwargs).value)
    decreases |specs|
  {
    if specs != [] {
      var s := specs[0];
      var rest := specs[1..];
      var ps1 := ps[s.name := Curve(s.freqs, s.values, FromKwargs(s.kwargs).value)];
      AddBaseFirst(tag, ps, specs);
      AddBaseRest(ps, ps1, specs);
      AddAllBase(tag, ps1, rest);
      AddAllBaseValues(tag, ps1, rest);
      var r := AddAll(tag, ps1, rest).0;
      forall i | 0 <= i < |specs|
        ensures specs[i].name in r && r[specs[i].name] == Curve(specs[i].freqs, specs[i].values, FromKwargs(specs[i].kwargs).value)
      {
        if i > 0 {
          assert specs[i] == rest[i - 1];
        }
      }
    }
  }

  /** After the first entry is added, the remaining names are still fresh. */
  lemma AddBaseRest(ps: Params, ps1: Params, specs: seq<ParamSpec>)
    requires |specs| > 0 && ps1.Keys == ps.Keys + {specs[0].name}
    requires forall i, j :: 0 <= i < j < |specs| ==> specs[i].name != specs[j].name
    requires forall i :: 0 <= i < |specs| ==> specs[i].name !in ps
    requires forall i :: 0 <= i < |specs| ==> |specs[i].freqs| == |specs[i].values| && FromKwargs(specs[i].kwargs).Ok?
    ensures forall i :: 0 <= i < |specs| - 1 ==> specs[1..][i].name !in ps1
    ensures forall i, j :: 0 <= i < j < |specs| - 1 ==> specs[1..][i].name != specs[1..][j].name
    ensures forall i :: 0 <= i < |specs| - 1 ==>
              |specs[1..][i].freqs| == |specs[1..][i].values| && FromKwargs(specs[1..][i].kwargs).Ok?
  {
  }

  /** The first of the entries AddAllBase admits is added under its own name, and the rest follow. */
  lemma AddBaseFirst(tag: Option<ComponentType>, ps: Params, specs: seq<ParamSpec>)
    requires tag.None? || !IsPassive(tag.value)
    requires |specs| > 0 && specs[0].name !in ps
    requires |specs[0].freqs| == |specs[0].values| && FromKwargs(specs[0].kwargs).Ok?
    ensures AddAll(tag, ps, specs) ==
            AddAll(tag, ps[specs[0].name := Curve(specs[0].freqs, specs[0].values, FromKwargs(specs[0].kwargs).value)], specs[1..])
  {
    var s := specs[0];
    AddNewName(ps, s.name, s.freqs, s.values, s.kwargs);
    var ps1 := ps[s.name := Curve(s.freqs, s.values, FromKwargs(s.kwargs).value)];
    assert AddWithPolicy(tag, ps, s.name, s.freqs, s.values, s.kwargs) == (ps1, Pass);
  }

  /** Under the passive policy the only names the additions can introduce are `gain` and `NF`. */
  lemma PassiveBuildKeys(tag: ComponentType, ps: Params, specs: seq<ParamSpec>)
    requires IsPassive(tag)
    ensures AddAll(Some(tag), ps, specs).0.Keys <= ps.Keys + {"gain", "NF"}
  {
    AddAllKeeps(Some(tag), ps, specs);
    var r := AddAll(Some(tag), ps, specs).0;
    forall n | n in r && n !in ps
      ensures n == "gain" || n == "NF"
    {
      PassiveOnlyGain(tag, ps, specs, n);
    }
  }

  /** A name a passive part gains is `gain` or `NF`: every other entry is dropped. */
  lemma {:induction false} PassiveOnlyGain(tag: ComponentType, ps: Params, specs: seq<ParamSpec>, n: string)
    requires IsPassive(tag)
    requires n in AddAll(Some(tag), ps, specs).0 && n !in ps
    ensures n == "gain" || n == "NF"
    decreases |specs|
  {
    if specs != [] {
      var s := specs[0];
      var (ps1, o) := AddWithPolicy(Some(tag), ps, s.name, s.freqs, s.values, s.kwargs);
      assert ps1.Keys <= ps.Keys + {"gain", "NF"};
      if o.Pass? && n !in ps1 {
        PassiveOnlyGain(tag, ps1, specs[1..], n);
      }
    }
  }

  /**
   * `component_builder(comp_dict)`: validate the type name, look the class
   * up, create the component and call its `add_parameter` on each entry of
   * `params` in order. Any failure propagates and the object is dropped.
   */
  method ComponentBuilder(d: ComponentDict) returns (r: Result<Component>)
    ensures r.Err? <==> Build(d).Err?
    ensures r.Err? ==> r.error == Build(d).error
    ensures r.Ok? ==> && fresh(r.value) && r.value.Valid() && r.value.tag.Some?
                      && Built(r.value.uid, r.value.name, r.value.tag.value, r.value.model) == Build(d).value
  {
    if d.typeName !in VALID_COMPONENTS {
      return Err(InvalidComponentType(d.typeName, VALID_COMPONENTS));
    }
    var cls := BoundClass(d.typeName);
    if cls.None? {
      return Err(UnboundComponentType(d.typeName));
    }
    var tag := Some(cls.value);
    var c := new Component(d.uid, d.name, tag);
    var i := 0;
    while i < |d.params|
      invariant 0 <= i <= |d.params|
      invariant fresh(c.Repr()) && c.Valid() && c.uid == d.uid && c.name == d.name && c.tag == tag
      invariant AddAll(tag, c.model, d.params[i..]) == AddAll(tag, map[], d.params)
    {
      var p := d.params[i];
      var o := c.AddParameter(p.name, p.freqs, p.values, p.kwargs);
      if o.Fail? {
        return Err(o.error);
      }
      i := i + 1;
    }
    return Ok(c);
  }
}
