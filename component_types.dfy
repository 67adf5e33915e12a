/**
 * The closed set of component type names and which of them are passive.
 */
module ComponentTypes {
  import opened Errors

  datatype ComponentType =
    | Filter | Attenuator | Mixer | Coupler | Tap | Splitter   // passive
    | Amplifier | ActiveMixer | Switch                         // active

  function TypeName(t: ComponentType): string
  {
    match t
    case Filter => "Filter"
    case Attenuator => "Attenuator"
    case Mixer => "Mixer"
    case Coupler => "Coupler"
    case Tap => "Tap"
    case Splitter => "Splitter"
    case Amplifier => "Amplifier"
    case ActiveMixer => "ActiveMixer"
    case Switch => "Switch"
  }

  const VALID_PASSIVE: seq<string> := ["Filter", "Attenuator", "Mixer", "Coupler", "Tap", "Splitter"]
  const VALID_ACTIVE: seq<string> := ["Amplifier", "ActiveMixer", "Switch"]
  const VALID_COMPONENTS: seq<string> := VALID_PASSIVE + VALID_ACTIVE

  /** Passive parts derive their noise figure from their gain. */
  predicate IsPassive(t: ComponentType)
  {
    TypeName(t) in VALID_PASSIVE
  }

  /** The tag a valid type name denotes; names are matched exactly (case-sensitive). */
  function ParseType(name: string): (r: Option<ComponentType>)
    ensures r.Some? <==> name in VALID_COMPONENTS
    ensures r.Some? ==> TypeName(r.value) == name
  {
    if name == "Filter" then Some(Filter)
    else if name == "Attenuator" then Some(Attenuator)
    else if name == "Mixer" then Some(Mixer)
    else if name == "Coupler" then Some(Coupler)
    else if name == "Tap" then Some(Tap)
    else if name == "Splitter" then Some(Splitter)
    else if name == "Amplifier" then Some(Amplifier)
    else if name == "ActiveMixer" then Some(ActiveMixer)
    else if name == "Switch" then Some(Switch)
    else None
  }

  /** Every tag's name is valid and parses back to that tag. */
  lemma ParseTypeName(t: ComponentType)
    ensures TypeName(t) in VALID_COMPONENTS
    ensures ParseType(TypeName(t)) == Some(t)
  {
  }

  /** VALID_COMPONENTS lists the six passive names and then the three active ones, without repeats. */
  lemma ValidComponentsLayout()
    ensures |VALID_COMPONENTS| == 9
    ensures VALID_COMPONENTS[..6] == VALID_PASSIVE && VALID_COMPONENTS[6..] == VALID_ACTIVE
    ensures forall i, j :: 0 <= i < j < |VALID_COMPONENTS| ==> VALID_COMPONENTS[i] != VALID_COMPONENTS[j]
    ensures forall t :: IsPassive(t) <==> TypeName(t) !in VALID_ACTIVE
  {
  }
}
