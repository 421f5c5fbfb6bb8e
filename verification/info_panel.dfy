/**
 `get_info(feature)`: the children of the hover info panel.

 The hovered feature is what the map reports as hover data: Python `None` (the default
 argument), another falsy value such as an empty dict, or a feature dict whose
 "properties" entry may be missing, `null`, or lack "name" or "density". Formatting the
 density to three decimals is a parameter: only its position and the unit after it are
 modelled.
 */
module InfoPanel {
  import opened Wrappers
  import opened Errors

  /** The Dash HTML components and plain strings the panel is built from. */
  datatype Component =
    | H4(text: string)
    | P(text: string)
    | B(text: string)
    | Br
    | Text(text: string)
    | Sup(text: string)

  /** The name and density entries of a feature's properties dict, each possibly absent.
      This is the panel's view of a feature; the style function sees only its numeric
      properties (`Styling.NumericProperties`). */
  datatype Properties = Properties(name: Option<string>, density: Option<real>)

  /** The feature dict's "properties" entry. */
  datatype PropertiesEntry =
    | MissingKey             // no "properties" key
    | Null                   // "properties": null, which GeoJSON allows
    | Dict(props: Properties)

  datatype Hover =
    | NoFeature                           // None
    | Falsy                               // an empty dict or other falsy value
    | Feature(properties: PropertiesEntry) // a non-empty feature dict

  const Header: Component := H4("US Population Density")
  const Prompt: Component := P("Hoover over a state")
  const DensityUnit: string := " people / mi"

  predicate EndsWith(s: string, suffix: string) {
    |suffix| <= |s| && s[|s| - |suffix|..] == suffix
  }

  /** Reads the name, then the density, out of the properties entry, raising as Python
      does at the first lookup that fails: subscripting `None` is a TypeError. */
  function ReadProperties(p: PropertiesEntry): Result<(string, real), PyError> {
    match p
    case MissingKey => Failure(KeyError("properties"))
    case Null => Failure(TypeError)
    case Dict(Properties(None, _)) => Failure(KeyError("name"))
    case Dict(Properties(Some(_), None)) => Failure(KeyError("density"))
    case Dict(Properties(Some(name), Some(density))) => Success((name, density))
  }

  function GetInfo(feature: Hover, format3: real -> string): (r: Result<seq<Component>, PyError>)
    // the header comes first in both branches
    ensures r.Success? ==> |r.value| >= 1 && r.value[0] == Header
    // placeholder branch: header and prompt only
    ensures !feature.Feature? ==> r == Success([Header, Prompt])
    // feature branch: five items in a fixed order, the density text ending in the unit
    ensures feature.Feature? && r.Success? ==>
      && feature.properties.Dict?
      && feature.properties.props.name.Some?
      && feature.properties.props.density.Some?
      && |r.value| == 5
      && r.value[1] == B(feature.properties.props.name.value)
      && r.value[2] == Br
      && r.value[3].Text? && EndsWith(r.value[3].text, DensityUnit)
      && r.value[4] == Sup("2")
    // a failed lookup raises, naming the first one that fails in evaluation order
    ensures r.Failure? <==>
      feature.Feature? &&
      (!feature.properties.Dict? || feature.properties.props.name.None? ||
       feature.properties.props.density.None?)
    ensures r.Failure? && feature.properties.MissingKey? ==> r.error == KeyError("properties")
    ensures r.Failure? && feature.properties.Null? ==> r.error == TypeError
    ensures r.Failure? && feature.properties.Dict? && feature.properties.props.name.None? ==>
      r.error == KeyError("name")
    ensures r.Failure? && feature.properties.Dict? && feature.properties.props.name.Some? ==>
      r.error == KeyError("density")
  {
    assert [Header] + [Prompt] == [Header, Prompt];
    if !feature.Feature? then Success([Header] + [Prompt])
    else
      match ReadProperties(feature.properties)
      case Failure(e) => Failure(e)
      case Success((name, density)) =>
        Success([Header] + [B(name), Br, Text(format3(density) + DensityUnit), Sup("2")])
  }

  /** The panel shown before any hover, built with the default argument, is the placeholder. */
  lemma InitialPanel(format3: real -> string)
    ensures GetInfo(NoFeature, format3) == Success([H4("US Population Density"), P("Hoover over a state")])
  {
  }
}
