/**
 The clientside style function `function0` that the map calls once per drawn feature.

 It reads `classes`, `colorscale`, `style` and `colorProp` from the layer's hideout, looks
 up the feature's `colorProp` property, scans the thresholds in order and sets
 `style.fillColor` to the colour of every threshold the value strictly exceeds (so the
 last one wins), then overrides the fill with the hatch pattern reference when the value
 is above 100. `style` is the hideout's own object and is changed in place: the model
 returns the updated `Style`, which is at once the function's result and the hideout's
 style for the next call (`Redraw`).

 A missing property is `None`: in JavaScript it is `undefined`, every `>` comparison with it
 is false and `parseFloat` of it is NaN, so neither the scan nor the override fires.
 */
module Styling {
  import opened Wrappers
  import opened Errors
  import PatternRegistry

  /** The hideout's style object; only `fillColor` is ever written. */
  datatype Style = Style(
    weight: real,
    opacity: real,
    color: string,
    dashArray: string,
    fillOpacity: real,
    fillColor: Option<string>)

  datatype Hideout = Hideout(
    classes: seq<int>,
    colorscale: seq<string>,
    style: Style,
    colorProp: string)

  /** The numeric properties of a GeoJSON feature, the only ones the style function reads. */
  type NumericProperties = map<string, real>

  /** The hard-coded bound above which the hatch pattern replaces the flat colour. */
  const HatchThreshold: int := 100

  /** The fill that refers to the registry's pattern by its id. */
  const HatchFill: string := "url(#" + PatternRegistry.HatchId + ")"

  /** The feature's value for the configured colour property; `None` when it has none. */
  function PropertyValue(properties: NumericProperties, key: string): Option<real> {
    if key in properties then Some(properties[key]) else None
  }

  /** JavaScript's `value > t` for a number or `undefined` value. */
  predicate Exceeds(v: Option<real>, t: int) {
    v.Some? && v.value > t as real
  }

  /** `colorscale[i]`, which is `undefined` past the end of the array. */
  function ColorAt(colorscale: seq<string>, i: nat): Option<string> {
    if i < |colorscale| then Some(colorscale[i]) else None
  }

  predicate StrictlyAscending(xs: seq<int>) {
    forall i, j :: 0 <= i < j < |xs| ==> xs[i] < xs[j]
  }

  /** The last index below `n` whose threshold `v` strictly exceeds. */
  function LastExceeded(v: Option<real>, classes: seq<int>, n: nat): (r: Option<nat>)
    requires n <= |classes|
    ensures r.Some? ==> r.value < n && Exceeds(v, classes[r.value])
    ensures r.Some? ==> forall k :: r.value < k < n ==> !Exceeds(v, classes[k])
    ensures r.None? ==> forall k :: 0 <= k < n ==> !Exceeds(v, classes[k])
    decreases n
  {
    if n == 0 then None
    else if Exceeds(v, classes[n - 1]) then Some(n - 1)
    else LastExceeded(v, classes, n - 1)
  }

  /** The bucket of `v`: the largest index whose threshold it strictly exceeds, or `None`
      ("unclassified") when it exceeds none. The order of `classes` is not assumed. */
  function Classify(v: Option<real>, classes: seq<int>): (r: Option<nat>)
    ensures r.Some? <==> exists k :: 0 <= k < |classes| && Exceeds(v, classes[k])
    ensures r.Some? ==> r.value < |classes| && Exceeds(v, classes[r.value])
    ensures r.Some? ==> forall k :: r.value < k < |classes| ==> !Exceeds(v, classes[k])
  {
    LastExceeded(v, classes, |classes|)
  }

  /** The fill after the first `n` rounds of the threshold loop, starting from `prior`. */
  function ScanFill(v: Option<real>, classes: seq<int>, colorscale: seq<string>,
                    prior: Option<string>, n: nat): Option<string>
    requires n <= |classes|
  {
    match LastExceeded(v, classes, n)
    case Some(j) => ColorAt(colorscale, j)
    case None => prior
  }

  /** The style `function0` returns for a feature whose colour property is `v`. */
  function ResolveStyle(v: Option<real>, h: Hideout): (r: Style)
    // only fillColor is written: weight, opacity, color, dashArray, fillOpacity are kept
    ensures r.weight == h.style.weight && r.opacity == h.style.opacity
    ensures r.color == h.style.color && r.dashArray == h.style.dashArray
    ensures r.fillOpacity == h.style.fillOpacity
  {
    var scanned := ScanFill(v, h.classes, h.colorscale, h.style.fillColor, |h.classes|);
    h.style.(fillColor := if Exceeds(v, HatchThreshold) then Some(HatchFill) else scanned)
  }

  /** `function0(feature, context)` as written: the property lookup, the for loop over the
      thresholds and the hatch override. A feature whose properties object is null or absent
      (`None`) makes the lookup throw a TypeError before the style is touched. The function
      never calls `createSVG`, so the page is not an input. */
  method Function0(properties: Option<NumericProperties>, h: Hideout) returns (r: Result<Style, PyError>)
    ensures properties.None? ==> r == Failure(TypeError)
    ensures properties.Some? ==>
      r == Success(ResolveStyle(PropertyValue(properties.value, h.colorProp), h))
  {
    if properties.None? {
      return Failure(TypeError);
    }
    var value := PropertyValue(properties.value, h.colorProp);
    var style := h.style;
    for i := 0 to |h.classes|
      invariant style == h.style.(fillColor := ScanFill(value, h.classes, h.colorscale, h.style.fillColor, i))
    {
      if Exceeds(value, h.classes[i]) {
        style := style.(fillColor := ColorAt(h.colorscale, i));
      }
    }
    if Exceeds(value, HatchThreshold) {
      style := style.(fillColor := Some(HatchFill));
    }
    r := Success(style);
  }

  /** One call of `function0` on a feature that has a properties object: the hideout
      afterwards holds the returned style. */
  function Redraw(h: Hideout, properties: NumericProperties): (h': Hideout)
    ensures h'.classes == h.classes && h'.colorscale == h.colorscale
    ensures h'.colorProp == h.colorProp
  {
    h.(style := ResolveStyle(PropertyValue(properties, h.colorProp), h))
  }

  /** When `j` is the last threshold the value exceeds, the loop leaves `colorscale[j]`,
      and that is the final fill unless the value is above 100. Holds for any order of
      `classes`. */
  lemma LastExceededThresholdWins(v: Option<real>, h: Hideout, j: nat)
    requires j < |h.classes| && Exceeds(v, h.classes[j])
    requires forall k :: j < k < |h.classes| ==> !Exceeds(v, h.classes[k])
    ensures Classify(v, h.classes) == Some(j)
    ensures ScanFill(v, h.classes, h.colorscale, h.style.fillColor, |h.classes|) == ColorAt(h.colorscale, j)
    ensures !Exceeds(v, HatchThreshold) ==> ResolveStyle(v, h).fillColor == ColorAt(h.colorscale, j)
  {
  }

  /** A value that exceeds no threshold (or is missing) leaves the fill exactly as the
      previous call left it, unless the hatch override applies. */
  lemma NoThresholdKeepsPriorFill(v: Option<real>, h: Hideout)
    requires forall k :: 0 <= k < |h.classes| ==> !Exceeds(v, h.classes[k])
    ensures ScanFill(v, h.classes, h.colorscale, h.style.fillColor, |h.classes|) == h.style.fillColor
    ensures !Exceeds(v, HatchThreshold) ==> ResolveStyle(v, h) == h.style
  {
  }

  /** A feature without the colour property gets the hideout style back unchanged. */
  lemma MissingValueKeepsStyle(h: Hideout, properties: NumericProperties)
    requires h.colorProp !in properties
    ensures Redraw(h, properties) == h
  {
    NoThresholdKeepsPriorFill(None, h);
  }

  /** The hatch override: above 100 the fill is always the pattern reference; at or below
      100 (or missing) the fill is either the carried-over one or a bucket colour. */
  lemma HatchOverride(v: Option<real>, h: Hideout)
    ensures Exceeds(v, HatchThreshold) ==> ResolveStyle(v, h).fillColor == Some(HatchFill)
    ensures !Exceeds(v, HatchThreshold) ==>
      var f := ResolveStyle(v, h).fillColor;
      f == h.style.fillColor ||
      exists j :: 0 <= j < |h.classes| && Exceeds(v, h.classes[j]) && f == ColorAt(h.colorscale, j)
  {
    var c := Classify(v, h.classes);
    if c.Some? {
      assert Exceeds(v, h.classes[c.value]);
    }
  }

  /** So a value at or below 100 is never hatched unless the hatch was carried over from an
      earlier call (or appears in the colour scale itself). */
  lemma NoHatchAtOrBelowThreshold(v: Option<real>, h: Hideout)
    requires !Exceeds(v, HatchThreshold)
    requires h.style.fillColor != Some(HatchFill)
    requires forall j :: 0 <= j < |h.colorscale| ==> h.colorscale[j] != HatchFill
    ensures ResolveStyle(v, h).fillColor != Some(HatchFill)
  {
    HatchOverride(v, h);
  }

  /** -1 for "unclassified", else the bucket index. */
  function Rank(b: Option<nat>): int {
    match b
    case None => -1
    case Some(j) => j
  }

  /** A larger value never lands in a smaller bucket; this needs no ordering of `classes`. */
  lemma ClassifyMonotone(a: real, b: real, classes: seq<int>)
    requires a <= b
    ensures Rank(Classify(Some(a), classes)) <= Rank(Classify(Some(b), classes))
  {
    // every threshold `a` exceeds, `b` exceeds too, so b's last one is no earlier than a's
  }

  /** With strictly ascending thresholds the bucket is an interval:
      `x` is in bucket `j` exactly when `classes[j] < x <= classes[j + 1]`
      (no upper bound for the last bucket). */
  lemma ClassifyInterval(x: real, classes: seq<int>, j: nat)
    requires StrictlyAscending(classes) && j < |classes|
    ensures Classify(Some(x), classes) == Some(j) <==>
      classes[j] as real < x && (j + 1 == |classes| || x <= classes[j + 1] as real)
  {
    if classes[j] as real < x && (j + 1 == |classes| || x <= classes[j + 1] as real) {
      forall k | j < k < |classes|
        ensures !Exceeds(Some(x), classes[k])
      {
        assert classes[j + 1] <= classes[k];
      }
      LastExceededThresholdWins(Some(x), Hideout(classes, [], Style(0.0, 0.0, "", "", 0.0, None), ""), j);
    }
  }

  /** The carried-over fill: a feature that exceeds no threshold and is not hatched shows
      whatever fill the previous feature's call left in the shared style. */
  lemma FillCarriesOver(h: Hideout, first: NumericProperties, second: NumericProperties)
    requires var v := PropertyValue(second, h.colorProp);
      !Exceeds(v, HatchThreshold) && forall k :: 0 <= k < |h.classes| ==> !Exceeds(v, h.classes[k])
    ensures Redraw(Redraw(h, first), second).style.fillColor == Redraw(h, first).style.fillColor
  {
    NoThresholdKeepsPriorFill(PropertyValue(second, h.colorProp), Redraw(h, first));
  }
}
