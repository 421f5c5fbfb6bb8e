# dashpattern: a Dafny model of the choropleth styling logic

The repository is a Dash page showing a choropleth of US population density. Its decision
logic is small and is what this project models:

- **`function0`** (`assets/dashExtensions_default.js`, carried verbatim as the
  `style_handle` string in `myapp.py`): the clientside style function. It reads
  `classes`, `colorscale`, `style` and `colorProp` from the GeoJSON layer's hideout, sets
  `style.fillColor` to the colour of the last threshold the feature's density strictly
  exceeds, overrides the fill with `url(#diagonalHatch)` above 100, and returns the shared
  `style` object, which it has changed in place (module `Styling`).
- **`createSVG(color)`**: the create-or-update registry for the `diagonalHatch` SVG
  pattern, defined inside `function0` but never called by it (module `PatternRegistry`).
  The pattern the page actually shows comes from the server's `create_svg("blue")`. The
  model's `ServerDocument` writes that element out attribute by attribute, including the
  hatch path data, and is proved equal to what the client-side create branch builds for
  "blue".
- **`ctg`**: the colour bar's `"{c}+"` category labels (module `Legend`, with Python's
  `str()` of an integer in module `Numerals`).
- **`get_info`**: the hover info panel's children (module `InfoPanel`).
- The configuration constants and hideout of `myapp.py`, the configuration invariant and
  worked examples (module `Config`).

Modelling choices:

- The feature's value is `Option<real>`; `None` is a missing property. In JavaScript that
  value is `undefined`: every `>` comparison with it is false and `parseFloat` gives NaN, so
  neither the threshold loop nor the hatch override fires.
- The shared, mutated `style` object is a `Style` value. `function0` returns the new
  style, and `Redraw` threads it into the hideout for the next call, so "the returned object
  is the hideout's style" holds by construction. A fill is `Option<string>`; `None` means the
  key is unset. `colorscale[i]` past the end is JavaScript's `undefined`, which is also `None`.
- A feature whose `properties` object is null or absent makes `function0` throw a TypeError
  at the property lookup, before the style is written (`Styling.Function0` returns
  `Failure(TypeError)`). `Redraw` and the lemmas about successive calls take features that
  have a properties object.
- `classes` are integers, as in `myapp.py`. The model does not require them to be sorted or
  `colorscale` to match their length, because the JavaScript does not either. Those two
  facts are the configuration invariant, proved for the actual constants.
- The page is a sequence of id-carrying elements in document order. `getElementById`
  returns the first element with the id, and `querySelector("rect")` returns its first rect.
  `Abstract` maps a page to the two-state view `Absent | Present(fill)`.
- `"{:.3f}"` formatting of the density is a function parameter. The model fixes where the
  formatted number sits and the `" people / mi"` suffix after it, not the digits.
- The hideout holds one `style` object that every call mutates. So a feature that is
  unclassified, or has no value, keeps the fill the previous feature left, including the
  hatch (`Styling.FillCarriesOver`, `Config.HatchCarriedToUnclassified`).
- Density 150 falls in bucket 4 (`#FC4E2A`) but is drawn hatched, because the override
  applies to every value above 100 (`Config.Example150`).
- `function0` defines `createSVG` but never calls it, so the style function takes no page
  argument and leaves the page untouched.

## Model

| member | source | states |
|---|---|---|
| Styling.LastExceeded | assets/dashExtensions_default.js:60-64 | the scan over the first n thresholds finds the largest index the value strictly exceeds, or none when it exceeds none of them |
| Styling.Classify | assets/dashExtensions_default.js:60-64 | a bucket exists exactly when some threshold is strictly exceeded; the bucket is exceeded and no later threshold is; no ordering of classes is assumed |
| Styling.Function0 | assets/dashExtensions_default.js:53-70 | a null or absent properties object throws TypeError at the lookup; otherwise the for loop that overwrites fillColor at each exceeded threshold, then applies the >100 override, computes the same style as the last-exceeded reference definition |
| Styling.ResolveStyle | assets/dashExtensions_default.js:53-70 | only fillColor is written: weight, opacity, color, dashArray and fillOpacity come out as they went in |
| Styling.Redraw | myapp.py:126 | a call changes only the hideout's style; classes, colorscale and colorProp stay as configured |
| Styling.LastExceededThresholdWins | assets/dashExtensions_default.js:60-64 | if j is the last threshold exceeded, the bucket is j, the loop leaves colorscale[j], and that is the final fill unless the value is above 100 |
| Styling.NoThresholdKeepsPriorFill | assets/dashExtensions_default.js:53-64 | a value exceeding no threshold leaves fillColor exactly as it was on entry, and at or below 100 the whole style is returned unchanged |
| Styling.MissingValueKeepsStyle | assets/dashExtensions_default.js:59-68 | a feature without the colour property leaves the hideout exactly as it was |
| Styling.HatchOverride | assets/dashExtensions_default.js:66-68 | above 100 the fill is always url(#diagonalHatch); at or below 100 it is the carried-over fill or the colour of an exceeded threshold |
| Styling.NoHatchAtOrBelowThreshold | assets/dashExtensions_default.js:66-68 | a value at or below 100 is never hatched unless the hatch was carried over or is itself in the colour scale |
| Styling.ClassifyMonotone | assets/dashExtensions_default.js:60-64 | a larger value never lands in a smaller bucket, for any order of the thresholds |
| Styling.ClassifyInterval | assets/dashExtensions_default.js:60-64 | with strictly ascending thresholds, a value is in bucket j exactly when classes[j] < x <= classes[j+1], with no upper bound for the last bucket |
| Styling.FillCarriesOver | assets/dashExtensions_default.js:53-70 | a feature that exceeds no threshold and is not hatched shows the fill the previous call left in the shared style |
| PatternRegistry.FindById | assets/dashExtensions_default.js:6 | the lookup returns the first element carrying the id, or none exactly when no element carries it |
| PatternRegistry.CreateSVG | assets/dashExtensions_default.js:5-51 | existing pattern: no element added, others untouched, geometry and path kept, only the rect fill set to the colour (nothing changes without a rect); no pattern: exactly one element appended with id diagonalHatch, a 20x20 userSpaceOnUse tile, rect fill the colour and a gray hatch of width 4 |
| PatternRegistry.CreateSVGRefinesStep | assets/dashExtensions_default.js:5-51 | createSVG implements the two-state machine: Absent becomes Present with the colour; Present has only its fill replaced, if it has a rect |
| PatternRegistry.CreateSVGLastColorWins | assets/dashExtensions_default.js:6-12 | createSVG(a) then createSVG(b) leaves the same page as createSVG(b) alone, on every page |
| PatternRegistry.CreateSVGIdempotent | assets/dashExtensions_default.js:5-51 | calling createSVG(c) twice gives the same page as calling it once |
| PatternRegistry.CreateSVGCount | assets/dashExtensions_default.js:14-50 | the number of diagonalHatch elements becomes 1 when it was 0 and is unchanged otherwise |
| PatternRegistry.CreateSVGSequence | assets/dashExtensions_default.js:5-51 | from a page with at most one pattern, any non-empty run of calls leaves exactly one, filled with the last colour when it has a rect |
| PatternRegistry.ServerDocumentIsCreateBranch | myapp.py:23-41 | the server's create_svg("blue") element (id, units, 20x20 tile, blue rect, gray width-4 hatch path) is exactly the element the client-side create branch builds for "blue" on an empty page |
| Numerals.NatToString | myapp.py:48-52 | the decimal rendering is non-empty, all digits, and has no leading zero |
| Numerals.IntToStringRoundTrip | myapp.py:48-52 | reading back str() of an integer gives the integer |
| Legend.Labels | myapp.py:47-51 | the comprehension yields one label per threshold, the i-th being str(classes[i]) + "+" |
| Legend.Ctg | myapp.py:47-52 | ctg has one label per threshold, in order, the separately appended last one of the same form; an empty threshold list raises IndexError |
| Legend.LabelInjective | myapp.py:47-52 | a label determines its threshold |
| Legend.CtgDistinct | myapp.py:47-52 | strictly ascending thresholds give pairwise distinct labels |
| InfoPanel.GetInfo | myapp.py:12-21 | header first in both branches; a falsy feature gives exactly header and prompt; a feature gives five items (header, bold name, line break, text ending in " people / mi", superscript "2"); a missing "properties", "name" or "density" key raises KeyError naming the first one missing, and a null properties value raises TypeError |
| InfoPanel.InitialPanel | myapp.py:130-136 | the panel shown before any hover is "US Population Density" and "Hoover over a state" |
| Config.ConfigurationInvariant | myapp.py:43-53 | the configured thresholds are strictly ascending, there is one colour per threshold, and the legend has as many labels as colours |
| Config.Example150 | assets/dashExtensions_default.js:60-68 | density 150 falls in bucket 4 (colour #FC4E2A) yet is drawn hatched |
| Config.Example50 | assets/dashExtensions_default.js:60-64 | density 50 falls in bucket 2 (#FEB24C), since the comparison is strict |
| Config.HatchCarriedToUnclassified | assets/dashExtensions_default.js:53-70 | after a feature of density 250, features with no density or density 0 are still drawn hatched |
| Config.LegendLabels | myapp.py:43-52 | the configured legend is 0+, 10+, 20+, 50+, 100+, 200+, 500+, 1000+ |

## Left out

- Dash app construction, the layout, the `index_string` page and the canvas `getContext` patch (myapp.py:137-178): framework and page plumbing with no decision logic.
- The `info_hover` callback (myapp.py:182-184): it only passes the hover data to `get_info`, which is modelled.
- `dl.GeoJSON`, `dl.Map`, `TileLayer` and `dlx.categorical_colorbar`: mapping-library components whose behaviour is not visible here. The colour bar's pairing of labels with colours is stated only as equal lengths.
- The `create_svg` component tree (myapp.py:23-41): it is modelled only as the one pattern element it renders (`ServerDocument`). The hidden wrapping `svg` element with its style attribute is not modelled.
- DOM APIs: `getElementById`, `querySelector`, `createElementNS` and `appendChild` become operations on a sequence of elements. The `svg` and `defs` wrappers, which carry no id, are not kept.
- InfoPanel.GetInfo: the `"{:.3f}"` formatting is a parameter, so only the density text's position and its `" people / mi"` suffix are fixed, not its digits. A non-numeric density, which would make the format raise, is not modelled.
- Styling.Function0: `parseFloat(value) > 100` is modelled as `value > 100`. That is the same for a numeric density. String-valued properties, `null` (which JavaScript compares as 0) and NaN are not modelled.
- The GeoJSON data file and the HTTP serving of assets.
