/**
 The map's configuration: thresholds, colour scale, base style and the hideout handed to
 the GeoJSON layer, with the configuration invariant and worked examples of the style
 function and the legend on it.
 */
module Config {
  import opened Wrappers
  import Styling
  import Legend

  const Classes: seq<int> := [0, 10, 20, 50, 100, 200, 500, 1000]

  const Colorscale: seq<string> :=
    ["#FFEDA0", "#FED976", "#FEB24C", "#FD8D3C", "#FC4E2A", "#E31A1C", "#BD0026", "#800026"]

  /** Stroke weight 2, opacity 1, white dashed outline, fill opacity 0.7, and no fill yet. */
  const BaseStyle: Styling.Style := Styling.Style(2.0, 1.0, "white", "3", 0.7, None)

  const ColorProp: string := "density"

  const InitialHideout: Styling.Hideout := Styling.Hideout(Classes, Colorscale, BaseStyle, ColorProp)

  /** Thresholds strictly ascending, one colour per threshold, so the legend labels pair
      one-to-one with the colours of the bar. */
  lemma ConfigurationInvariant()
    ensures Styling.StrictlyAscending(Classes)
    ensures |Colorscale| == |Classes|
    ensures Legend.Ctg(Classes).Success? && |Legend.Ctg(Classes).value| == |Colorscale|
  {
  }

  /** Density 150: bucket 4 (threshold 100, colour "#FC4E2A"), but the final fill is the
      hatch pattern because 150 is above 100. */
  lemma Example150()
    ensures Styling.Classify(Some(150.0), Classes) == Some(4)
    ensures Colorscale[4] == "#FC4E2A"
    ensures Styling.ResolveStyle(Some(150.0), InitialHideout).fillColor == Some("url(#diagonalHatch)")
  {
    Styling.ClassifyInterval(150.0, Classes, 4);
    assert Styling.HatchFill == "url(#diagonalHatch)";
  }

  /** Density 50: bucket 2 (threshold 20), since 50 does not strictly exceed 50. */
  lemma Example50()
    ensures Styling.Classify(Some(50.0), Classes) == Some(2)
    ensures Styling.ResolveStyle(Some(50.0), InitialHideout).fillColor == Some("#FEB24C")
  {
    Styling.ClassifyInterval(50.0, Classes, 2);
    Styling.LastExceededThresholdWins(Some(50.0), InitialHideout, 2);
  }

  /** The carried-over hatch: after a feature of density 250, a feature with no density
      property is still drawn with the hatch, and one of density 0 too. */
  lemma HatchCarriedToUnclassified()
    ensures var h := Styling.Redraw(InitialHideout, map["density" := 250.0]);
      && h.style.fillColor == Some("url(#diagonalHatch)")
      && Styling.Redraw(h, map[]).style.fillColor == Some("url(#diagonalHatch)")
      && Styling.Redraw(h, map["density" := 0.0]).style.fillColor == Some("url(#diagonalHatch)")
  {
    var h := Styling.Redraw(InitialHideout, map["density" := 250.0]);
    assert Styling.HatchFill == "url(#diagonalHatch)";
    Styling.MissingValueKeepsStyle(h, map[]);
    Styling.NoThresholdKeepsPriorFill(Some(0.0), h);
  }

  /** The legend categories of this configuration. */
  lemma LegendLabels()
    ensures Legend.Ctg(Classes) ==
      Success(["0+", "10+", "20+", "50+", "100+", "200+", "500+", "1000+"])
  {
    assert Legend.Label(0) == "0+";
    assert Legend.Label(10) == "10+";
    assert Legend.Label(20) == "20+";
    assert Legend.Label(50) == "50+";
    assert Legend.Label(100) == "100+";
    assert Legend.Label(200) == "200+";
    assert Legend.Label(500) == "500+";
    assert Legend.Label(1000) == "1000+";
    var labels := Legend.Ctg(Classes).value;
    assert labels[0] == Legend.Label(Classes[0]) && labels[1] == Legend.Label(Classes[1]);
    assert labels[2] == Legend.Label(Classes[2]) && labels[3] == Legend.Label(Classes[3]);
    assert labels[4] == Legend.Label(Classes[4]) && labels[5] == Legend.Label(Classes[5]);
    assert labels[6] == Legend.Label(Classes[6]) && labels[7] == Legend.Label(Classes[7]);
    assert labels == ["0+", "10+", "20+", "50+", "100+", "200+", "500+", "1000+"];
  }
}
