/**
 The colour bar's category labels `ctg`: one "{c}+" label per threshold, built as a list
 comprehension over `classes[:-1]` with the last threshold's label appended separately.
 */
module Legend {
  import opened Wrappers
  import opened Errors
  import Numerals
  import Styling

  /** The category of one threshold: its decimal rendering followed by a plus sign. */
  function Label(c: int): string {
    Numerals.IntToString(c) + "+"
  }

  /** One category per threshold given, in the same order. */
  function Labels(cs: seq<int>): (r: seq<string>)
    ensures |r| == |cs|
    ensures forall i :: 0 <= i < |cs| ==> r[i] == Label(cs[i])
  {
    if |cs| == 0 then []
    else Labels(cs[..|cs| - 1]) + [Label(cs[|cs| - 1])]
  }

  /** `ctg`: the categories of all thresholds but the last, followed by the last threshold's
      category appended on its own; `classes[-1]` raises IndexError on an empty list. */
  function Ctg(classes: seq<int>): (r: Result<seq<string>, PyError>)
    ensures r.Failure? <==> |classes| == 0
    ensures r.Failure? ==> r.error == IndexError
    ensures r.Success? ==> |r.value| == |classes|
    ensures r.Success? ==> forall i :: 0 <= i < |classes| ==> r.value[i] == Label(classes[i])
  {
    if |classes| == 0 then Failure(IndexError)
    else Success(Labels(classes[..|classes| - 1]) + [Label(classes[|classes| - 1])])
  }

  /** A label determines its threshold. */
  lemma LabelInjective(a: int, b: int)
    ensures Label(a) == Label(b) ==> a == b
  {
    if Label(a) == Label(b) {
      var sa := Numerals.IntToString(a);
      var sb := Numerals.IntToString(b);
      assert sa == Label(a)[..|Label(a)| - 1];
      assert sb == Label(b)[..|Label(b)| - 1];
      Numerals.IntToStringInjective(a, b);
    }
  }

  /** Distinct thresholds give distinct categories, so with the configuration's ascending
      thresholds every colour of the bar gets its own label. */
  lemma CtgDistinct(classes: seq<int>)
    requires Styling.StrictlyAscending(classes) && |classes| > 0
    ensures var labels := Ctg(classes).value;
      forall i, j :: 0 <= i < j < |labels| ==> labels[i] != labels[j]
  {
    var labels := Ctg(classes).value;
    forall i, j | 0 <= i < j < |labels|
      ensures labels[i] != labels[j]
    {
      LabelInjective(classes[i], classes[j]);
    }
  }

}
