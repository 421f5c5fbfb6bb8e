/**
 The `createSVG(color)` helper of the clientside style function: a create-or-update
 registry for the SVG fill pattern with id "diagonalHatch".

 The page is modelled as the sequence of its id-carrying elements in document order
 (`Document`); `getElementById` finds the first element with the id. Of a pattern element
 the model keeps its tile geometry, its first `rect` (what `querySelector("rect")` finds)
 and its hatch `path`. The wrapping `svg` and `defs` elements carry no id and are not kept.
 */
module PatternRegistry {
  import opened Wrappers

  const HatchId: string := "diagonalHatch"
  const PatternUnits: string := "userSpaceOnUse"
  const TileSize: int := 20
  const HatchPathData: string := "M-5,5 l10,-10 M0,20 l20,-20 M15,25 l10,-10"
  const HatchStroke: string := "gray"
  const HatchStrokeWidth: int := 4

  datatype Rect = Rect(width: int, height: int, fill: string)

  datatype Path = Path(d: string, stroke: string, strokeWidth: int)

  datatype Element = Element(
    id: string,
    patternUnits: string,
    width: int,
    height: int,
    rect: Option<Rect>,
    path: Option<Path>)

  type Document = seq<Element>

  /** `getElementById`: the position of the first element carrying `id`. */
  function FindById(doc: Document, id: string): (r: Option<nat>)
    ensures r.Some? ==> r.value < |doc| && doc[r.value].id == id
    ensures r.Some? ==> forall k :: 0 <= k < r.value ==> doc[k].id != id
    ensures r.None? <==> forall k :: 0 <= k < |doc| ==> doc[k].id != id
  {
    if |doc| == 0 then None
    else if doc[0].id == id then Some(0)
    else match FindById(doc[1..], id)
      case Some(k) => Some(k + 1)
      case None => None
  }

  /** How many elements of the page carry `id`. */
  function CountId(doc: Document, id: string): nat {
    if |doc| == 0 then 0
    else CountId(doc[..|doc| - 1], id) + (if doc[|doc| - 1].id == id then 1 else 0)
  }

  /** The pattern element the create branch builds: a 20x20 tile, a background rect
      filled with `color` and a gray hatch path of width 4. */
  function NewPattern(color: string): Element {
    Element(HatchId, PatternUnits, TileSize, TileSize,
            Some(Rect(TileSize, TileSize, color)),
            Some(Path(HatchPathData, HatchStroke, HatchStrokeWidth)))
  }

  /** Sets the fill of the element's first rect; an element without a rect is left as it is. */
  function SetRectFill(e: Element, color: string): Element {
    match e.rect
    case Some(rc) => e.(rect := Some(rc.(fill := color)))
    case None => e
  }

  /** `createSVG(color)`: update the existing pattern's fill, or append a new pattern. */
  function CreateSVG(doc: Document, color: string): (r: Document)
    // update branch: no element is created, only the found element's rect fill changes
    ensures FindById(doc, HatchId).Some? ==>
      var k := FindById(doc, HatchId).value;
      && |r| == |doc|
      && (forall i :: 0 <= i < |doc| && i != k ==> r[i] == doc[i])
      && r[k].id == doc[k].id && r[k].patternUnits == doc[k].patternUnits
      && r[k].width == doc[k].width && r[k].height == doc[k].height
      && r[k].path == doc[k].path
      && (doc[k].rect.None? ==> r[k].rect.None?)
      && (doc[k].rect.Some? ==>
            r[k].rect.Some? && r[k].rect.value.fill == color
            && r[k].rect.value.width == doc[k].rect.value.width
            && r[k].rect.value.height == doc[k].rect.value.height)
    // create branch: exactly one element is appended, the hatch pattern filled with `color`
    ensures FindById(doc, HatchId).None? ==>
      && |r| == |doc| + 1
      && r[..|doc|] == doc
      && r[|doc|].id == HatchId
      && r[|doc|].patternUnits == "userSpaceOnUse"
      && r[|doc|].width == 20 && r[|doc|].height == 20
      && r[|doc|].rect == Some(Rect(20, 20, color))
      && r[|doc|].path.Some? && r[|doc|].path.value.stroke == "gray"
      && r[|doc|].path.value.d == "M-5,5 l10,-10 M0,20 l20,-20 M15,25 l10,-10"
      && r[|doc|].path.value.strokeWidth == 4
  {
    match FindById(doc, HatchId)
    case Some(k) => doc[k := SetRectFill(doc[k], color)]
    case None => doc + [NewPattern(color)]
  }

  /** The two-state view of the registry: no hatch pattern on the page, or one whose
      first rect has the given fill (`None` when it has no rect). */
  datatype RegistryState = Absent | Present(fill: Option<string>)

  function Abstract(doc: Document): RegistryState {
    match FindById(doc, HatchId)
    case None => Absent
    case Some(k) =>
      match doc[k].rect
      case Some(rc) => Present(Some(rc.fill))
      case None => Present(None)
  }

  /** The state machine the registry is meant to be: Absent goes to Present with the
      requested fill; Present only has its fill replaced, if it has a rect at all. */
  function Step(s: RegistryState, color: string): RegistryState {
    match s
    case Absent => Present(Some(color))
    case Present(Some(_)) => Present(Some(color))
    case Present(None) => Present(None)
  }

  lemma FindAppended(doc: Document, e: Element, id: string)
    ensures FindById(doc + [e], id) ==
      if FindById(doc, id).Some? then FindById(doc, id)
      else if e.id == id then Some(|doc|) else None
  {
    var d' := doc + [e];
    assert forall k :: 0 <= k < |doc| ==> d'[k] == doc[k];
    match FindById(doc, id)
    case Some(j) =>
      var r := FindById(d', id);
      assert r.Some? && r.value <= j;
    case None =>
      if e.id == id {
        assert d'[|doc|].id == id;
      }
  }

  lemma FindUpdated(doc: Document, k: nat, e: Element, id: string)
    requires k < |doc| && e.id == doc[k].id
    ensures FindById(doc[k := e], id) == FindById(doc, id)
  {
    var d' := doc[k := e];
    assert forall i :: 0 <= i < |doc| ==> d'[i].id == doc[i].id;
  }

  /** `createSVG` refines the two-state machine `Step`. */
  lemma CreateSVGRefinesStep(doc: Document, color: string)
    ensures Abstract(CreateSVG(doc, color)) == Step(Abstract(doc), color)
  {
    match FindById(doc, HatchId)
    case Some(k) =>
      FindUpdated(doc, k, SetRectFill(doc[k], color), HatchId);
    case None =>
      FindAppended(doc, NewPattern(color), HatchId);
  }

  /** A second call with another colour overwrites the first colour and creates nothing. */
  lemma CreateSVGLastColorWins(doc: Document, a: string, b: string)
    ensures CreateSVG(CreateSVG(doc, a), b) == CreateSVG(doc, b)
  {
    match FindById(doc, HatchId)
    case Some(k) =>
      FindUpdated(doc, k, SetRectFill(doc[k], a), HatchId);
    case None =>
      FindAppended(doc, NewPattern(a), HatchId);
      assert (doc + [NewPattern(a)])[|doc| := NewPattern(b)] == doc + [NewPattern(b)];
  }

  /** Calling `createSVG(c)` twice leaves the page as one call does. */
  lemma CreateSVGIdempotent(doc: Document, color: string)
    ensures CreateSVG(CreateSVG(doc, color), color) == CreateSVG(doc, color)
  {
    CreateSVGLastColorWins(doc, color, color);
  }

  lemma {:induction false} CountZeroIffAbsent(doc: Document, id: string)
    ensures CountId(doc, id) == 0 <==> FindById(doc, id).None?
    decreases |doc|
  {
    if |doc| > 0 {
      var init := doc[..|doc| - 1];
      CountZeroIffAbsent(init, id);
      assert forall k :: 0 <= k < |init| ==> init[k] == doc[k];
    }
  }

  lemma {:induction false} CountUpdated(doc: Document, k: nat, e: Element, id: string)
    requires k < |doc| && e.id == doc[k].id
    ensures CountId(doc[k := e], id) == CountId(doc, id)
    decreases |doc|
  {
    var d' := doc[k := e];
    if k == |doc| - 1 {
      assert d'[..|d'| - 1] == doc[..|doc| - 1];
    } else {
      CountUpdated(doc[..|doc| - 1], k, e, id);
      assert d'[..|d'| - 1] == doc[..|doc| - 1][k := e];
    }
  }

  /** `createSVG` never duplicates the pattern: it adds one exactly when there was none. */
  lemma CreateSVGCount(doc: Document, color: string)
    ensures CountId(CreateSVG(doc, color), HatchId) ==
      if CountId(doc, HatchId) == 0 then 1 else CountId(doc, HatchId)
  {
    CountZeroIffAbsent(doc, HatchId);
    match FindById(doc, HatchId)
    case Some(k) =>
      CountUpdated(doc, k, SetRectFill(doc[k], color), HatchId);
    case None =>
      var d' := doc + [NewPattern(color)];
      assert d'[..|d'| - 1] == doc;
  }

  /** Starting from a page with at most one hatch pattern, any sequence of calls leaves
      exactly one, filled with the last colour requested (when it has a rect). */
  lemma {:induction false} CreateSVGSequence(doc: Document, colors: seq<string>)
    requires CountId(doc, HatchId) <= 1
    requires |colors| >= 1
    ensures var r := CreateAll(doc, colors);
      && CountId(r, HatchId) == 1
      && (Abstract(doc) != Present(None) ==> Abstract(r) == Present(Some(colors[|colors| - 1])))
    decreases |colors|
  {
    var last := colors[|colors| - 1];
    var init := colors[..|colors| - 1];
    var before := CreateAll(doc, init);
    if |init| == 0 {
      assert before == doc;
    } else {
      CreateSVGSequence(doc, init);
    }
    CreateSVGCount(before, last);
    CreateSVGRefinesStep(before, last);
  }

  /** `createSVG` applied for each colour in turn. */
  function CreateAll(doc: Document, colors: seq<string>): Document {
    if |colors| == 0 then doc
    else CreateSVG(CreateAll(doc, colors[..|colors| - 1]), colors[|colors| - 1])
  }

  /** The pattern element the server page renders into `#svg-dashed-mask` with
      `create_svg("blue")`, written out from its own attributes. */
  const ServerDocument: Document :=
    [Element("diagonalHatch", "userSpaceOnUse", 20, 20,
             Some(Rect(20, 20, "blue")),
             Some(Path("M-5,5 l10,-10 M0,20 l20,-20 M15,25 l10,-10", "gray", 4)))]

  /** The server-side and client-side constructions of the pattern agree: the page starts
      in the state a first client-side `createSVG("blue")` would produce. */
  lemma ServerDocumentIsCreateBranch()
    ensures ServerDocument == CreateSVG([], "blue")
    ensures Abstract(ServerDocument) == Present(Some("blue"))
  {
  }
}
