/** New elements with per-kind defaults, centred on the canvas
    (src/lib/elementFactory.ts). */
module ElementFactory {
  import opened Wrappers
  import opened Types
  import Constants
  import opened Utils

  /** A width and height in logical units. */
  datatype Dimensions = Dimensions(width: real, height: real)

  /** `getElementDimensions`: the box a new element of tag `tag` is laid out with. */
  function ElementDimensions(tag: string): (d: Dimensions)
    ensures tag == "text" ==> d == Dimensions(200.0, 20.0)
    ensures tag == "button" ==> d == Dimensions(120.0, 40.0)
    ensures tag == "input" ==> d == Dimensions(200.0, 40.0)
    ensures tag == "svg" ==> d == Dimensions(32.0, 32.0)
    ensures ParseType(tag).None? ==> d == Dimensions(120.0, 30.0)
  {
    if tag == "text" then Dimensions(Constants.TextWidth, 20.0)
    else if tag == "button" then Dimensions(Constants.ElementWidth, Constants.ElementHeight)
    else if tag == "input" then Dimensions(Constants.TextWidth, Constants.ElementHeight)
    else if tag == "svg" then Dimensions(Constants.SvgSize, Constants.SvgSize)
    else Dimensions(Constants.ElementWidth, 30.0)
  }

  /** `getDefaultContent`. */
  function DefaultContent(tag: string): (c: string)
    ensures tag == "text" ==> c == "New Text"
    ensures tag == "button" ==> c == "New Button"
    ensures tag == "input" ==> c == "Email"
    ensures tag == "svg" ==> c == SvgTypeName(Star)
    ensures ParseType(tag).None? ==> c == "New Element"
  {
    if tag == "text" then "New Text"
    else if tag == "button" then "New Button"
    else if tag == "input" then "Email"
    else if tag == "svg" then SvgTypeName(Star)
    else "New Element"
  }

  /** One coordinate of a new element: centred on a canvas side of length
      `side`, but never nearer than the margin to the start edge. */
  function CentredCoordinate(side: real, size: real): (v: real)
    ensures v >= Constants.MinElementSize
    ensures side >= size + 2.0 * Constants.MinElementSize ==>
      v == side / 2.0 - size / 2.0 && v + size + Constants.MinElementSize <= side
    ensures side < size + 2.0 * Constants.MinElementSize ==> v == Constants.MinElementSize
  {
    Max(Constants.MinElementSize,
        Min(side - size - Constants.MinElementSize, side / 2.0 - size / 2.0))
  }

  /** The position `createElement` gives an element of tag `tag`. */
  function InitialPosition(tag: string, canvasWidth: real, canvasHeight: real): (real, real) {
    var d := ElementDimensions(tag);
    (CentredCoordinate(canvasWidth, d.width), CentredCoordinate(canvasHeight, d.height))
  }

  /** The kind-specific fields and stored size of a new element. */
  function DefaultFields(t: ElementType): (Option<real>, Option<real>, Props) {
    match t
    case Text =>
      (Some(Constants.TextWidth), None, TextProps(Some(Constants.FontSize), Some("#000000")))
    case Button =>
      (None, Some(Constants.ElementHeight),
       ButtonProps(Some(Constants.FontSize), Some("#FFFFFF"), Some("#2D3748"), None))
    case Input =>
      (Some(Constants.TextWidth), Some(Constants.ElementHeight),
       InputProps(Some(14.0), Some("#000000"), Some("#FFFFFF"), None))
    case Svg =>
      (None, None, SvgProps(Some("#FFD700"), Some(Star), Some(Constants.SvgSize)))
  }

  /** `createElement`, with the generated id passed in: an element of the
      requested kind with default content, fields and centred position, or
      an error for an unknown tag. */
  function CreateElement(tag: string, canvasWidth: real, canvasHeight: real, id: string): (r: Result<Element, string>)
    ensures r.Err? <==> ParseType(tag).None?
    ensures r.Err? ==> r.error == "Unknown element type: " + tag
    ensures r.Ok? ==> TypeName(r.value.Type()) == tag
    ensures r.Ok? ==> r.value.id == id && r.value.content == DefaultContent(tag)
    ensures r.Ok? ==> (r.value.x, r.value.y) == InitialPosition(tag, canvasWidth, canvasHeight)
    ensures r.Ok? ==> r.value.x >= 10.0 && r.value.y >= 10.0
    ensures tag == "text" ==>
      (r.Ok? && r.value.width == Some(200.0) && r.value.height.None?
       && r.value.props == TextProps(Some(16.0), Some("#000000")))
    ensures tag == "button" ==>
      (r.Ok? && r.value.width.None? && r.value.height == Some(40.0)
       && r.value.props == ButtonProps(Some(16.0), Some("#FFFFFF"), Some("#2D3748"), None))
    ensures tag == "input" ==>
      (r.Ok? && r.value.width == Some(200.0) && r.value.height == Some(40.0)
       && r.value.props == InputProps(Some(14.0), Some("#000000"), Some("#FFFFFF"), None))
    ensures tag == "svg" ==>
      (r.Ok? && r.value.width.None? && r.value.height.None?
       && r.value.props == SvgProps(Some("#FFD700"), Some(Star), Some(32.0)))
  {
    match ParseType(tag)
    case None => Err("Unknown element type: " + tag)
    case Some(t) =>
      var pos := InitialPosition(tag, canvasWidth, canvasHeight);
      var (w, h, props) := DefaultFields(t);
      Ok(Element(id, DefaultContent(tag), pos.0, pos.1, w, h, props))
  }

  /** A new element whose layout box fits with the margin sits exactly
      centred, with at least the margin on every side. */
  lemma CreatedElementCentred(tag: string, canvasWidth: real, canvasHeight: real, id: string)
    requires ParseType(tag).Some?
    requires canvasWidth >= ElementDimensions(tag).width + 20.0
    requires canvasHeight >= ElementDimensions(tag).height + 20.0
    ensures var e := CreateElement(tag, canvasWidth, canvasHeight, id).value;
      var d := ElementDimensions(tag);
      && e.x - 10.0 >= 0.0 && e.x + d.width + 10.0 <= canvasWidth
      && e.y - 10.0 >= 0.0 && e.y + d.height + 10.0 <= canvasHeight
      // the gap before the box equals the gap after it
      && e.x == canvasWidth - (e.x + d.width)
      && e.y == canvasHeight - (e.y + d.height)
  {
  }

  /** On a default 500 x 500 canvas a new button lands at (190, 230). */
  lemma ButtonOnDefaultCanvas(id: string)
    ensures var r := CreateElement("button", Constants.CanvasWidth, Constants.CanvasHeight, id);
      r.Ok? && r.value.x == 190.0 && r.value.y == 230.0
  {
  }
}
