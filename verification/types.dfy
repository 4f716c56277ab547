/** The element and design records of src/types/index.ts. */
module Types {
  import opened Wrappers

  /** `ELEMENT_TYPES`: the closed set of element kinds. */
  datatype ElementType = Text | Button | Input | Svg

  /** The string tag the source stores in an element's `type` field. */
  function TypeName(t: ElementType): string {
    match t
    case Text => "text"
    case Button => "button"
    case Input => "input"
    case Svg => "svg"
  }

  /** Reads a type tag; any string outside `ELEMENT_TYPES` is unknown. */
  function ParseType(s: string): (r: Option<ElementType>)
    ensures r.Some? <==> s in {"text", "button", "input", "svg"}
    ensures r.Some? ==> TypeName(r.value) == s
  {
    if s == "text" then Some(Text)
    else if s == "button" then Some(Button)
    else if s == "input" then Some(Input)
    else if s == "svg" then Some(Svg)
    else None
  }

  /** Every kind's tag reads back as that kind, so the tags are distinct. */
  lemma ParseTypeName(t: ElementType)
    ensures ParseType(TypeName(t)) == Some(t)
  {
    match t
    case Text =>
    case Button =>
    case Input =>
    case Svg =>
  }

  /** `SVG_TYPES`: the graphic shapes. */
  datatype SvgType = Star | Heart

  function SvgTypeName(t: SvgType): string {
    match t
    case Star => "star"
    case Heart => "heart"
  }

  /** The kind-specific optional fields; the constructor is the element's kind,
      so a variant carries exactly its own interface's fields. */
  datatype Props =
    | TextProps(fontSize: Option<real>, color: Option<string>)
    | ButtonProps(fontSize: Option<real>, color: Option<string>,
                  backgroundColor: Option<string>, borderRadius: Option<real>)
    | InputProps(fontSize: Option<real>, color: Option<string>,
                 backgroundColor: Option<string>, borderRadius: Option<real>)
    | SvgProps(color: Option<string>, svgType: Option<SvgType>, svgSize: Option<real>)

  /** `PopupElement`: the fields of `BasePopupElement` plus the kind's own fields. */
  datatype Element = Element(
    id: string,
    content: string,
    x: real,
    y: real,
    width: Option<real>,
    height: Option<real>,
    props: Props)
  {
    /** The element's `type` field. */
    function Type(): (t: ElementType)
      ensures t == Text <==> props.TextProps?
      ensures t == Button <==> props.ButtonProps?
      ensures t == Input <==> props.InputProps?
      ensures t == Svg <==> props.SvgProps?
    {
      match props
      case TextProps(_, _) => Text
      case ButtonProps(_, _, _, _) => Button
      case InputProps(_, _, _, _) => Input
      case SvgProps(_, _, _) => Svg
    }
  }

  /** `Partial<PopupElement>`: each present field overrides the element's. */
  datatype Patch = Patch(
    id: Option<string>,
    content: Option<string>,
    x: Option<real>,
    y: Option<real>,
    width: Option<real>,
    height: Option<real>,
    fontSize: Option<real>,
    color: Option<string>,
    backgroundColor: Option<string>,
    borderRadius: Option<real>,
    svgType: Option<SvgType>,
    svgSize: Option<real>)

  /** The patch with no fields. */
  const EmptyPatch := Patch(None, None, None, None, None, None, None, None, None, None, None, None)

  /** The patch `{ x, y }` that a finished drag commits. */
  function PositionPatch(x: real, y: real): Patch {
    EmptyPatch.(x := Some(x), y := Some(y))
  }

  /** `PopupDesign`: canvas settings and the ordered (bottom-to-top) element list. */
  datatype Design = Design(
    id: string,
    name: string,
    backgroundColor: string,
    elements: seq<Element>,
    width: real,
    height: real,
    createdAt: Option<string>,
    updatedAt: Option<string>)
}
