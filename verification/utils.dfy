/** Class-name joining and element render styles (src/lib/utils.ts). */
module Utils {
  import opened Wrappers
  import opened Types
  import Constants

  /** `Math.max` and `Math.min` on two numbers. */
  function Max(a: real, b: real): (r: real)
    ensures r >= a && r >= b && (r == a || r == b)
  {
    if a >= b then a else b
  }

  function Min(a: real, b: real): (r: real)
    ensures r <= a && r <= b && (r == a || r == b)
  {
    if a <= b then a else b
  }

  // ---------------------------------------------------------------------------
  // mergeClasses
  // ---------------------------------------------------------------------------

  /** `classes.filter(Boolean)`: drops undefined and empty names, keeping order. */
  function KeptClasses(classes: seq<Option<string>>): (r: seq<string>)
    ensures |r| <= |classes|
    ensures forall j :: 0 <= j < |r| ==> r[j] != ""
    ensures forall c :: c in r <==> c != "" && Some(c) in classes
  {
    if |classes| == 0 then []
    else if classes[0].None? || classes[0].value == "" then KeptClasses(classes[1..])
    else [classes[0].value] + KeptClasses(classes[1..])
  }

  /** `parts.join(' ')`. */
  function JoinWithSpace(parts: seq<string>): string {
    if |parts| == 0 then ""
    else if |parts| == 1 then parts[0]
    else parts[0] + " " + JoinWithSpace(parts[1..])
  }

  /** `mergeClasses`: the non-empty class names, in order, separated by one space. */
  function MergeClasses(classes: seq<Option<string>>): (r: string)
    ensures r == "" <==> KeptClasses(classes) == []
  {
    var kept := KeptClasses(classes);
    JoinLengthPositive(kept);
    JoinWithSpace(kept)
  }

  lemma {:induction false} JoinLengthPositive(parts: seq<string>)
    requires forall j :: 0 <= j < |parts| ==> parts[j] != ""
    ensures |parts| > 0 ==> |JoinWithSpace(parts)| > 0
  {
    if |parts| > 1 {
      assert |parts[0]| > 0;
    }
  }

  /** `s.split(' ')`: the pieces between single spaces; "" splits to [""]. */
  function SplitOnSpace(s: string): (r: seq<string>)
    ensures |r| >= 1
  {
    if |s| == 0 then [""]
    else
      var rest := SplitOnSpace(s[1..]);
      if s[0] == ' ' then [""] + rest
      else [[s[0]] + rest[0]] + rest[1..]
  }

  lemma {:induction false} SplitSpaceFree(a: string)
    requires ' ' !in a
    ensures SplitOnSpace(a) == [a]
  {
    if |a| > 0 {
      SplitSpaceFree(a[1..]);
      assert [a[0]] + a[1..] == a;
    }
  }

  lemma {:induction false} SplitAtFirstSpace(a: string, b: string)
    requires ' ' !in a
    ensures SplitOnSpace(a + " " + b) == [a] + SplitOnSpace(b)
  {
    if |a| == 0 {
      assert a + " " + b == [' '] + b;
      assert (a + " " + b)[1..] == b;
    } else {
      var s := a + " " + b;
      assert s[1..] == a[1..] + " " + b;
      SplitAtFirstSpace(a[1..], b);
      assert [a[0]] + a[1..] == a;
    }
  }

  /** Splitting the merged class string on spaces gives back the kept class
      names, provided none of them contains a space itself. */
  lemma {:induction false} SplitJoinRoundTrip(parts: seq<string>)
    requires |parts| > 0
    requires forall j :: 0 <= j < |parts| ==> ' ' !in parts[j]
    ensures SplitOnSpace(JoinWithSpace(parts)) == parts
  {
    if |parts| == 1 {
      SplitSpaceFree(parts[0]);
    } else {
      SplitJoinRoundTrip(parts[1..]);
      SplitAtFirstSpace(parts[0], JoinWithSpace(parts[1..]));
      assert [parts[0]] + parts[1..] == parts;
    }
  }

  lemma MergeClassesRoundTrip(classes: seq<Option<string>>)
    requires forall j :: 0 <= j < |classes| ==> classes[j].Some? ==> ' ' !in classes[j].value
    ensures KeptClasses(classes) != [] ==> SplitOnSpace(MergeClasses(classes)) == KeptClasses(classes)
  {
    var kept := KeptClasses(classes);
    if kept != [] {
      forall j | 0 <= j < |kept| ensures ' ' !in kept[j] {
        assert kept[j] in kept;
      }
      SplitJoinRoundTrip(kept);
    }
  }

  /** Joining two non-empty lists is joining each and putting one space between. */
  lemma {:induction false} JoinAppend(a: seq<string>, b: seq<string>)
    requires a != [] && b != []
    ensures JoinWithSpace(a + b) == JoinWithSpace(a) + " " + JoinWithSpace(b)
    decreases |a|
  {
    if |a| == 1 {
      assert (a + b)[1..] == b;
    } else {
      JoinAppend(a[1..], b);
      assert (a + b)[1..] == a[1..] + b;
    }
  }

  /** Merging two argument lists is merging each and joining the two results
      with one space, whatever the names contain; an argument that keeps no
      name contributes nothing. */
  lemma MergeClassesAppend(a: seq<Option<string>>, b: seq<Option<string>>)
    ensures KeptClasses(a) != [] && KeptClasses(b) != [] ==>
      MergeClasses(a + b) == MergeClasses(a) + " " + MergeClasses(b)
    ensures KeptClasses(a) == [] ==> MergeClasses(a + b) == MergeClasses(b)
    ensures KeptClasses(b) == [] ==> MergeClasses(a + b) == MergeClasses(a)
  {
    KeptClassesAppend(a, b);
    if KeptClasses(a) != [] && KeptClasses(b) != [] {
      JoinAppend(KeptClasses(a), KeptClasses(b));
    } else if KeptClasses(a) == [] {
      assert KeptClasses(a + b) == KeptClasses(b);
    } else {
      assert KeptClasses(a + b) == KeptClasses(a);
    }
  }

  /** One non-empty argument merges to itself, spaces and all; an absent or
      empty one merges to "". */
  lemma MergeClassesSingle(c: Option<string>)
    ensures c.Some? && c.value != "" ==> MergeClasses([c]) == c.value
    ensures c.None? || c.value == "" ==> MergeClasses([c]) == ""
  {
    assert [c][1..] == [];
  }

  /** Filtering distributes over concatenation, so order is kept. */
  lemma {:induction false} KeptClassesAppend(a: seq<Option<string>>, b: seq<Option<string>>)
    ensures KeptClasses(a + b) == KeptClasses(a) + KeptClasses(b)
    decreases |a|
  {
    if |a| == 0 {
      assert a + b == b;
    } else {
      assert (a + b)[1..] == a[1..] + b;
      KeptClassesAppend(a[1..], b);
    }
  }

  // ---------------------------------------------------------------------------
  // createElementStyle
  // ---------------------------------------------------------------------------

  /** The CSS `position` values of `ElementStyle`. */
  datatype Position = Absolute | Relative | Fixed | Static | Sticky

  /** A CSS length: a pixel count (the source formats it as `"<n>px"`) or `auto`. */
  datatype Length = Px(px: real) | Auto

  /** The render style; an absent key is `None`. */
  datatype Style = Style(
    position: Position,
    left: real,
    top: real,
    zIndex: int,
    width: Option<Length>,
    height: Option<Length>,
    fontSize: Option<real>,
    color: Option<string>,
    backgroundColor: Option<string>,
    borderRadius: Option<real>)

  /** A logical length converted to pixels at zoom `scale`. */
  function Scaled(v: real, scale: real): real {
    v * scale
  }

  /** `value || fallback` on a number: absent and 0 take the fallback. */
  function NumberOr(value: Option<real>, fallback: real): (r: real)
    ensures value.Some? && value.value != 0.0 ==> r == value.value
    ensures value.None? || value.value == 0.0 ==> r == fallback
  {
    if value.Some? && value.value != 0.0 then value.value else fallback
  }

  /** `value || fallback` on a string: absent and "" take the fallback. */
  function StringOr(value: Option<string>, fallback: string): (r: string)
    ensures value.Some? && value.value != "" ==> r == value.value
    ensures value.None? || value.value == "" ==> r == fallback
  {
    if value.Some? && value.value != "" then value.value else fallback
  }

  /** `value ? value * scale px : 'auto'`. */
  function LengthOrAuto(value: Option<real>, scale: real): (r: Length)
    ensures r.Auto? <==> value.None? || value.value == 0.0
    ensures r.Px? ==> r.px == Scaled(value.value, scale)
  {
    if value.Some? && value.value != 0.0 then Px(Scaled(value.value, scale)) else Auto
  }

  /** `createElementStyle`: every numeric value is the element's value (or
      its default) times `scale`, and each kind gets only its own keys. */
  function CreateElementStyle(e: Element, scale: real := 1.0): (r: Style)
    ensures r.position == Absolute && r.zIndex == 1
    ensures r.left == Scaled(e.x, scale) && r.top == Scaled(e.y, scale)
    ensures e.props.SvgProps? ==>
      && r.width == r.height == Some(Px(Scaled(NumberOr(e.props.svgSize, Constants.SvgSize), scale)))
      && r.color == Some(StringOr(e.props.color, "#FBFF37"))
      && r.fontSize.None? && r.backgroundColor.None? && r.borderRadius.None?
    ensures e.props.TextProps? ==>
      && r.width == Some(LengthOrAuto(e.width, scale)) && r.height.None?
      && r.fontSize == Some(Scaled(NumberOr(e.props.fontSize, Constants.FontSize), scale))
      && r.color == Some(StringOr(e.props.color, "#000000"))
      && r.backgroundColor.None? && r.borderRadius.None?
    ensures e.props.ButtonProps? || e.props.InputProps? ==>
      && r.width == Some(LengthOrAuto(e.width, scale))
      && r.height == Some(LengthOrAuto(e.height, scale))
      && r.fontSize == Some(Scaled(NumberOr(e.props.fontSize, Constants.FontSize), scale))
      && r.color == Some(StringOr(e.props.color, "#000000"))
      && r.backgroundColor == Some(StringOr(e.props.backgroundColor, "transparent"))
      && r.borderRadius == Some(Scaled(NumberOr(e.props.borderRadius, 0.0), scale))
  {
    // `element.x || 0` is `element.x` for every real x (only NaN differs)
    var base := Style(Absolute, Scaled(e.x, scale), Scaled(e.y, scale), 1, None, None, None, None, None, None);
    match e.props
    case SvgProps(_, _, _) =>
      var side := Scaled(NumberOr(e.props.svgSize, Constants.SvgSize), scale);
      base.(width := Some(Px(side)), height := Some(Px(side)),
            color := Some(StringOr(e.props.color, "#FBFF37")))
    case TextProps(_, _) =>
      base.(width := Some(LengthOrAuto(e.width, scale)),
            fontSize := Some(Scaled(NumberOr(e.props.fontSize, Constants.FontSize), scale)),
            color := Some(StringOr(e.props.color, "#000000")))
    case _ =>
      // `button` and `input` share one arm
      base.(width := Some(LengthOrAuto(e.width, scale)),
            height := Some(LengthOrAuto(e.height, scale)),
            fontSize := Some(Scaled(NumberOr(e.props.fontSize, Constants.FontSize), scale)),
            color := Some(StringOr(e.props.color, "#000000")),
            backgroundColor := Some(StringOr(e.props.backgroundColor, "transparent")),
            borderRadius := Some(Scaled(NumberOr(e.props.borderRadius, 0.0), scale)))
  }

  /** Multiplies a length by `k`; `auto` stays `auto`. */
  function ScaleLength(l: Length, k: real): Length {
    match l
    case Px(v) => Px(Scaled(v, k))
    case Auto => Auto
  }

  function ScaleLengthOption(l: Option<Length>, k: real): Option<Length> {
    match l
    case Some(v) => Some(ScaleLength(v, k))
    case None => None
  }

  function ScaleRealOption(v: Option<real>, k: real): Option<real> {
    match v
    case Some(x) => Some(Scaled(x, k))
    case None => None
  }

  /** Every numeric style value at scale `scale` is that at scale 1 times
      `scale`, and the non-numeric keys do not depend on the scale. */
  lemma StyleScalesLinearly(e: Element, scale: real)
    ensures CreateElementStyle(e, scale).left == Scaled(CreateElementStyle(e, 1.0).left, scale)
    ensures CreateElementStyle(e, scale).top == Scaled(CreateElementStyle(e, 1.0).top, scale)
    ensures CreateElementStyle(e, scale).width == ScaleLengthOption(CreateElementStyle(e, 1.0).width, scale)
    ensures CreateElementStyle(e, scale).height == ScaleLengthOption(CreateElementStyle(e, 1.0).height, scale)
    ensures CreateElementStyle(e, scale).fontSize == ScaleRealOption(CreateElementStyle(e, 1.0).fontSize, scale)
    ensures CreateElementStyle(e, scale).borderRadius == ScaleRealOption(CreateElementStyle(e, 1.0).borderRadius, scale)
    ensures CreateElementStyle(e, scale).(left := 0.0, top := 0.0, width := None, height := None, fontSize := None, borderRadius := None)
         == CreateElementStyle(e, 1.0).(left := 0.0, top := 0.0, width := None, height := None, fontSize := None, borderRadius := None)
  {
    UnitFactor(e.x, scale);
    UnitFactor(e.y, scale);
    if !e.props.SvgProps? {
      UnitFactor(NumberOr(e.props.fontSize, Constants.FontSize), scale);
      LengthScales(e.width, scale);
    }
    match e.props
    case SvgProps(_, _, _) =>
      UnitFactor(NumberOr(e.props.svgSize, Constants.SvgSize), scale);
    case TextProps(_, _) =>
    case _ =>
      LengthScales(e.height, scale);
      UnitFactor(NumberOr(e.props.borderRadius, 0.0), scale);
  }

  lemma UnitFactor(v: real, k: real)
    ensures Scaled(Scaled(v, 1.0), k) == Scaled(v, k)
  {
  }

  lemma LengthScales(v: Option<real>, k: real)
    ensures LengthOrAuto(v, k) == ScaleLength(LengthOrAuto(v, 1.0), k)
  {
    if v.Some? && v.value != 0.0 {
      UnitFactor(v.value, k);
    }
  }

  /** The rendered origin divided by the scale is the element's logical
      position: the inverse the drag code relies on. */
  lemma StyleOriginRoundTrip(e: Element, scale: real)
    requires scale != 0.0
    ensures CreateElementStyle(e, scale).left / scale == e.x
    ensures CreateElementStyle(e, scale).top / scale == e.y
  {
  }

  /** At the default scale each numeric value is the element's own value,
      or the default when the value is absent or 0. */
  lemma StyleAtUnitScale(e: Element)
    ensures var s := CreateElementStyle(e);
      && s.left == e.x && s.top == e.y
      && (e.props.SvgProps? ==> s.width == Some(Px(NumberOr(e.props.svgSize, 32.0))))
      && (!e.props.SvgProps? ==> s.fontSize == Some(NumberOr(e.props.fontSize, 16.0)))
      && (!e.props.SvgProps? ==> s.width == Some(if e.width.Some? && e.width.value != 0.0 then Px(e.width.value) else Auto))
      && (e.props.SvgProps? ==> s.height == Some(Px(NumberOr(e.props.svgSize, 32.0))))
      && ((e.props.ButtonProps? || e.props.InputProps?) ==>
            && s.height == Some(if e.height.Some? && e.height.value != 0.0 then Px(e.height.value) else Auto)
            && s.borderRadius == Some(NumberOr(e.props.borderRadius, 0.0)))
  {
  }
}
