/** The design store of src/composables/useDesignState.ts: one design and
    at most one selected element id, changed only through these operations. */
module DesignState {
  import opened Wrappers
  import opened Types

  /** The store's state: the design and `selectedElementId`. */
  datatype Store = Store(design: Design, selectedId: Option<string>)

  /** A store callback invocation (`onElementAdd`, `onElementUpdate`,
      `onElementDelete`, `onElementSelect`), as other components emit them. */
  datatype Command =
    | Add(element: Element)
    | Update(id: string, patch: Patch)
    | Delete(id: string)
    | Select(selection: Option<string>)

  /** The notification shown after a confirmed reset. */
  datatype Toast = Success(message: string) | Error(message: string)

  /** JavaScript truthiness of a `string | null`: present and non-empty. */
  predicate Truthy(id: Option<string>) {
    id.Some? && id.value != ""
  }

  /** `elements.findIndex(el => el.id === id)`: the first index holding `id`, or -1. */
  function FindIndex(els: seq<Element>, id: string): (r: int)
    ensures -1 <= r < |els|
    ensures r == -1 <==> forall j :: 0 <= j < |els| ==> els[j].id != id
    ensures r >= 0 ==> els[r].id == id && forall j :: 0 <= j < r ==> els[j].id != id
  {
    if |els| == 0 then -1
    else if els[0].id == id then 0
    else
      var k := FindIndex(els[1..], id);
      if k == -1 then -1 else k + 1
  }

  /** `selectedElement`: null for a falsy selection, otherwise the first element
      carrying the selected id, or null when that id is stale. */
  function SelectedElement(s: Store): (r: Option<Element>)
    ensures r.None? <==>
      !Truthy(s.selectedId) || forall j :: 0 <= j < |s.design.elements| ==> s.design.elements[j].id != s.selectedId.value
    ensures r.Some? ==>
      exists k :: 0 <= k < |s.design.elements| && s.design.elements[k] == r.value
        && r.value.id == s.selectedId.value
        && forall j :: 0 <= j < k ==> s.design.elements[j].id != s.selectedId.value
  {
    if !Truthy(s.selectedId) then None
    else
      var k := FindIndex(s.design.elements, s.selectedId.value);
      if k == -1 then None else Some(s.design.elements[k])
  }

  /** `updateBackgroundColor`. */
  function SetBackgroundColor(s: Store, color: string): (r: Store)
    ensures r.design.backgroundColor == color
    ensures r.design.(backgroundColor := s.design.backgroundColor) == s.design
    ensures r.selectedId == s.selectedId
  {
    s.(design := s.design.(backgroundColor := color))
  }

  /** `updateCanvasWidth`: no validation, and no element is repositioned. */
  function SetCanvasWidth(s: Store, width: real): (r: Store)
    ensures r.design.width == width
    ensures r.design.(width := s.design.width) == s.design
    ensures r.selectedId == s.selectedId
  {
    s.(design := s.design.(width := width))
  }

  /** `updateCanvasHeight`: no validation, and no element is repositioned. */
  function SetCanvasHeight(s: Store, height: real): (r: Store)
    ensures r.design.height == height
    ensures r.design.(height := s.design.height) == s.design
    ensures r.selectedId == s.selectedId
  {
    s.(design := s.design.(height := height))
  }

  /** `selectElement`: stores any id, existing or not. */
  function SelectElement(s: Store, id: Option<string>): (r: Store)
    ensures r.selectedId == id
    ensures r.design == s.design
  {
    s.(selectedId := id)
  }

  /** Shallow merge of the kind-specific fields; patch fields the variant
      does not declare are not part of the result. */
  function MergeProps(p: Props, u: Patch): (r: Props)
    ensures r.TextProps? == p.TextProps? && r.ButtonProps? == p.ButtonProps?
    ensures r.InputProps? == p.InputProps? && r.SvgProps? == p.SvgProps?
    ensures !p.SvgProps? ==> r.fontSize == (if u.fontSize.Some? then u.fontSize else p.fontSize)
    ensures r.color == (if u.color.Some? then u.color else p.color)
    ensures (p.ButtonProps? || p.InputProps?) ==>
      (r.backgroundColor == (if u.backgroundColor.Some? then u.backgroundColor else p.backgroundColor))
    ensures (p.ButtonProps? || p.InputProps?) ==>
      (r.borderRadius == (if u.borderRadius.Some? then u.borderRadius else p.borderRadius))
    ensures p.SvgProps? ==> r.svgType == (if u.svgType.Some? then u.svgType else p.svgType)
    ensures p.SvgProps? ==> r.svgSize == (if u.svgSize.Some? then u.svgSize else p.svgSize)
  {
    match p
    case TextProps(fs, c) =>
      TextProps(if u.fontSize.Some? then u.fontSize else fs,
                if u.color.Some? then u.color else c)
    case ButtonProps(fs, c, bg, br) =>
      ButtonProps(if u.fontSize.Some? then u.fontSize else fs,
                  if u.color.Some? then u.color else c,
                  if u.backgroundColor.Some? then u.backgroundColor else bg,
                  if u.borderRadius.Some? then u.borderRadius else br)
    case InputProps(fs, c, bg, br) =>
      InputProps(if u.fontSize.Some? then u.fontSize else fs,
                 if u.color.Some? then u.color else c,
                 if u.backgroundColor.Some? then u.backgroundColor else bg,
                 if u.borderRadius.Some? then u.borderRadius else br)
    case SvgProps(c, t, sz) =>
      SvgProps(if u.color.Some? then u.color else c,
               if u.svgType.Some? then u.svgType else t,
               if u.svgSize.Some? then u.svgSize else sz)
  }

  /** `{ ...element, ...updates }`: update fields win, the others are kept. */
  function Merge(e: Element, u: Patch): (r: Element)
    ensures r.Type() == e.Type()
    ensures r.id == u.id.GetOr(e.id) && r.content == u.content.GetOr(e.content)
    ensures r.x == u.x.GetOr(e.x) && r.y == u.y.GetOr(e.y)
    ensures u.width.Some? ==> r.width == u.width
    ensures u.width.None? ==> r.width == e.width
    ensures u.height.Some? ==> r.height == u.height
    ensures u.height.None? ==> r.height == e.height
    ensures r.props == MergeProps(e.props, u)
    ensures u == EmptyPatch ==> r == e
  {
    Element(u.id.GetOr(e.id), u.content.GetOr(e.content),
            u.x.GetOr(e.x), u.y.GetOr(e.y),
            if u.width.Some? then u.width else e.width,
            if u.height.Some? then u.height else e.height,
            MergeProps(e.props, u))
  }

  /** A second merge of the same patch changes nothing more. */
  lemma MergeIdempotent(e: Element, u: Patch)
    ensures Merge(Merge(e, u), u) == Merge(e, u)
  {
  }

  /** Whether index `j` holds the first element carrying `id`. */
  ghost predicate FirstWithId(els: seq<Element>, j: int, id: string)
    requires 0 <= j < |els|
  {
    els[j].id == id && forall i :: 0 <= i < j ==> els[i].id != id
  }

  /** `updateElement`: merges the updates into the first element with `id`;
      a missing id leaves the store as it was and raises nothing. */
  function UpdateElement(s: Store, id: string, u: Patch): (r: Store)
    ensures (forall j :: 0 <= j < |s.design.elements| ==> s.design.elements[j].id != id) ==> r == s
    ensures |r.design.elements| == |s.design.elements|
    ensures forall j :: 0 <= j < |s.design.elements| ==>
      r.design.elements[j] == if FirstWithId(s.design.elements, j, id) then Merge(s.design.elements[j], u) else s.design.elements[j]
    ensures r.design.(elements := s.design.elements) == s.design
    ensures r.selectedId == s.selectedId
  {
    var k := FindIndex(s.design.elements, id);
    if k == -1 then s
    else s.(design := s.design.(elements := s.design.elements[k := Merge(s.design.elements[k], u)]))
  }

  /** `elements.filter(el => el.id !== id)`. */
  function Without(els: seq<Element>, id: string): (r: seq<Element>)
    ensures |r| <= |els|
    ensures forall e :: e in r <==> e in els && e.id != id
  {
    if |els| == 0 then []
    else if els[0].id == id then Without(els[1..], id)
    else [els[0]] + Without(els[1..], id)
  }

  /** `deleteElement`: drops every element with `id` and clears the selection
      exactly when it was `id`. */
  function DeleteElement(s: Store, id: string): (r: Store)
    ensures forall e :: e in r.design.elements <==> e in s.design.elements && e.id != id
    ensures r.design.(elements := s.design.elements) == s.design
    ensures s.selectedId == Some(id) ==> r.selectedId.None?
    ensures s.selectedId != Some(id) ==> r.selectedId == s.selectedId
  {
    Store(s.design.(elements := Without(s.design.elements, id)),
          if s.selectedId == Some(id) then None else s.selectedId)
  }

  /** `addElement`: appends on top of the existing elements and selects the new one. */
  function AddElement(s: Store, e: Element): (r: Store)
    ensures |r.design.elements| == |s.design.elements| + 1
    ensures r.design.elements[..|s.design.elements|] == s.design.elements
    ensures r.design.elements[|s.design.elements|] == e
    ensures r.design.(elements := s.design.elements) == s.design
    ensures r.selectedId == Some(e.id)
  {
    Store(s.design.(elements := s.design.elements + [e]), Some(e.id))
  }

  /** `resetDesign`: without confirmation nothing changes; with it the store
      holds a copy of the default design and no selection, whatever the
      outcome of clearing storage, which only decides the notification. */
  function ResetDesign(s: Store, confirmed: bool, cleared: bool, defaultDesign: Design): (r: (Store, Option<Toast>))
    ensures !confirmed ==> r == (s, None)
    ensures confirmed ==> r.0 == Store(defaultDesign, None) && r.1.Some?
    ensures confirmed ==> (r.1.value.Success? <==> cleared)
  {
    if !confirmed then (s, None)
    else
      var toast := if cleared then Success("Design reset to default!")
                   else Error("Design reset but failed to clear saved state");
      (Store(defaultDesign, None), Some(toast))
  }

  /** Runs one callback against the store. */
  function Apply(s: Store, c: Command): Store {
    match c
    case Add(e) => AddElement(s, e)
    case Update(id, u) => UpdateElement(s, id, u)
    case Delete(id) => DeleteElement(s, id)
    case Select(id) => SelectElement(s, id)
  }

  /** Runs callbacks in order. */
  function ApplyAll(s: Store, cs: seq<Command>): Store
    decreases |cs|
  {
    if |cs| == 0 then s else ApplyAll(Apply(s, cs[0]), cs[1..])
  }

  // ---------------------------------------------------------------------------
  // Properties relating the operations
  // ---------------------------------------------------------------------------

  /** At most one element carries `id`: the element at `k` is the only one. */
  lemma {:induction false} UniqueIdAt(els: seq<Element>, id: string, k: int)
    requires CountId(els, id) <= 1
    requires 0 <= k < |els| && els[k].id == id
    ensures forall j :: 0 <= j < |els| && j != k ==> els[j].id != id
    decreases |els|
  {
    if k == 0 {
      CountIdZero(els[1..], id);
    } else {
      UniqueIdAt(els[1..], id, k - 1);
      assert els[0].id != id by {
        if els[0].id == id {
          CountIdPositive(els[1..], id, k - 1);
        }
      }
    }
  }

  /** No element carries an id that is counted zero times. */
  lemma {:induction false} CountIdZero(els: seq<Element>, id: string)
    requires CountId(els, id) == 0
    ensures forall j :: 0 <= j < |els| ==> els[j].id != id
    decreases |els|
  {
    if |els| > 0 {
      CountIdZero(els[1..], id);
    }
  }

  /** An id carried at index `k` is counted at least once. */
  lemma {:induction false} CountIdPositive(els: seq<Element>, id: string, k: int)
    requires 0 <= k < |els| && els[k].id == id
    ensures CountId(els, id) >= 1
    decreases |els|
  {
    if k > 0 {
      CountIdPositive(els[1..], id, k - 1);
    }
  }

  /** Updating twice with the same fields equals updating once, unless the
      fields rename an element whose id is shared with another element (the
      second call then reaches that other element). */
  lemma UpdateElementIdempotent(s: Store, id: string, u: Patch)
    requires u.id.None? || u.id == Some(id) || CountId(s.design.elements, id) <= 1
    ensures UpdateElement(UpdateElement(s, id, u), id, u) == UpdateElement(s, id, u)
  {
    var els := s.design.elements;
    var k := FindIndex(els, id);
    if k != -1 {
      var s1 := UpdateElement(s, id, u);
      var els1 := s1.design.elements;
      MergeIdempotent(els[k], u);
      if u.id.None? || u.id == Some(id) {
        assert FindIndex(els1, id) == k by {
          assert els1[k].id == id;
          forall j | 0 <= j < k ensures els1[j].id != id {
            assert !FirstWithId(els, j, id);
          }
        }
      } else {
        UniqueIdAt(els, id, k);
        forall j | 0 <= j < |els1| ensures els1[j].id != id {
          if j != k {
            assert !FirstWithId(els, j, id);
          }
        }
        assert UpdateElement(s1, id, u) == s1;
      }
    }
  }

  /** An id counted at least once is carried at some index. */
  lemma {:induction false} CountIdWitness(els: seq<Element>, id: string) returns (j: int)
    requires CountId(els, id) >= 1
    ensures 0 <= j < |els| && els[j].id == id
    decreases |els|
  {
    if els[0].id == id {
      j := 0;
    } else {
      var j' := CountIdWitness(els[1..], id);
      j := j' + 1;
    }
  }

  /** An id counted at least twice is carried again after its first index. */
  lemma {:induction false} SecondWithId(els: seq<Element>, id: string) returns (j: int)
    requires CountId(els, id) >= 2
    ensures FindIndex(els, id) >= 0
    ensures FindIndex(els, id) < j < |els| && els[j].id == id
    decreases |els|
  {
    if els[0].id == id {
      var j' := CountIdWitness(els[1..], id);
      j := j' + 1;
    } else {
      var j' := SecondWithId(els[1..], id);
      j := j' + 1;
    }
  }

  /** A renaming update is not idempotent whenever the id is shared: the
      second call renames the next element carrying the id. With
      `UpdateElementIdempotent` this makes "the id is shared" exactly the
      condition under which a renaming update fails to be idempotent. */
  lemma UpdateElementRenameNotIdempotent(s: Store, id: string, u: Patch)
    requires u.id.Some? && u.id.value != id
    requires CountId(s.design.elements, id) >= 2
    ensures UpdateElement(UpdateElement(s, id, u), id, u) != UpdateElement(s, id, u)
  {
    var els := s.design.elements;
    var k := FindIndex(els, id);
    var j := SecondWithId(els, id);
    var once := UpdateElement(s, id, u);
    var els1 := once.design.elements;
    assert !FirstWithId(els, j, id);
    assert els1[j].id == id;
    var k1 := FindIndex(els1, id);
    assert k1 >= 0;
    assert FirstWithId(els1, k1, id);
    var twice := UpdateElement(once, id, u);
    assert twice.design.elements[k1].id == u.id.value;
    assert twice.design.elements[k1] != els1[k1];
  }

  /** `Without` keeps the relative order of the kept elements. */
  ghost predicate IsSubsequence(a: seq<Element>, b: seq<Element>)
    decreases |b|
  {
    |a| == 0 || (|b| > 0 && (if a[0] == b[0] then IsSubsequence(a[1..], b[1..]) else IsSubsequence(a, b[1..])))
  }

  lemma {:induction false} WithoutIsSubsequence(els: seq<Element>, id: string)
    ensures IsSubsequence(Without(els, id), els)
    decreases |els|
  {
    if |els| > 0 {
      WithoutIsSubsequence(els[1..], id);
      if els[0].id != id {
        assert Without(els, id)[1..] == Without(els[1..], id);
      } else {
        SubsequenceOfCons(Without(els[1..], id), els[1..], els[0]);
      }
    }
  }

  lemma {:induction false} SubsequenceOfCons(a: seq<Element>, b: seq<Element>, x: Element)
    requires IsSubsequence(a, b)
    ensures IsSubsequence(a, [x] + b)
    decreases |b|, 1
  {
    if |a| > 0 && a[0] == x {
      assert ([x] + b)[1..] == b;
      SubsequenceOfTail(a, b);
    } else if |a| > 0 {
      assert ([x] + b)[1..] == b;
    }
  }

  lemma {:induction false} SubsequenceOfTail(a: seq<Element>, b: seq<Element>)
    requires |a| > 0 && IsSubsequence(a, b)
    ensures IsSubsequence(a[1..], b)
    decreases |b|, 0
  {
    if a[0] != b[0] {
      SubsequenceOfTail(a, b[1..]);
      if |a[1..]| > 0 {
        SubsequenceOfCons(a[1..], b[1..], b[0]);
        assert [b[0]] + b[1..] == b;
      }
    } else if |a[1..]| > 0 {
      SubsequenceOfCons(a[1..], b[1..], b[0]);
      assert [b[0]] + b[1..] == b;
    }
  }

  /** The number of elements carrying `id`. */
  function CountId(els: seq<Element>, id: string): nat {
    if |els| == 0 then 0 else (if els[0].id == id then 1 else 0) + CountId(els[1..], id)
  }

  /** `Without` removes exactly the elements carrying `id`, no more. */
  lemma {:induction false} WithoutLength(els: seq<Element>, id: string)
    ensures |Without(els, id)| == |els| - CountId(els, id)
    decreases |els|
  {
    if |els| > 0 {
      WithoutLength(els[1..], id);
    }
  }

  /** Deleting an id nobody carries keeps every element in place. */
  lemma {:induction false} WithoutAbsent(els: seq<Element>, id: string)
    requires forall j :: 0 <= j < |els| ==> els[j].id != id
    ensures Without(els, id) == els
    decreases |els|
  {
    if |els| > 0 {
      WithoutAbsent(els[1..], id);
      assert [els[0]] + els[1..] == els;
    }
  }

  /** Deleting twice is deleting once. */
  lemma DeleteElementIdempotent(s: Store, id: string)
    ensures DeleteElement(DeleteElement(s, id), id) == DeleteElement(s, id)
  {
    var r := DeleteElement(s, id);
    forall j | 0 <= j < |r.design.elements| ensures r.design.elements[j].id != id {
      assert r.design.elements[j] in r.design.elements;
    }
    WithoutAbsent(r.design.elements, id);
  }

  /** Adding an element with a fresh id and deleting it again restores the
      elements; the selection, which pointed at the new element, is cleared. */
  lemma AddThenDelete(s: Store, e: Element)
    requires forall j :: 0 <= j < |s.design.elements| ==> s.design.elements[j].id != e.id
    ensures DeleteElement(AddElement(s, e), e.id) == s.(selectedId := None)
  {
    WithoutAbsent(s.design.elements, e.id);
    WithoutAppend(s.design.elements, [e], e.id);
    assert Without([e], e.id) == [];
  }

  lemma {:induction false} WithoutAppend(a: seq<Element>, b: seq<Element>, id: string)
    ensures Without(a + b, id) == Without(a, id) + Without(b, id)
    decreases |a|
  {
    if |a| > 0 {
      assert (a + b)[1..] == a[1..] + b;
      WithoutAppend(a[1..], b, id);
    } else {
      assert a + b == b;
    }
  }

  /** After adding a fresh element with a non-empty id, it is the selected element. */
  lemma AddSelectsNewElement(s: Store, e: Element)
    requires e.id != ""
    requires forall j :: 0 <= j < |s.design.elements| ==> s.design.elements[j].id != e.id
    ensures SelectedElement(AddElement(s, e)) == Some(e)
  {
    var r := AddElement(s, e);
    assert r.design.elements[|s.design.elements|] == e;
  }

  /** Selecting an id no element carries yields no selected element. */
  lemma SelectStaleId(s: Store, id: string)
    requires forall j :: 0 <= j < |s.design.elements| ==> s.design.elements[j].id != id
    ensures SelectedElement(SelectElement(s, Some(id))).None?
  {
  }

  /** Deleting the selected element leaves nothing selected. */
  lemma DeleteSelectedClearsSelection(s: Store, id: string)
    requires s.selectedId == Some(id)
    ensures SelectedElement(DeleteElement(s, id)).None?
  {
  }

  /** The canvas setters never change which element is selected. */
  lemma SettersKeepSelectedElement(s: Store, c: string, w: real, h: real)
    ensures SelectedElement(SetBackgroundColor(s, c)) == SelectedElement(s)
    ensures SelectedElement(SetCanvasWidth(s, w)) == SelectedElement(s)
    ensures SelectedElement(SetCanvasHeight(s, h)) == SelectedElement(s)
  {
  }

  /** A confirmed reset leaves nothing selected, and a second confirmed reset
      changes nothing more, whatever storage does either time. */
  lemma ResetSettles(s: Store, cleared1: bool, cleared2: bool, defaultDesign: Design)
    ensures SelectedElement(ResetDesign(s, true, cleared1, defaultDesign).0).None?
    ensures var once := ResetDesign(s, true, cleared1, defaultDesign).0;
      ResetDesign(once, true, cleared2, defaultDesign).0 == once
  {
  }

  /** After a non-renaming update of the element with `id`, the first element
      with `id` is the merge of the one found before. */
  lemma UpdateElementFindsMerged(s: Store, id: string, u: Patch)
    requires u.id.None? || u.id == Some(id)
    requires exists j :: 0 <= j < |s.design.elements| && s.design.elements[j].id == id
    ensures var k := FindIndex(s.design.elements, id);
      k >= 0 && FindIndex(UpdateElement(s, id, u).design.elements, id) == k
      && UpdateElement(s, id, u).design.elements[k] == Merge(s.design.elements[k], u)
  {
    var els := s.design.elements;
    var k := FindIndex(els, id);
    var els1 := UpdateElement(s, id, u).design.elements;
    assert FirstWithId(els, k, id);
    assert els1[k].id == id;
    forall j | 0 <= j < k ensures els1[j].id != id {
      assert !FirstWithId(els, j, id);
    }
  }
}
