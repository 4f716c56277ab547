/** The toolbar and property-panel handlers of
    src/composables/useElementOperations.ts, which forward to the store
    callbacks; each returns the callbacks it makes. */
module ElementOperations {
  import opened Wrappers
  import opened Types
  import opened DesignState
  import opened ElementFactory

  /** A selected id passed either plainly or inside a Vue `Ref`. */
  datatype IdArgument = Plain(id: Option<string>) | Wrapped(refValue: Option<string>)

  /** Unwraps a `Ref` and passes a plain id through. */
  function ResolveId(a: IdArgument): Option<string> {
    match a
    case Plain(id) => id
    case Wrapped(v) => v
  }

  /** Both ways of passing an id name the same id. The unwrap itself (an
      object argument is read through its `value`) is modelled by the
      `IdArgument` datatype; this lemma only records that the two
      constructors resolve alike. */
  lemma ResolveIdAgrees(id: Option<string>)
    ensures ResolveId(Plain(id)) == ResolveId(Wrapped(id))
  {
  }

  /** `handleAddElement`, with the generated id passed in: the element built
      from the live canvas size is added once; an unknown type adds nothing
      (the factory's error is caught and only reported). */
  function HandleAddElement(tag: string, canvasWidth: real, canvasHeight: real, newId: string): (r: seq<Command>)
    ensures |r| <= 1
    ensures r == [] <==> ParseType(tag).None?
    ensures r != [] ==> r == [Add(CreateElement(tag, canvasWidth, canvasHeight, newId).value)]
  {
    match CreateElement(tag, canvasWidth, canvasHeight, newId)
    case Ok(e) => [Add(e)]
    case Err(_) => []
  }

  /** `handleUpdateSelectedElement`: forwards iff the resolved id is truthy. */
  function HandleUpdateSelectedElement(selected: IdArgument, u: Patch): (r: seq<Command>)
    ensures r != [] <==> Truthy(ResolveId(selected))
    ensures r != [] ==> r == [Update(ResolveId(selected).value, u)]
  {
    var id := ResolveId(selected);
    if Truthy(id) then [Update(id.value, u)] else []
  }

  /** `handleDeleteSelectedElement`: forwards iff the resolved id is truthy. */
  function HandleDeleteSelectedElement(selected: IdArgument): (r: seq<Command>)
    ensures r != [] <==> Truthy(ResolveId(selected))
    ensures r != [] ==> r == [Delete(ResolveId(selected).value)]
  {
    var id := ResolveId(selected);
    if Truthy(id) then [Delete(id.value)] else []
  }

  /** `handleElementSelect`: forwards its argument, null included. */
  function HandleElementSelect(id: Option<string>): (r: seq<Command>)
    ensures |r| == 1 && r[0].Select? && r[0].selection == id
  {
    [Select(id)]
  }

  /** `handleElementDelete`: forwards its argument unchanged. */
  function HandleElementDelete(id: string): (r: seq<Command>)
    ensures |r| == 1 && r[0].Delete? && r[0].id == id
  {
    [Delete(id)]
  }

  /** Adding through the handler appends the new element, selects it, and
      keeps every earlier element; an unknown type leaves the store alone. */
  lemma AddThroughHandler(s: Store, tag: string, newId: string)
    ensures var r := ApplyAll(s, HandleAddElement(tag, s.design.width, s.design.height, newId));
      && (ParseType(tag).None? ==> r == s)
      && (ParseType(tag).Some? ==>
            && r.selectedId == Some(newId)
            && |r.design.elements| == |s.design.elements| + 1
            && r.design.elements[..|s.design.elements|] == s.design.elements
            && TypeName(r.design.elements[|s.design.elements|].Type()) == tag)
  {
    var cs := HandleAddElement(tag, s.design.width, s.design.height, newId);
    if cs != [] {
      assert cs[1..] == [];
    }
  }

  /** Deleting the selection through the handler clears it, unless nothing
      (or the empty id) was selected, in which case nothing happens. */
  lemma DeleteSelectedThroughHandler(s: Store)
    ensures var r := ApplyAll(s, HandleDeleteSelectedElement(Wrapped(s.selectedId)));
      && (Truthy(s.selectedId) ==> r.selectedId.None? && SelectedElement(r).None?)
      && (!Truthy(s.selectedId) ==> r == s)
  {
    var cs := HandleDeleteSelectedElement(Wrapped(s.selectedId));
    if cs != [] {
      assert cs[1..] == [];
    }
  }

  /** Updating the selection through the handler with fields that do not
      rename it changes the selected element into its merge with those
      fields; with nothing (or a stale id) selected, no element changes. */
  lemma UpdateSelectedThroughHandler(s: Store, u: Patch)
    requires u.id.None? || u.id == s.selectedId
    ensures var r := ApplyAll(s, HandleUpdateSelectedElement(Plain(s.selectedId), u));
      && r.selectedId == s.selectedId
      && (SelectedElement(s).None? ==> r.design == s.design)
      && (SelectedElement(s).Some? ==> SelectedElement(r) == Some(Merge(SelectedElement(s).value, u)))
  {
    var cs := HandleUpdateSelectedElement(Plain(s.selectedId), u);
    if cs != [] {
      assert cs[1..] == [];
      var id := s.selectedId.value;
      if SelectedElement(s).Some? {
        UpdateElementFindsMerged(s, id, u);
      }
    }
  }
}
