# Popup editor positioning engine, in Dafny

This project models the core of a small Vue popup editor. On its canvas, typed
elements (text, button, input, star/heart graphic) are placed and dragged. The
model covers six parts:

- **Types** (`types.dfy`, `constants.dfy`): the element kinds, the element
  record with its kind-specific fields, the partial update (`Patch`), the
  design record, and the numeric defaults.
- **Design store** (`design_state.dfy`): the design and the single optional
  selection. It has the operations select, update (shallow merge into the
  first element with the id), add (append and select), delete (filter every
  element with the id), the three canvas setters and a confirmed reset. The
  callbacks other parts make into the store are a `Command` datatype, and
  `Apply`/`ApplyAll` run them.
- **Element factory** (`element_factory.dfy`): per-kind default sizes,
  content and fields, and a centred, margin-clamped initial position. An
  unknown type tag is an error.
- **Utilities** (`utils.dfy`): `mergeClasses`, and the element render style
  as a record of numbers, `auto` lengths and colours.
- **Drag gesture** (`drag_and_drop.dfy`): the composable's closure state as a
  `Session`, driven by explicit `Down`, `Move`, `Frame`, `Up` and `Timer`
  inputs through `Step`. A frame is the animation-frame callback. The timer
  is the deferred reselect. The inline left/top the code writes during a drag
  is the session's `visualPos`. `Run` feeds a sequence of inputs.
- **Operation handlers** (`element_operations.dfy`): the add, update,
  delete and select handlers. Each one returns the store callbacks it makes.

All coordinates are `real`. The source's `||` defaults on numbers are modelled
as "absent or 0 takes the default" (`Utils.NumberOr`). On strings they are
"absent or empty takes the default" (`Utils.StringOr`).

Inputs to the model, in place of what the source reads from the outside:

- the generated element id;
- the `confirm()` answer and the result of clearing storage;
- the default design;
- `roundToDecimalPlaces(·, 2)`, passed in as an arbitrary function `round2`;
- the live canvas size and zoom (`Env`);
- what the mouse-down handler reads from the DOM: whether a canvas encloses
  the element, the element's on-screen origin, the pointer, and the element's
  inline position;
- the canvas origin a frame finds, or none.

## Model

| member | source | states |
|---|---|---|
| Types.ParseType | src/types/index.ts:1-6 | a tag is a known kind exactly when it is one of "text", "button", "input", "svg", and it reads back as the kind whose tag it is |
| Types.ParseTypeName | src/types/index.ts:1-6 | every kind's tag reads back as that kind, so the four tags are distinct |
| Types.Element.Type | src/types/index.ts:35-65 | an element's type is text, button, input or svg exactly when it carries that variant's own fields |
| DesignState.FindIndex | src/composables/useDesignState.ts:35 | the result is -1 exactly when no element has the id; otherwise it is the first index holding the id |
| DesignState.SelectedElement | src/composables/useDesignState.ts:13-16 | no element when the selection is null, empty or stale; otherwise the first element carrying the selected id |
| DesignState.SetBackgroundColor | src/composables/useDesignState.ts:18-20 | only the background colour changes; elements, canvas size and selection are kept |
| DesignState.SetCanvasWidth | src/composables/useDesignState.ts:22-24 | only the width changes; no element is repositioned and the selection is kept |
| DesignState.SetCanvasHeight | src/composables/useDesignState.ts:26-28 | only the height changes; no element is repositioned and the selection is kept |
| DesignState.SettersKeepSelectedElement | src/composables/useDesignState.ts:18-28 | none of the canvas setters changes which element is selected |
| DesignState.SelectElement | src/composables/useDesignState.ts:30-32 | any id is stored, whether or not an element has it; the design is untouched |
| DesignState.SelectStaleId | src/composables/useDesignState.ts:13-16 | selecting an id no element has yields no selected element |
| DesignState.MergeProps | src/composables/useDesignState.ts:37-40 | the merge never changes an element's kind; each kind-specific field the kind declares (font size, colour, background colour, corner radius, graphic type, graphic size) takes the update's value when present and keeps the element's otherwise |
| DesignState.Merge | src/composables/useDesignState.ts:37-40 | each field present in the update wins, each absent one keeps the element's value (the kind-specific fields as `MergeProps` states), the kind is kept, and an empty update changes nothing |
| DesignState.MergeIdempotent | src/composables/useDesignState.ts:37-40 | merging the same update twice equals merging it once |
| DesignState.UpdateElement | src/composables/useDesignState.ts:34-42 | a missing id leaves the store unchanged; otherwise only the first element with the id is replaced by the merge, and the list length, the other positions, the canvas fields and the selection are unchanged |
| DesignState.UpdateElementIdempotent | src/composables/useDesignState.ts:34-42 | applying the same update twice equals applying it once, for any update that does not rename the element and for any update at all when at most one element carries the id |
| DesignState.UpdateElementRenameNotIdempotent | src/composables/useDesignState.ts:34-42 | every renaming update of an id carried by two or more elements is not idempotent: the second call renames the next element carrying the id. With `UpdateElementIdempotent` (idempotent when the id is carried at most once), sharing is exactly the condition for a renaming update to fail |
| DesignState.UpdateElementFindsMerged | src/composables/useDesignState.ts:34-42 | after a non-renaming update of a present id, the first element with that id sits at the same index and is the merge of the element found before |
| DesignState.Without | src/composables/useDesignState.ts:45 | the kept elements are exactly those of the list whose id differs |
| DesignState.WithoutIsSubsequence | src/composables/useDesignState.ts:45 | the filter keeps the relative order of the remaining elements |
| DesignState.WithoutLength | src/composables/useDesignState.ts:45 | the filter removes exactly as many elements as carry the id |
| DesignState.WithoutAbsent | src/composables/useDesignState.ts:45 | filtering an id no element has returns the list unchanged |
| DesignState.DeleteElement | src/composables/useDesignState.ts:44-49 | every element with the id is gone and the others remain; the selection is cleared exactly when it was that id and is otherwise unchanged |
| DesignState.DeleteElementIdempotent | src/composables/useDesignState.ts:44-49 | deleting the same id twice equals deleting it once |
| DesignState.DeleteSelectedClearsSelection | src/composables/useDesignState.ts:44-49 | after deleting the selected id there is no selected element |
| DesignState.AddElement | src/composables/useDesignState.ts:51-54 | the new element is appended on top, the existing elements are an unchanged prefix, and the selection becomes the new element's id |
| DesignState.AddThenDelete | src/composables/useDesignState.ts:44-54 | adding an element with a fresh id and then deleting that id restores the element list, with nothing selected |
| DesignState.AddSelectsNewElement | src/composables/useDesignState.ts:51-54 | after adding an element with a fresh, non-empty id, that element is the selected element |
| DesignState.ResetDesign | src/composables/useDesignState.ts:65-81 | unconfirmed, nothing changes; confirmed, the store holds the default design with no selection whether or not storage clearing succeeds, and only the notice depends on that outcome |
| DesignState.ResetSettles | src/composables/useDesignState.ts:65-81 | after a confirmed reset nothing is selected, and a second confirmed reset changes nothing more |
| ElementFactory.ElementDimensions | src/lib/elementFactory.ts:10-23 | layout size by kind: text 200x20, button 120x40, input 200x40, svg 32x32, any other tag 120x30 |
| ElementFactory.DefaultContent | src/lib/elementFactory.ts:25-38 | default content by kind: "New Text", "New Button", "Email", "star", otherwise "New Element" |
| ElementFactory.CentredCoordinate | src/lib/elementFactory.ts:50-65 | the coordinate is never below the 10 margin; it is exactly centred, with room for the margin after the box, when the side is at least size + 20, and it is 10 otherwise |
| ElementFactory.CreateElement | src/lib/elementFactory.ts:40-117 | an unknown tag is an error naming the tag; otherwise the element has the given id, the requested kind, the default content and the centred position, with the per-kind fields and stored sizes listed for text, button, input and svg |
| ElementFactory.CreatedElementCentred | src/lib/elementFactory.ts:50-65 | when the layout box fits with the margin, the new element keeps at least 10 from every edge and the gaps on both sides are equal |
| ElementFactory.ButtonOnDefaultCanvas | src/lib/elementFactory.ts:50-65 | on a 500x500 canvas a new button is placed at (190, 230) |
| Utils.Max | src/lib/elementFactory.ts:51-64 | `Math.max`, as used for the initial position (and for the drag clamp at useDragAndDrop.ts lines 96-97): the larger argument |
| Utils.Min | src/lib/elementFactory.ts:53-63 | `Math.min`, as used for the initial position (and for the drag clamp at useDragAndDrop.ts lines 96-97): the smaller argument |
| Utils.KeptClasses | src/lib/utils.ts:5 | drops undefined and empty names; the kept names are exactly the non-empty names given |
| Utils.MergeClasses | src/lib/utils.ts:4-6 | the merged string is empty exactly when no non-empty name was given |
| Utils.MergeClassesAppend | src/lib/utils.ts:4-6 | merging two argument lists joins the two merged strings with one space, whatever the names contain; a list that keeps no name contributes nothing |
| Utils.MergeClassesSingle | src/lib/utils.ts:4-6 | one non-empty argument merges to itself, spaces included; an absent or empty one merges to "" |
| Utils.MergeClassesRoundTrip | src/lib/utils.ts:4-6 | splitting the merged string on spaces gives back the kept names in order, when no name contains a space |
| Utils.KeptClassesAppend | src/lib/utils.ts:5 | filtering distributes over concatenation, so the order of the names is kept |
| Utils.NumberOr | src/lib/utils.ts:33 | `value \|\| fallback` on a number (also lines 24-25, 43 and 46, and the drag size at useDragAndDrop.ts lines 94-95): an absent or zero value takes the fallback |
| Utils.StringOr | src/lib/utils.ts:34 | `value \|\| fallback` on a string (also lines 26 and 44-45): an absent or empty value takes the fallback |
| Utils.LengthOrAuto | src/lib/utils.ts:41-42 | a width or height (also the text width at line 32) is `auto` exactly when it is absent or zero, and is otherwise the value times the scale |
| Utils.CreateElementStyle | src/lib/utils.ts:8-52 | every style is absolutely positioned at z-index 1 with the position times the scale. An svg has a square side of the size (default 32) times the scale and a colour defaulting to #FBFF37. A text has only a width, a font size (default 16) and a colour (default black). A button or input has width, height, font size, colour, a background defaulting to transparent, and a border radius defaulting to 0 |
| Utils.StyleScalesLinearly | src/lib/utils.ts:8-52 | each numeric style value at a given scale is the value at scale 1 times that scale, and the other keys do not depend on the scale |
| Utils.StyleOriginRoundTrip | src/lib/utils.ts:14-15 | dividing the rendered left/top by the scale gives back the element's position |
| Utils.StyleAtUnitScale | src/lib/utils.ts:10-47 | at the default scale 1, each numeric style value (left, top, width, height, font size, corner radius, graphic side) is the element's own value, or its default when that value is absent or 0 |
| DragAndDrop.ResetDragState | src/composables/useDragAndDrop.ts:199-213 | afterwards the gesture is not dragging and holds no element, no snapshot, a zero offset, no buffered pointer and no frame token or queued frame |
| DragAndDrop.MouseDown | src/composables/useDragAndDrop.ts:37-76 | with no enclosing canvas nothing happens. Otherwise the element is selected and the gesture is armed but not started: it records the snapshot and the initial pointer, and the offset is such that element origin plus offset is the pointer. The frame state and buffered pointer are not touched |
| DragAndDrop.MouseMove | src/composables/useDragAndDrop.ts:111-145 | a move does nothing unless an element is captured. Before the drag starts, it does nothing unless it is more than 3 pixels from the press on some axis. Once started, the drag stays started, the pointer is buffered, and a frame is requested only when no token is held, so at most one frame is ever outstanding |
| DragAndDrop.DragWidth | src/composables/useDragAndDrop.ts:94 | the clamp width is the snapshot's width, or 100 when that is absent or 0 |
| DragAndDrop.DragHeight | src/composables/useDragAndDrop.ts:95 | the clamp height is the snapshot's height, or 40 when that is absent or 0 |
| DragAndDrop.ClampCoordinate | src/composables/useDragAndDrop.ts:96-97 | the result lies in [0, max(0, limit)]. It equals the input when the input is in range, is 0 below it, and is max(0, limit) above it |
| DragAndDrop.RequestedPosition | src/composables/useDragAndDrop.ts:86-91 | the logical position times the scale, plus the canvas origin and the grab offset, is the pointer |
| DragAndDrop.UpdateElementPosition | src/composables/useDragAndDrop.ts:79-109 | an early return (no buffered pointer, no element, no canvas) changes nothing and keeps the token. A completed run clears the token and changes only the inline position: it is the requested position clamped to the live canvas size minus the snapshot size, and it equals the requested position when that is in range |
| DragAndDrop.MouseUp | src/composables/useDragAndDrop.ts:147-197 | the session always ends fully reset. There is exactly one update when a captured drag had started, and none otherwise. That update carries only x and y, each the rounded last inline position divided by the live scale (0 when unparseable). It is followed by one scheduled reselect of the same id |
| DragAndDrop.Step | src/composables/useDragAndDrop.ts:139-192 | a frame emits nothing, leaves nothing queued and keeps pending reselects, and with nothing queued it changes nothing; a timer never touches the session, does nothing when no reselect is pending, and otherwise emits exactly the oldest pending reselect and drops it; press and move keep the pending reselects |
| DragAndDrop.StepValid | src/composables/useDragAndDrop.ts:139-144 | every input keeps the facts that a queued frame holds the token and that only a captured element can be dragging; only release updates the store |
| DragAndDrop.Run | src/composables/useDragAndDrop.ts:37-197 | any sequence of inputs keeps the session facts of `Valid` |
| DragAndDrop.QuietKeepsArmed | src/composables/useDragAndDrop.ts:115-134 | moves within the threshold, frames and timers leave an armed gesture unstarted, from the same press point, and make no update |
| DragAndDrop.ClickCommitsNothing | src/composables/useDragAndDrop.ts:167-187 | a press on the canvas, moves within the threshold and a release commit no position: a plain click only selects |
| DragAndDrop.FrameThenReleaseCommitsClamped | src/composables/useDragAndDrop.ts:169-187 | a release after a completed frame commits exactly one update. Its coordinates are the rounded clamped position of that frame (the pointer's requested position clamped per axis), within [0, max(0, W - w)] x [0, max(0, H - h)] |
| DragAndDrop.EarlyFrameBlocksLaterFrames | src/composables/useDragAndDrop.ts:80-83 | a frame that finds no canvas keeps the token with nothing queued, so no later move requests a frame |
| DragAndDrop.DragScenario | src/composables/useDragAndDrop.ts:37-197 | at zoom 2, a press 5 pixels inside the element and a move to (150, 160) place it at pixels (145, 155), that is logical (72.5, 77.5). Release commits that position and the timer reselects the element |
| DragAndDrop.FactoryAndDragSizes | src/composables/useDragAndDrop.ts:94-95 | the drag clamps a new button as 100 wide (laid out 120), a new text as 40 high (laid out 20) and a new graphic as 100x40 (laid out 32x32); an input's two sizes agree |
| DragAndDrop.ButtonDraggedRightOverhangs | src/composables/useDragAndDrop.ts:94-97 | a new button on a 500-wide canvas dragged far right stops at x = 400, where its 120-wide layout box passes the canvas edge |
| ElementOperations.ResolveIdAgrees | src/composables/useElementOperations.ts:42-45 | an id wrapped in a Vue ref and the same id passed plainly resolve alike; the unwrap itself is modelled by the `IdArgument` datatype |
| ElementOperations.HandleAddElement | src/composables/useElementOperations.ts:24-36 | a known type forwards exactly one add of the element built from the canvas size; an unknown type forwards nothing |
| ElementOperations.AddThroughHandler | src/composables/useElementOperations.ts:24-36 | through the store, a known type appends an element of that type above the unchanged existing ones and selects it; an unknown type leaves the store alone |
| ElementOperations.HandleUpdateSelectedElement | src/composables/useElementOperations.ts:38-49 | the update is forwarded, once and unchanged, exactly when the resolved id is non-null and non-empty |
| ElementOperations.UpdateSelectedThroughHandler | src/composables/useElementOperations.ts:38-49 | through the store, a non-renaming update of the selection (no id field, or the selected id itself) turns the selected element into its merge with the update and keeps the selection; with nothing selected, or a stale id, no element changes |
| ElementOperations.HandleDeleteSelectedElement | src/composables/useElementOperations.ts:51-59 | the delete is forwarded, once, exactly when the resolved id is non-null and non-empty |
| ElementOperations.DeleteSelectedThroughHandler | src/composables/useElementOperations.ts:51-59 | deleting the selection through the handler leaves nothing selected; with a null or empty selection the store is unchanged |
| ElementOperations.HandleElementSelect | src/composables/useElementOperations.ts:61-63 | forwards one select of its argument, null included |
| ElementOperations.HandleElementDelete | src/composables/useElementOperations.ts:65-67 | forwards one delete of its argument |

## Where the intended behaviour and the code differ

The model follows the code in each case:

- Element ids are meant to be immutable. `updateElement` merges whatever the
  update holds, `id` included. A renaming update is still idempotent while
  at most one element carries the id (`UpdateElementIdempotent`), and every
  renaming update of an id carried by two or more elements is not
  idempotent (`UpdateElementRenameNotIdempotent`).
- Committed positions are meant to lie within the canvas minus the
  element's size. The code commits `round(left / scale, 2)` of whatever
  inline position was last applied. That position is the clamped output of
  the last frame, or the element's own inline position when no frame
  completed. The canvas or zoom may also have changed since that frame. The
  model therefore proves the bound only for a release that directly follows
  a completed frame at the same zoom (`FrameThenReleaseCommitsClamped`), and
  before rounding.
- A handler that finds its element stale is meant to abort the gesture. In
  the code, a frame that finds no canvas only returns. It keeps the frame
  token, so the rest of the gesture requests no more frames
  (`EarlyFrameBlocksLaterFrames`), and the release still commits.
- Clamping is meant to use the element's size, with 100x40 as the default.
  The factory lays elements out with other sizes and does not store all of
  them, so the clamp uses the 100x40 fallback where the layout differs
  (`FactoryAndDragSizes`).

## Left out

- `saveDesign` and `src/lib/storage.ts`: persistence through `localStorage`
  and JSON. Stating save/load would need a JSON model.
- Toast notifications, `console` logging and `src/lib/errorHandling.ts`. The
  one exception is the notice after a confirmed reset, which `ResetDesign`
  returns.
- `src/main.ts`, the `SVGIcons` vnodes in `src/lib/constants.ts`, and
  `VIEW_MODES` with the unused `viewMode` argument: application wiring and
  rendering only.
- The DOM side effects of the drag. The cursor and text selection of the
  body, the element's z-index, transition and transform overrides, and their
  restoration on release are left out. Listener attach and detach are left
  out too. The inline position stops being tracked when the session resets.
- `handleMouseUp`: it only calls `handleGlobalMouseUp`, so it is the same
  `Up` input.
- Id generation from `Date.now()` and `Math.random()`: the id is a parameter.
- `roundToDecimalPlaces` is not part of this model. It is the parameter
  `round2`, and nothing is assumed about it.
- `defaultDesign` is not part of this model. It is a parameter of
  `ResetDesign`.
- ResetDesign: the source installs a shallow copy `{ ...defaultDesign }`,
  which shares the default's element array with later in-place pushes and
  index writes. The model has value semantics and does not capture that
  sharing. The design shares the default's array after a load with nothing
  saved (which also returns `{ ...defaultDesign }`) or after a confirmed
  reset, until the first delete, which assigns a fresh filtered array. Every
  element pushed, and every index write made by `updateElement`, while the
  array is shared lands in the default's array, and each later confirmed
  reset brings it back even if it was deleted in between. `ResetDesign`
  instead installs the default as given.
- Floating point. NaN, infinities, `parseFloat` and the `px` string
  formatting are left out. Coordinates are reals, so `x || 0` is `x`.
- A zoom of 0: the drag functions require a non-zero scale. In the source,
  division by 0 gives infinities.
- `Patch`: it has no `type` field, because changing an element's kind by
  merge is not representable with one variant per kind. An update field the
  element's kind does not declare is dropped. The source would add it as a
  stray key, and nothing modelled reads that key. An explicit `undefined` in
  an update is not modelled either.
- The `default` arms of `getElementDimensions` and `getDefaultContent` are
  modelled, but only unknown tags reach them, and `createElement` rejects
  those tags.
- `MAX_ELEMENT_SIZE` and the canvas default constants are transcribed but not
  used by any modelled operation.
