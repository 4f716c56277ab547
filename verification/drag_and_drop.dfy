/** The drag gesture of src/composables/useDragAndDrop.ts as a state machine.
    Mouse events, `requestAnimationFrame` callbacks and the `setTimeout`
    reselect are explicit inputs; the inline style the code writes while
    dragging is the session's `visualPos`; the callbacks into the store are
    emitted as commands. */
module DragAndDrop {
  import opened Wrappers
  import opened Types
  import opened DesignState
  import opened Utils
  import opened ElementFactory

  /** A position in device pixels. */
  type Point = (real, real)

  /** Pointer travel, in pixels on either axis, that must be exceeded before a
      press becomes a drag. */
  const Threshold: real := 3.0
  /** The size assumed for clamping when the grabbed element stores none. */
  const FallbackWidth: real := 100.0
  const FallbackHeight: real := 40.0

  /** The composable's closure state for one gesture. */
  datatype Session = Session(
    isDragging: bool,           // `isDragging`
    dragElement: Option<string>, // `dragElement`; the element handle is present with it
    dragOffset: Point,          // pointer minus the element's on-screen origin at mouse-down
    snapshot: Option<Element>,  // `dragStartElement`: the element as it was at mouse-down
    started: bool,              // `dragStarted`
    initialPointer: Point,      // `initialMousePos`
    frameToken: bool,           // `animationFrameId !== null`
    frameQueued: bool,          // a frame callback is actually outstanding
    lastPointer: Option<Point>, // `lastMouseEvent`
    visualPos: Option<Point>)   // the element's inline left/top; None when unparseable

  /** The session plus the reselect timers still to fire, oldest first. */
  datatype Controller = Controller(session: Session, reselects: seq<string>)

  /** The live values the handlers read: `design.width`, `design.height`, `scale`. */
  datatype Env = Env(canvasWidth: real, canvasHeight: real, scale: real)

  /** Inputs to the gesture. `Down` carries what the handler reads from the
      DOM: whether a canvas encloses the element, the element's on-screen
      origin, the pointer, and the element's current inline position. */
  datatype Event =
    | Down(id: string, element: Element, onCanvas: bool, elementOrigin: Point, pointer: Point, stylePos: Option<Point>)
    | Move(pointer: Point)
    | Frame(canvasOrigin: Option<Point>)
    | Up
    | Timer

  /** A new controller state and the store callbacks made on the way. */
  datatype Transition = Transition(controller: Controller, commands: seq<Command>)

  function Abs(v: real): real {
    if v < 0.0 then -v else v
  }

  /** The session `resetDragState` leaves, apart from the untouched initial pointer. */
  predicate IsReset(s: Session) {
    && !s.isDragging && s.dragElement.None? && s.dragOffset == (0.0, 0.0)
    && s.snapshot.None? && !s.started && !s.frameToken && !s.frameQueued
    && s.lastPointer.None? && s.visualPos.None?
  }

  /** The state before any gesture. */
  const Initial := Controller(Session(false, None, (0.0, 0.0), None, false, (0.0, 0.0), false, false, None, None), [])

  /** Facts every reachable session keeps: a queued frame always holds the
      token, the element and its snapshot are captured together, and only a
      captured, non-empty id can be dragging. */
  predicate Valid(s: Session) {
    && (s.frameQueued ==> s.frameToken)
    && (s.dragElement.Some? <==> s.snapshot.Some?)
    && (s.started ==> Truthy(s.dragElement))
  }

  /** Whether the move handlers act at all: an element id that is truthy and a snapshot. */
  predicate Captured(s: Session) {
    Truthy(s.dragElement) && s.snapshot.Some?
  }

  /** `resetDragState`. */
  function ResetDragState(s: Session): (r: Session)
    ensures IsReset(r) && Valid(r)
    ensures r.initialPointer == s.initialPointer
  {
    Session(false, None, (0.0, 0.0), None, false, s.initialPointer, false, false, None, None)
  }

  /** `handleMouseDown`: with no enclosing canvas nothing happens; otherwise
      the element is selected and the gesture is armed, not yet dragging. */
  function MouseDown(s: Session, id: string, element: Element, onCanvas: bool,
                     elementOrigin: Point, pointer: Point, stylePos: Option<Point>): (r: (Session, seq<Command>))
    ensures !onCanvas ==> r == (s, [])
    ensures onCanvas ==> r.1 == [Select(Some(id))]
    ensures onCanvas ==>
      && r.0.dragElement == Some(id) && r.0.snapshot == Some(element) && !r.0.started
      && r.0.initialPointer == pointer
      && elementOrigin.0 + r.0.dragOffset.0 == pointer.0
      && elementOrigin.1 + r.0.dragOffset.1 == pointer.1
      && r.0.visualPos == stylePos
      // what the handler does not touch
      && r.0.isDragging == s.isDragging && r.0.lastPointer == s.lastPointer
      && r.0.frameToken == s.frameToken && r.0.frameQueued == s.frameQueued
  {
    if !onCanvas then (s, [])
    else
      (s.(dragElement := Some(id), snapshot := Some(element), started := false,
          initialPointer := pointer,
          dragOffset := (pointer.0 - elementOrigin.0, pointer.1 - elementOrigin.1),
          visualPos := stylePos),
       [Select(Some(id))])
  }

  /** Whether `p` is more than the threshold away from `q` on some axis. */
  predicate BeyondThreshold(p: Point, q: Point) {
    Abs(p.0 - q.0) > Threshold || Abs(p.1 - q.1) > Threshold
  }

  /** `handleGlobalMouseMove`: crossing the threshold starts the drag; once
      started, the pointer is buffered and a frame is requested only if the
      token is clear. */
  function MouseMove(s: Session, p: Point): (r: Session)
    ensures !Captured(s) ==> r == s
    ensures !s.started && !BeyondThreshold(p, s.initialPointer) ==> r == s
    ensures Captured(s) && (s.started || BeyondThreshold(p, s.initialPointer)) ==>
      && r.started && r.lastPointer == Some(p)
      && r.isDragging == (s.isDragging || !s.started)
      && (s.frameToken ==> r.frameToken && r.frameQueued == s.frameQueued)
      && (!s.frameToken ==> r.frameToken && r.frameQueued)
    ensures r.dragElement == s.dragElement && r.snapshot == s.snapshot
    ensures r.dragOffset == s.dragOffset && r.initialPointer == s.initialPointer
    ensures r.visualPos == s.visualPos
    ensures s.started ==> r.started
  {
    if !Captured(s) then s
    else
      var s1 := if !s.started && BeyondThreshold(p, s.initialPointer)
                then s.(isDragging := true, started := true) else s;
      if !s1.started then s
      else
        var s2 := s1.(lastPointer := Some(p));
        if s2.frameToken then s2 else s2.(frameToken := true, frameQueued := true)
  }

  /** The width used to clamp a grabbed element: `width || 100`. */
  function DragWidth(e: Element): (w: real)
    ensures e.width.Some? && e.width.value != 0.0 ==> w == e.width.value
    ensures e.width.None? || e.width.value == 0.0 ==> w == FallbackWidth
  {
    NumberOr(e.width, FallbackWidth)
  }

  /** The height used to clamp a grabbed element: `height || 40`. */
  function DragHeight(e: Element): (h: real)
    ensures e.height.Some? && e.height.value != 0.0 ==> h == e.height.value
    ensures e.height.None? || e.height.value == 0.0 ==> h == FallbackHeight
  {
    NumberOr(e.height, FallbackHeight)
  }

  /** `Math.max(0, Math.min(limit, v))`. */
  function ClampCoordinate(v: real, limit: real): (r: real)
    ensures 0.0 <= r <= Max(0.0, limit)
    ensures 0.0 <= v <= limit ==> r == v
    ensures v < 0.0 ==> r == 0.0
    ensures v > limit ==> r == Max(0.0, limit)
  {
    Max(0.0, Min(limit, v))
  }

  /** The logical position the mouse requests: the pixel position relative
      to the canvas, less the grab offset, divided by the scale. */
  function RequestedPosition(pointer: Point, canvasOrigin: Point, offset: Point, scale: real): (r: Point)
    requires scale != 0.0
    ensures Scaled(r.0, scale) + canvasOrigin.0 + offset.0 == pointer.0
    ensures Scaled(r.1, scale) + canvasOrigin.1 + offset.1 == pointer.1
  {
    ((pointer.0 - canvasOrigin.0 - offset.0) / scale,
     (pointer.1 - canvasOrigin.1 - offset.1) / scale)
  }

  /** `updateElementPosition`, the frame callback: early returns keep the
      token; a completed run writes the clamped position (in pixels) and
      clears the token. The canvas size is the live one. */
  function UpdateElementPosition(s: Session, env: Env, canvasOrigin: Option<Point>): (r: Session)
    requires env.scale != 0.0
    ensures s.lastPointer.None? || s.dragElement.None? || s.snapshot.None? || canvasOrigin.None? ==> r == s
    ensures s.lastPointer.Some? && s.dragElement.Some? && s.snapshot.Some? && canvasOrigin.Some? ==>
      var want := RequestedPosition(s.lastPointer.value, canvasOrigin.value, s.dragOffset, env.scale);
      var maxX := env.canvasWidth - DragWidth(s.snapshot.value);
      var maxY := env.canvasHeight - DragHeight(s.snapshot.value);
      && r == s.(visualPos := r.visualPos, frameToken := false)
      && r.visualPos.Some?
      && 0.0 <= r.visualPos.value.0 / env.scale <= Max(0.0, maxX)
      && 0.0 <= r.visualPos.value.1 / env.scale <= Max(0.0, maxY)
      && (0.0 <= want.0 <= maxX ==> r.visualPos.value.0 / env.scale == want.0)
      && (0.0 <= want.1 <= maxY ==> r.visualPos.value.1 / env.scale == want.1)
      && r.visualPos.value.0 / env.scale == ClampCoordinate(want.0, maxX)
      && r.visualPos.value.1 / env.scale == ClampCoordinate(want.1, maxY)
  {
    if s.lastPointer.None? || s.dragElement.None? || s.snapshot.None? then s
    else if canvasOrigin.None? then s
    else
      var want := RequestedPosition(s.lastPointer.value, canvasOrigin.value, s.dragOffset, env.scale);
      var x := ClampCoordinate(want.0, env.canvasWidth - DragWidth(s.snapshot.value));
      var y := ClampCoordinate(want.1, env.canvasHeight - DragHeight(s.snapshot.value));
      PixelsRoundTrip(x, env.scale);
      PixelsRoundTrip(y, env.scale);
      s.(visualPos := Some((Scaled(x, env.scale), Scaled(y, env.scale))), frameToken := false)
  }

  lemma PixelsRoundTrip(v: real, scale: real)
    requires scale != 0.0
    ensures Scaled(v, scale) / scale == v
  {
  }

  /** `parseFloat(style.left) || 0` and the same for `top`. */
  function CommittedPixels(s: Session): Point {
    if s.visualPos.Some? then s.visualPos.value else (0.0, 0.0)
  }

  /** `handleGlobalMouseUp`: cancels any requested frame; if a drag really
      started, commits the last applied inline position once, converted to
      logical units and rounded by `round2`, and schedules a reselect of the
      same id; in every case the session ends reset. */
  function MouseUp(c: Controller, env: Env, round2: real -> real): (r: Transition)
    requires env.scale != 0.0
    ensures IsReset(r.controller.session)
    ensures r.controller.session.initialPointer == c.session.initialPointer
    ensures |r.commands| <= 1
    ensures r.commands != [] <==> Captured(c.session) && c.session.started
    ensures r.commands == [] ==> r.controller.reselects == c.reselects
    ensures r.commands != [] ==>
      var id := c.session.dragElement.value;
      var px := CommittedPixels(c.session);
      && r.commands[0] == Update(id, PositionPatch(round2(px.0 / env.scale), round2(px.1 / env.scale)))
      && r.controller.reselects == c.reselects + [id]
  {
    var s := c.session.(frameToken := false, frameQueued := false);
    if !Captured(s) then Transition(Controller(ResetDragState(s), c.reselects), [])
    else if s.started then
      var id := s.dragElement.value;
      var px := CommittedPixels(s);
      var x := round2(px.0 / env.scale);
      var y := round2(px.1 / env.scale);
      Transition(Controller(ResetDragState(s), c.reselects + [id]), [Update(id, PositionPatch(x, y))])
    else Transition(Controller(ResetDragState(s), c.reselects), [])
  }

  /** One input to the gesture. Frames run only when one was requested and
      not cancelled; timers fire in the order they were set. */
  function Step(c: Controller, env: Env, round2: real -> real, ev: Event): (r: Transition)
    requires env.scale != 0.0
    ensures (ev.Down? || ev.Move?) ==> r.controller.reselects == c.reselects
    ensures ev.Frame? ==>
      && r.commands == []
      && !r.controller.session.frameQueued
      && r.controller.reselects == c.reselects
    ensures ev.Frame? && !c.session.frameQueued ==> r.controller == c
    ensures ev.Timer? ==> r.controller.session == c.session
    ensures ev.Timer? && |c.reselects| == 0 ==> r == Transition(c, [])
    ensures ev.Timer? && |c.reselects| > 0 ==>
      && r.commands == [Select(Some(c.reselects[0]))]
      && r.controller.reselects == c.reselects[1..]
  {
    match ev
    case Down(id, element, onCanvas, elementOrigin, pointer, stylePos) =>
      var (s, cmds) := MouseDown(c.session, id, element, onCanvas, elementOrigin, pointer, stylePos);
      Transition(c.(session := s), cmds)
    case Move(p) =>
      Transition(c.(session := MouseMove(c.session, p)), [])
    case Frame(canvasOrigin) =>
      if !c.session.frameQueued then Transition(c, [])
      else Transition(c.(session := UpdateElementPosition(c.session.(frameQueued := false), env, canvasOrigin)), [])
    case Up =>
      MouseUp(c, env, round2)
    case Timer =>
      if |c.reselects| == 0 then Transition(c, [])
      else Transition(c.(reselects := c.reselects[1..]), [Select(Some(c.reselects[0]))])
  }

  /** A step keeps the session facts of `Valid`; only `Down` and `Timer`
      select, and only `Up` updates. */
  lemma StepValid(c: Controller, env: Env, round2: real -> real, ev: Event)
    requires env.scale != 0.0
    requires Valid(c.session)
    ensures Valid(Step(c, env, round2, ev).controller.session)
    ensures !ev.Up? ==> forall k :: 0 <= k < |Step(c, env, round2, ev).commands| ==> Step(c, env, round2, ev).commands[k].Select?
  {
  }

  /** An input together with the live values at its time. */
  datatype Input = Input(env: Env, event: Event)

  /** Whether no input divides by a zero scale. */
  predicate ScalesNonZero(ins: seq<Input>) {
    forall k :: 0 <= k < |ins| ==> ins[k].env.scale != 0.0
  }

  /** Feeds a sequence of inputs, collecting every callback in order. */
  function Run(c: Controller, round2: real -> real, ins: seq<Input>): (r: Transition)
    requires ScalesNonZero(ins)
    requires Valid(c.session)
    ensures Valid(r.controller.session)
    decreases |ins|
  {
    if |ins| == 0 then Transition(c, [])
    else
      var t := Step(c, ins[0].env, round2, ins[0].event);
      StepValid(c, ins[0].env, round2, ins[0].event);
      var rest := Run(t.controller, round2, ins[1..]);
      Transition(rest.controller, t.commands + rest.commands)
  }

  lemma ScalesAppend(a: seq<Input>, b: seq<Input>)
    requires ScalesNonZero(a) && ScalesNonZero(b)
    ensures ScalesNonZero(a + b)
  {
    forall k | 0 <= k < |a + b| ensures (a + b)[k].env.scale != 0.0 {
      if k < |a| { assert (a + b)[k] == a[k]; } else { assert (a + b)[k] == b[k - |a|]; }
    }
  }

  /** Running two input sequences one after the other. */
  lemma {:induction false} RunAppend(c: Controller, round2: real -> real, a: seq<Input>, b: seq<Input>)
    requires ScalesNonZero(a) && ScalesNonZero(b)
    requires Valid(c.session)
    ensures ScalesNonZero(a + b)
    ensures Run(c, round2, a + b).controller == Run(Run(c, round2, a).controller, round2, b).controller
    ensures Run(c, round2, a + b).commands == Run(c, round2, a).commands + Run(Run(c, round2, a).controller, round2, b).commands
    decreases |a|
  {
    ScalesAppend(a, b);
    if |a| == 0 {
      assert a + b == b;
    } else {
      var t := Step(c, a[0].env, round2, a[0].event);
      StepValid(c, a[0].env, round2, a[0].event);
      var ab := a + b;
      assert ab[0] == a[0];
      assert ab[1..] == a[1..] + b;
      RunAppend(t.controller, round2, a[1..], b);
      var ra := Run(t.controller, round2, a[1..]);
      var rab := Run(t.controller, round2, a[1..] + b);
      var rb := Run(ra.controller, round2, b);
      assert Run(c, round2, ab) == Transition(rab.controller, t.commands + rab.commands);
      assert Run(c, round2, a) == Transition(ra.controller, t.commands + ra.commands);
      assert t.commands + rab.commands == (t.commands + ra.commands) + rb.commands;
    }
  }

  /** Inputs that leave an armed, not yet started gesture armed: moves within
      the threshold of the press, frames and timers. */
  predicate Quiet(i: Input, press: Point) {
    match i.event
    case Move(p) => !BeyondThreshold(p, press)
    case Frame(_) => true
    case Timer => true
    case _ => false
  }

  /** Whether no callback is a position update. */
  predicate NoUpdate(cs: seq<Command>) {
    forall k :: 0 <= k < |cs| ==> !cs[k].Update?
  }

  lemma {:induction false} QuietKeepsArmed(c: Controller, round2: real -> real, ins: seq<Input>, press: Point)
    requires ScalesNonZero(ins) && Valid(c.session)
    requires !c.session.started && c.session.initialPointer == press
    requires forall k :: 0 <= k < |ins| ==> Quiet(ins[k], press)
    ensures !Run(c, round2, ins).controller.session.started
    ensures Run(c, round2, ins).controller.session.initialPointer == press
    ensures NoUpdate(Run(c, round2, ins).commands)
    decreases |ins|
  {
    if |ins| > 0 {
      var t := Step(c, ins[0].env, round2, ins[0].event);
      StepValid(c, ins[0].env, round2, ins[0].event);
      assert Quiet(ins[0], press);
      assert !t.controller.session.started && t.controller.session.initialPointer == press;
      QuietKeepsArmed(t.controller, round2, ins[1..], press);
    }
  }

  /** A press on the canvas, any moves that stay within the threshold (with
      frames and timers in between) and a release make no position update: a
      plain click only selects. */
  lemma ClickCommitsNothing(c: Controller, round2: real -> real, down: Input, quiet: seq<Input>, up: Input)
    requires Valid(c.session)
    requires down.event.Down? && down.event.onCanvas && down.env.scale != 0.0
    requires up.event.Up? && up.env.scale != 0.0
    requires ScalesNonZero(quiet)
    requires forall k :: 0 <= k < |quiet| ==> Quiet(quiet[k], down.event.pointer)
    ensures ScalesNonZero([down] + quiet + [up])
    ensures NoUpdate(Run(c, round2, [down] + quiet + [up]).commands)
  {
    RunSingle(c, round2, down);
    var t0 := Run(c, round2, [down]);
    StepValid(c, down.env, round2, down.event);
    QuietKeepsArmed(t0.controller, round2, quiet, down.event.pointer);
    RunAppend(c, round2, [down], quiet);
    var t1 := Run(c, round2, [down] + quiet);
    RunSingle(t1.controller, round2, up);
    RunAppend(c, round2, [down] + quiet, [up]);
    var q := Run(t0.controller, round2, quiet);
    assert t1.commands == [Select(Some(down.event.id))] + q.commands;
    assert Run(t1.controller, round2, [up]).commands == [];
    assert NoUpdate([Select(Some(down.event.id))] + q.commands);
  }

  lemma RunSingle(c: Controller, round2: real -> real, i: Input)
    requires Valid(c.session) && i.env.scale != 0.0
    ensures ScalesNonZero([i])
    ensures Run(c, round2, [i]) == Step(c, i.env, round2, i.event)
  {
    var t := Step(c, i.env, round2, i.event);
    StepValid(c, i.env, round2, i.event);
    assert [i][1..] == [];
    assert t.commands + [] == t.commands;
  }

  /** A release right after a completed frame commits that frame's clamped
      position (the pointer's requested position clamped per axis), rounded:
      inside [0, max(0, W - w)] x [0, max(0, H - h)] with
      the snapshot's size (or the 100 x 40 fallback) and the frame's canvas
      size, provided the scale has not changed in between. */
  lemma FrameThenReleaseCommitsClamped(c: Controller, env: Env, upEnv: Env, round2: real -> real, canvasOrigin: Point)
    requires env.scale != 0.0 && upEnv.scale == env.scale
    requires Valid(c.session) && c.session.frameQueued
    requires Captured(c.session) && c.session.started && c.session.lastPointer.Some?
    ensures var framed := Step(c, env, round2, Frame(Some(canvasOrigin))).controller;
      var up := Step(framed, upEnv, round2, Up);
      var snap := c.session.snapshot.value;
      var want := RequestedPosition(c.session.lastPointer.value, canvasOrigin, c.session.dragOffset, env.scale);
      exists x: real, y: real ::
        && x == ClampCoordinate(want.0, env.canvasWidth - DragWidth(snap))
        && y == ClampCoordinate(want.1, env.canvasHeight - DragHeight(snap))
        && 0.0 <= x <= Max(0.0, env.canvasWidth - DragWidth(snap))
        && 0.0 <= y <= Max(0.0, env.canvasHeight - DragHeight(snap))
        && up.commands == [Update(c.session.dragElement.value, PositionPatch(round2(x), round2(y)))]
  {
    var framed := Step(c, env, round2, Frame(Some(canvasOrigin))).controller;
    var v := framed.session.visualPos.value;
    var x := v.0 / env.scale;
    var y := v.1 / env.scale;
    assert CommittedPixels(framed.session) == v;
    var up := Step(framed, upEnv, round2, Up);
    assert up.commands == [Update(c.session.dragElement.value, PositionPatch(round2(x), round2(y)))];
  }

  /** A frame that returns early (the element has left the canvas) keeps the
      token with nothing queued, so no later move of the gesture requests a
      frame again: the element stops following the pointer until release. */
  lemma EarlyFrameBlocksLaterFrames(c: Controller, env: Env, round2: real -> real, p: Point)
    requires env.scale != 0.0
    requires Valid(c.session) && c.session.frameQueued
    ensures var s := Step(c, env, round2, Frame(None)).controller.session;
      s.frameToken && !s.frameQueued && !MouseMove(s, p).frameQueued
  {
  }

  /** A gesture from rest: the element sits at (95, 95) on screen, the canvas
      at the screen origin, the zoom is 2. Pressing at (100, 100) grabs it
      with offset (5, 5); a move to (150, 160) starts the drag; the frame
      places it at pixels (145, 155), that is logical (72.5, 77.5); release
      commits exactly that, rounded, then the timer reselects it. */
  lemma DragScenario(el: Element, round2: real -> real)
    requires el.width.None? && el.height.None?
    ensures var env := Env(500.0, 500.0, 2.0);
      var t1 := Step(Initial, env, round2, Down("e1", el, true, (95.0, 95.0), (100.0, 100.0), None));
      var t2 := Step(t1.controller, env, round2, Move((150.0, 160.0)));
      var t3 := Step(t2.controller, env, round2, Frame(Some((0.0, 0.0))));
      var t4 := Step(t3.controller, env, round2, Up);
      var t5 := Step(t4.controller, env, round2, Timer);
      && t1.commands == [Select(Some("e1"))]
      && t1.controller.session.dragOffset == (5.0, 5.0)
      && t2.controller.session.started && t2.controller.session.frameQueued
      && t3.controller.session.visualPos == Some((145.0, 155.0))
      && t4.commands == [Update("e1", PositionPatch(round2(72.5), round2(77.5)))]
      && IsReset(t4.controller.session)
      && t5.commands == [Select(Some("e1"))] && t5.controller.reselects == []
  {
    var env := Env(500.0, 500.0, 2.0);
    var t1 := Step(Initial, env, round2, Down("e1", el, true, (95.0, 95.0), (100.0, 100.0), None));
    var t2 := Step(t1.controller, env, round2, Move((150.0, 160.0)));
    var t3 := Step(t2.controller, env, round2, Frame(Some((0.0, 0.0))));
    assert t3.controller.session.visualPos.value.0 / 2.0 == 72.5;
    assert t3.controller.session.visualPos.value.1 / 2.0 == 77.5;
  }

  /** The size a new element is laid out with and the size its drag is
      clamped with disagree for three kinds: a button stores no width (laid
      out 120 wide, clamped as 100), a text stores no height (20 vs 40), a
      graphic stores neither (32 x 32 vs 100 x 40). Only an input agrees. */
  lemma FactoryAndDragSizes(canvasWidth: real, canvasHeight: real, id: string)
    ensures var e := CreateElement("button", canvasWidth, canvasHeight, id).value;
      DragWidth(e) == 100.0 && ElementDimensions("button").width == 120.0
      && DragHeight(e) == ElementDimensions("button").height
    ensures var e := CreateElement("text", canvasWidth, canvasHeight, id).value;
      DragHeight(e) == 40.0 && ElementDimensions("text").height == 20.0
      && DragWidth(e) == ElementDimensions("text").width
    ensures var e := CreateElement("svg", canvasWidth, canvasHeight, id).value;
      DragWidth(e) == 100.0 && DragHeight(e) == 40.0 && ElementDimensions("svg") == Dimensions(32.0, 32.0)
    ensures var e := CreateElement("input", canvasWidth, canvasHeight, id).value;
      DragWidth(e) == ElementDimensions("input").width && DragHeight(e) == ElementDimensions("input").height
  {
  }

  /** A new button on a 500-wide canvas dragged far to the right stops at
      x = 400, where its 120-wide layout box overhangs the canvas by 20. */
  lemma ButtonDraggedRightOverhangs(id: string, round2: real -> real)
    requires id != ""
    ensures var b := CreateElement("button", 500.0, 500.0, id).value;
      var env := Env(500.0, 500.0, 1.0);
      var t1 := Step(Initial, env, round2, Down(id, b, true, (b.x, b.y), (b.x, b.y), None));
      var t2 := Step(t1.controller, env, round2, Move((1000.0, b.y)));
      var t3 := Step(t2.controller, env, round2, Frame(Some((0.0, 0.0))));
      && t3.controller.session.visualPos == Some((400.0, b.y))
      && 400.0 + ElementDimensions("button").width > 500.0
  {
  }
}
