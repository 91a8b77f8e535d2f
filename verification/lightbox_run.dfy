/**
 * The lightbox driven by an arbitrary sequence of DOM events, host property
 * assignments and Lit update cycles, and the invariants it keeps across them.
 */
module LightboxRun {
  import opened Wrappers
  import opened Lightbox

  /** Everything that can happen to a lightbox, one handler invocation each. */
  datatype Event =
    | WheelEvent(deltaY: real, clientX: real, clientY: real)
    | PointerDownEvent(pointerId: int, pointerType: string, button: int, clientX: real, clientY: real)
    | PointerMoveEvent(pointerId: int, clientX: real, clientY: real)
    | PointerUpEvent(pointerId: int)
    | TouchStartEvent(pageX: real)
    | TouchMoveEvent(pageX: real)
    | TouchEndEvent
    | KeyPressEvent(code: string, key: string)
    | RectDrawStart
    | RectDrawEnd
    | CloseClicked
    | LeftClicked
    | RightClicked
    | HostSetOpen(open: bool)
    | HostSetZoomKey(zoomKey: string)
    | HostSetZoomable(zoomable: bool)
    | HostSetDisableTouch(disableTouch: bool)
    | UpdateCycle(changed: set<string>)

  /** An event together with the layout measured while it is handled. */
  datatype Input = Input(event: Event, dom: Dom)

  /**
   * The invariant of the zoom engine: the scale stays in range, an unzoomed
   * view is centred, and a pan session is active exactly when a pointer is tracked.
   */
  predicate Valid(s: State) {
    && ZoomMin <= s.scale <= ZoomMax
    && (s.scale <= 1.0 ==> s.panX == 0.0 && s.panY == 0.0)
    && (s.panning <==> s.pointerId.Some?)
  }

  /** The wheel and pointer handlers: cursor-anchored zoom and drag-to-pan. */
  predicate IsPointerEvent(e: Event) {
    e.WheelEvent? || e.PointerDownEvent? || e.PointerMoveEvent? || e.PointerUpEvent?
  }

  /** The swipe handlers. */
  predicate IsTouchEvent(e: Event) {
    e.TouchStartEvent? || e.TouchMoveEvent? || e.TouchEndEvent?
  }

  /** A wheel or pointer handler: it keeps the invariant and dispatches nothing. */
  function PointerStep(s: State, e: Event, dom: Dom, exp: real -> Positive): (t: State)
    requires s.scale > 0.0 && IsPointerEvent(e)
    ensures Valid(s) ==> Valid(t)
  {
    match e
    case WheelEvent(dy, cx, cy) => Wheel(s, dy, cx, cy, dom, exp)
    case PointerDownEvent(id, ty, b, cx, cy) => PointerDown(s, id, ty, b, cx, cy)
    case PointerMoveEvent(id, cx, cy) => PointerMove(s, id, cx, cy, dom)
    case PointerUpEvent(id) => PointerUp(s, id)
  }

  /** A touch handler: it keeps the invariant and dispatches at most one signal. */
  function TouchStep(s: State, e: Event): (t: Transition)
    requires IsTouchEvent(e)
    ensures Valid(s) ==> Valid(t.state)
    ensures |t.signals| <= 1
    ensures e.TouchEndEvent? ==> t == TouchEnd(s)
  {
    match e
    case TouchStartEvent(x) => Transition(TouchStart(s, x), [])
    case TouchMoveEvent(x) => Transition(TouchMove(s, x), [])
    case TouchEndEvent => TouchEnd(s)
  }

  /**
   * The remaining handlers: keys, rectangle drawing, the buttons, the host's
   * property assignments and Lit's update cycle.
   */
  function ControlStep(s: State, e: Event, dom: Dom): (t: Transition)
    requires !IsPointerEvent(e) && !IsTouchEvent(e)
    ensures Valid(s) ==> Valid(t.state)
    ensures |t.signals| <= 1
  {
    match e
    case KeyPressEvent(code, key) => KeyPress(s, code, key)
    case RectDrawStart => Transition(s.(disableTouch := true), [])
    case RectDrawEnd => Transition(s.(disableTouch := false), [])
    case CloseClicked => Transition(s.(open := false), [])
    case LeftClicked => Transition(s, [Left])
    case RightClicked => Transition(s, [Right])
    case HostSetOpen(b) => Transition(s.(open := b), [])
    case HostSetZoomKey(k) => Transition(s.(zoomKey := k), [])
    case HostSetZoomable(b) => Transition(s.(zoomable := b), [])
    case HostSetDisableTouch(b) => Transition(s.(disableTouch := b), [])
    case UpdateCycle(changed) => Transition(Updated(s, changed, dom), [])
  }

  /** One handler invocation; every handler keeps the invariant and dispatches at most one signal. */
  function Step(s: State, e: Event, dom: Dom, exp: real -> Positive): (t: Transition)
    requires s.scale > 0.0
    ensures Valid(s) ==> Valid(t.state)
    ensures |t.signals| <= 1
  {
    if IsPointerEvent(e) then Transition(PointerStep(s, e, dom, exp), [])
    else if IsTouchEvent(e) then TouchStep(s, e)
    else ControlStep(s, e, dom)
  }

  /** Feeds `inputs` to the lightbox in order, collecting the navigation signals. */
  function Run(s: State, inputs: seq<Input>, exp: real -> Positive): (t: Transition)
    requires Valid(s)
    ensures Valid(t.state)
    ensures |t.signals| <= |inputs|
    decreases |inputs|
  {
    if inputs == [] then Transition(s, [])
    else
      var first := Step(s, inputs[0].event, inputs[0].dom, exp);
      var rest := Run(first.state, inputs[1..], exp);
      Transition(rest.state, first.signals + rest.signals)
  }

  lemma InitValid()
    ensures Valid(Init())
  {
  }

  /** From a fresh lightbox, after any sequence of events an unzoomed view is centred. */
  lemma UnzoomedIsCentred(inputs: seq<Input>, exp: real -> Positive)
    ensures Run(Init(), inputs, exp).state.scale == 1.0 ==>
              Run(Init(), inputs, exp).state.panX == 0.0 && Run(Init(), inputs, exp).state.panY == 0.0
    ensures ZoomMin <= Run(Init(), inputs, exp).state.scale <= ZoomMax
  {
    InitValid();
  }

  /**
   * A wheel step keeps the content point under the cursor fixed on both axes
   * whenever the pan clamp leaves the anchored pan alone: the content element
   * is missing, or the anchored pan already lies inside the box.
   */
  lemma WheelKeepsCursorPoint(s: State, deltaY: real, clientX: real, clientY: real,
                              dom: Dom, exp: real -> Positive)
    requires Valid(s)
    requires WheelApplies(s, deltaY, dom, exp)
    requires WheelTarget(s.scale, deltaY, exp) > 1.0
    requires Measurable(dom) ==>
               var next := WheelTarget(s.scale, deltaY, exp);
               && Abs(AnchorZoom(CursorX(dom.viewport.value, clientX), s.panX, s.scale, next)) <= MaxPanX(dom, next)
               && Abs(AnchorZoom(CursorY(dom.viewport.value, clientY), s.panY, s.scale, next)) <= MaxPanY(dom, next)
    ensures var r := Wheel(s, deltaY, clientX, clientY, dom, exp);
            var px := CursorX(dom.viewport.value, clientX);
            var py := CursorY(dom.viewport.value, clientY);
            && ContentUnder(px, r.panX, r.scale) == ContentUnder(px, s.panX, s.scale)
            && ContentUnder(py, r.panY, r.scale) == ContentUnder(py, s.panY, s.scale)
  {
  }

  /**
   * After clamping, scaled content at least as wide as the viewport still covers
   * it from edge to edge, and narrower content is centred; likewise vertically.
   */
  lemma ClampedContentCoversViewport(s: State, dom: Dom)
    requires Measurable(dom) && s.scale > 1.0
    ensures var r := ClampPan(s, dom);
            var w := dom.content.value.offsetWidth * s.scale;
            var vw := dom.viewport.value.clientWidth;
            && (w >= vw ==> r.panX - w / 2.0 <= -vw / 2.0 && vw / 2.0 <= r.panX + w / 2.0)
            && (w <= vw ==> r.panX == 0.0)
    ensures var r := ClampPan(s, dom);
            var h := dom.content.value.offsetHeight * s.scale;
            var vh := dom.viewport.value.clientHeight;
            && (h >= vh ==> r.panY - h / 2.0 <= -vh / 2.0 && vh / 2.0 <= r.panY + h / 2.0)
            && (h <= vh ==> r.panY == 0.0)
  {
  }

  /** Clamping twice is clamping once. */
  lemma ClampPanIdempotent(s: State, dom: Dom)
    ensures ClampPan(ClampPan(s, dom), dom) == ClampPan(s, dom)
  {
  }

  /** Running one input and then the rest is the same as running them all. */
  lemma RunCons(s: State, i: Input, rest: seq<Input>, exp: real -> Positive)
    requires Valid(s)
    ensures var first := Step(s, i.event, i.dom, exp);
            Run(s, [i] + rest, exp)
              == Transition(Run(first.state, rest, exp).state,
                            first.signals + Run(first.state, rest, exp).signals)
  {
    assert ([i] + rest)[1..] == rest;
  }

  /** One handler invocation in a measurable layout leaves the pan inside its box. */
  lemma StepKeepsBox(s: State, e: Event, dom: Dom, exp: real -> Positive)
    requires Valid(s) && Measurable(dom) && PanInBox(s, dom)
    ensures PanInBox(Step(s, e, dom, exp).state, dom)
  {
    var t := Step(s, e, dom, exp).state;
    if IsPointerEvent(e) {
      assert t == PointerStep(s, e, dom, exp);
    } else if IsTouchEvent(e) {
      assert t == TouchStep(s, e).state;
    } else if e.UpdateCycle? {
      assert t == Updated(s, e.changed, dom);
      if !ResetsZoom(s, e.changed) && ("_scale" in e.changed || "zoomable" in e.changed) {
        assert t == ClampPan(s, dom);
      }
    } else {
      assert t == ControlStep(s, e, dom).state;
      assert t.panX == s.panX && t.panY == s.panY && t.scale == s.scale;
    }
  }

  /**
   * However many events arrive, as long as the layout stays the same and can be
   * measured, a pan that starts inside its box stays there.
   */
  lemma {:induction false} RunKeepsBox(s: State, inputs: seq<Input>, dom: Dom, exp: real -> Positive)
    requires Valid(s) && Measurable(dom) && PanInBox(s, dom)
    requires forall i :: 0 <= i < |inputs| ==> inputs[i].dom == dom
    ensures PanInBox(Run(s, inputs, exp).state, dom)
    decreases |inputs|
  {
    if inputs != [] {
      StepKeepsBox(s, inputs[0].event, dom, exp);
      var next := Step(s, inputs[0].event, dom, exp).state;
      RunKeepsBox(next, inputs[1..], dom, exp);
    }
  }

  /** A new item assigned while open, followed by the update cycle, discards any zoom and pan. */
  lemma ZoomKeyChangeResets(s: State, key: string, dom: Dom, exp: real -> Positive)
    requires Valid(s) && s.open && s.zoomKey != key
    ensures var t := Run(s, [Input(HostSetZoomKey(key), dom), Input(UpdateCycle({"zoomKey"}), dom)], exp);
            t.state.scale == 1.0 && t.state.panX == 0.0 && t.state.panY == 0.0
            && !t.state.panning && t.signals == []
  {
    var i1, i2 := Input(HostSetZoomKey(key), dom), Input(UpdateCycle({"zoomKey"}), dom);
    var s1 := s.(zoomKey := key);
    var s2 := Updated(s1, {"zoomKey"}, dom);
    assert ResetsZoom(s1, {"zoomKey"});
    assert Step(s, i1.event, dom, exp) == Transition(s1, []);
    assert Step(s1, i2.event, dom, exp) == Transition(s2, []);
    RunCons(s1, i2, [], exp);
    assert [i2] + [] == [i2];
    assert Run(s1, [i2], exp) == Transition(s2, []);
    RunCons(s, i1, [i2], exp);
    assert [i1] + [i2] == [i1, i2];
  }

  /** Touch-start at `a`, touch-move to `b`, touch-end, on an unzoomed lightbox. */
  lemma SwipeRun(s: State, a: real, b: real, dom: Dom, exp: real -> Positive)
    requires Valid(s) && !s.disableTouch && s.scale == 1.0
    ensures var t := Run(s, [Input(TouchStartEvent(a), dom), Input(TouchMoveEvent(b), dom),
                             Input(TouchEndEvent, dom)], exp);
            t.state.translateX == Some(0.0) && t.signals == SwipeSignal(Some(b - a))
  {
    var i1, i2, i3 := Input(TouchStartEvent(a), dom), Input(TouchMoveEvent(b), dom), Input(TouchEndEvent, dom);
    var s1 := TouchStart(s, a);
    var s2 := TouchMove(s1, b);
    var t3 := TouchEnd(s2);
    assert Step(s, i1.event, dom, exp) == Transition(s1, []);
    assert Step(s1, i2.event, dom, exp) == Transition(s2, []);
    assert Step(s2, i3.event, dom, exp) == t3;
    assert t3.state.translateX == Some(0.0) && t3.signals == SwipeSignal(Some(b - a));
    RunCons(s2, i3, [], exp);
    assert [i3] + [] == [i3];
    assert Run(s2, [i3], exp) == t3;
    RunCons(s1, i2, [i3], exp);
    assert Run(s1, [i2] + [i3], exp) == t3;
    RunCons(s, i1, [i2] + [i3], exp);
    assert [i1] + ([i2] + [i3]) == [i1, i2, i3];
  }

  /** A swipe of 50 pixels to the left navigates to the next item; 40 to the right, to the previous one. */
  lemma SwipeScenarios(s: State, dom: Dom, exp: real -> Positive)
    requires Valid(s) && !s.disableTouch && s.scale == 1.0
    ensures var t := Run(s, [Input(TouchStartEvent(200.0), dom), Input(TouchMoveEvent(150.0), dom),
                             Input(TouchEndEvent, dom)], exp);
            t.signals == [Right] && t.state.translateX == Some(0.0)
    ensures var t := Run(s, [Input(TouchStartEvent(100.0), dom), Input(TouchMoveEvent(140.0), dom),
                             Input(TouchEndEvent, dom)], exp);
            t.signals == [Left] && t.state.translateX == Some(0.0)
  {
    SwipeRun(s, 200.0, 150.0, dom, exp);
    SwipeRun(s, 100.0, 140.0, dom, exp);
  }

  /** A swipe of exactly the threshold, either way, does not navigate. */
  lemma SwipeThresholdIsStrict(s: State)
    requires SwipeEnabled(s) && s.touchStartX.Some? && s.touchMoveX.Some?
    requires Abs(s.touchMoveX.value - s.touchStartX.value) == SwipeThreshold
    ensures TouchEnd(s).signals == []
  {
  }

  /** A pointer-up when no pointer was ever captured leaves the state exactly as it was. */
  lemma UntrackedPointerUpIsNoOp(s: State, id: int, dom: Dom, exp: real -> Positive)
    requires Valid(s) && !s.panning
    ensures Step(s, PointerUpEvent(id), dom, exp) == Transition(s, [])
  {
  }

  /**
   * Drawing a rectangle blocks starting a pan, a wheel zoom and swipes, but a pan
   * session already in progress keeps following its pointer.
   */
  lemma RectDrawOnlyBlocksNewGestures(s: State, id: int, cx: real, cy: real, dom: Dom)
    requires s.disableTouch && InSession(s, id) && s.scale > 1.0 && !Measurable(dom)
    ensures PointerMove(s, id, cx, cy, dom).panX == s.panOriginX + (cx - s.panStartX)
    ensures forall ty, b :: !CanStartPan(s, ty, b)
    ensures !WheelEnabled(s) && !SwipeEnabled(s)
  {
  }
}
