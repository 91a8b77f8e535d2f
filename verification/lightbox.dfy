/**
 * The zoom / pan / swipe engine of the modal media viewer (the lightbox).
 *
 * The component's reactive properties form an immutable `State`; every DOM
 * event handler is a pure transition that returns the next state together with
 * the navigation signals (`lightbox:left` / `lightbox:right`) it dispatches.
 * DOM measurements are an explicit `Dom` input, with `None` for an element the
 * shadow root does not contain, and `Math.exp` is an arbitrary strictly positive
 * function supplied by the caller.
 */
module Lightbox {
  import opened Wrappers

  const ZoomMin: real := 1.0
  const ZoomMax: real := 8.0
  /** Wheel delta to zoom exponent: the factor is `exp(-deltaY * ZoomStep)`. */
  const ZoomStep: real := 0.0015
  /** A wheel step that changes the scale by less than this is ignored. */
  const MinScaleChange: real := 0.001
  /** A swipe must move strictly more than this many pixels to navigate. */
  const SwipeThreshold: real := 10.0

  type Positive = r: real | r > 0.0 witness 1.0

  /** The two navigation events the lightbox dispatches to its host. */
  datatype Nav = Left | Right

  /** `getBoundingClientRect()` and `clientWidth/Height` of the `#lightbox` viewport. */
  datatype Viewport = Viewport(left: real, top: real, width: real, height: real,
                               clientWidth: real, clientHeight: real)

  /** `offsetWidth/Height` of the unscaled `#zoom-content` element. */
  datatype Content = Content(offsetWidth: real, offsetHeight: real)

  datatype Dom = Dom(viewport: Option<Viewport>, content: Option<Content>)

  /**
   * The component state. `translateX` and the touch positions are `None` while
   * JavaScript would hold `undefined` or `NaN` in them (a touch-move before any
   * touch-start). The pan-drag origin fields are only read while `panning`.
   */
  datatype State = State(
    open: bool,
    translateX: Option<real>,
    disableTouch: bool,
    zoomable: bool,
    zoomKey: string,
    scale: real,
    panX: real,
    panY: real,
    panning: bool,
    pointerId: Option<int>,
    panStartX: real,
    panStartY: real,
    panOriginX: real,
    panOriginY: real,
    touchStartX: Option<real>,
    touchMoveX: Option<real>)

  /** The state a freshly constructed lightbox starts in. */
  function Init(): (s: State)
    ensures !s.open && s.scale == ZoomMin && s.panX == 0.0 && s.panY == 0.0
    ensures !s.panning && s.pointerId == None && s.translateX == Some(0.0)
    ensures !s.zoomable && !s.disableTouch && s.zoomKey == ""
    ensures s.touchStartX == None && s.touchMoveX == None
  {
    State(false, Some(0.0), false, false, "", 1.0, 0.0, 0.0, false, None,
          0.0, 0.0, 0.0, 0.0, None, None)
  }

  /** A state after a handler has run: the result and the signals dispatched. */
  datatype Transition = Transition(state: State, signals: seq<Nav>)

  function Max(a: real, b: real): real { if a >= b then a else b }
  function Min(a: real, b: real): real { if a <= b then a else b }
  function Abs(a: real): real { if a >= 0.0 then a else -a }

  /** `clampValue(value, min, max)`, i.e. `Math.min(max, Math.max(min, value))`. */
  function ClampValue(v: real, lo: real, hi: real): (r: real)
    ensures lo <= hi ==> lo <= r <= hi
    ensures lo <= v <= hi ==> r == v
    ensures lo <= hi && v < lo ==> r == lo
    ensures v > hi ==> r == hi
  {
    Min(hi, Max(lo, v))
  }

  // ---------------------------------------------------------------- pan clamp

  /** The largest pan offset along one axis: half the overhang of the scaled content. */
  function MaxPan(contentSize: real, scale: real, viewportSize: real): (m: real)
    ensures m >= 0.0
    ensures contentSize * scale >= viewportSize ==> 2.0 * m == contentSize * scale - viewportSize
    ensures contentSize * scale <= viewportSize ==> m == 0.0
  {
    Max((contentSize * scale - viewportSize) / 2.0, 0.0)
  }

  /** Both elements exist and all four sizes are positive, so `_clampPan` can bound the pan. */
  predicate Measurable(dom: Dom) {
    && dom.viewport.Some? && dom.content.Some?
    && dom.viewport.value.clientWidth > 0.0 && dom.viewport.value.clientHeight > 0.0
    && dom.content.value.offsetWidth > 0.0 && dom.content.value.offsetHeight > 0.0
  }

  function MaxPanX(dom: Dom, scale: real): real
    requires dom.viewport.Some? && dom.content.Some?
  {
    MaxPan(dom.content.value.offsetWidth, scale, dom.viewport.value.clientWidth)
  }

  function MaxPanY(dom: Dom, scale: real): real
    requires dom.viewport.Some? && dom.content.Some?
  {
    MaxPan(dom.content.value.offsetHeight, scale, dom.viewport.value.clientHeight)
  }

  /** The pan lies inside the clamp box for the current scale and measurements. */
  predicate PanInBox(s: State, dom: Dom)
    requires Measurable(dom)
  {
    Abs(s.panX) <= MaxPanX(dom, s.scale) && Abs(s.panY) <= MaxPanY(dom, s.scale)
  }

  /**
   * `_clampPan`: at scale 1 or below the pan is re-centred; otherwise, when the
   * layout can be measured, each pan axis is clamped into its box, and when it
   * cannot, the pan is left as it is.
   */
  function ClampPan(s: State, dom: Dom): (r: State)
    ensures r == s.(panX := r.panX, panY := r.panY)
    ensures s.scale <= 1.0 ==> r.panX == 0.0 && r.panY == 0.0
    ensures s.scale > 1.0 && !Measurable(dom) ==> r == s
    ensures s.scale > 1.0 && Measurable(dom) ==> PanInBox(r, dom)
    ensures s.scale > 1.0 && Measurable(dom) && PanInBox(s, dom) ==> r == s
    ensures s.scale > 1.0 && Measurable(dom) ==>
              && r.panX == ClampValue(s.panX, -MaxPanX(dom, s.scale), MaxPanX(dom, s.scale))
              && r.panY == ClampValue(s.panY, -MaxPanY(dom, s.scale), MaxPanY(dom, s.scale))
  {
    if s.scale <= 1.0 then
      s.(panX := 0.0, panY := 0.0)
    else if !Measurable(dom) then
      s
    else
      var mx := MaxPanX(dom, s.scale);
      var my := MaxPanY(dom, s.scale);
      s.(panX := ClampValue(s.panX, -mx, mx), panY := ClampValue(s.panY, -my, my))
  }

  /** `_resetZoom`: identity transform and no pan session. */
  function ResetZoom(s: State): (r: State)
    ensures r.scale == ZoomMin && r.panX == 0.0 && r.panY == 0.0
    ensures !r.panning && r.pointerId == None
    ensures r == s.(scale := r.scale, panX := r.panX, panY := r.panY,
                    panning := r.panning, pointerId := r.pointerId)
  {
    s.(scale := 1.0, panX := 0.0, panY := 0.0, panning := false, pointerId := None)
  }

  // -------------------------------------------------------------------- wheel

  /** The content coordinate (relative to the content centre, unscaled) shown at `pointer`. */
  function ContentUnder(pointer: real, pan: real, scale: real): real
    requires scale != 0.0
  {
    (pointer - pan) / scale
  }

  /** Scaling an offset by `next / prev` and then unscaling it by `next` unscales it by `prev`. */
  lemma ScaleRatio(d: real, prev: real, next: real)
    requires prev > 0.0 && next > 0.0
    ensures ((next / prev) * d) / next == d / prev
  {
    var k := next / prev;
    assert k * prev == next;
    calc {
      (k * d) / next;
      == { assert k * d == (d / prev) * next; }
      (d / prev) * next / next;
      ==
      d / prev;
    }
  }

  /**
   * The pan after zooming from `prev` to `next` around `pointer`: the content
   * point under the cursor stays under the cursor, and a cursor at the pan
   * offset leaves the pan where it is.
   */
  function AnchorZoom(pointer: real, pan: real, prev: real, next: real): (r: real)
    requires prev != 0.0
    ensures prev > 0.0 && next > 0.0 ==> ContentUnder(pointer, r, next) == ContentUnder(pointer, pan, prev)
    ensures pointer == pan ==> r == pan
  {
    var r := pointer - (next / prev) * (pointer - pan);
    if prev > 0.0 && next > 0.0 then
      ScaleRatio(pointer - pan, prev, next);
      assert pointer - r == (next / prev) * (pointer - pan);
      r
    else r
  }

  /** The cursor's offset from the viewport centre, horizontally and vertically. */
  function CursorX(rect: Viewport, clientX: real): real { clientX - rect.left - rect.width / 2.0 }
  function CursorY(rect: Viewport, clientY: real): real { clientY - rect.top - rect.height / 2.0 }

  /** The scale a wheel step aims for: the factor `exp(-deltaY * ZoomStep)` clamped into range. */
  function WheelTarget(scale: real, deltaY: real, exp: real -> Positive): (next: real)
    ensures ZoomMin <= next <= ZoomMax
  {
    ClampValue(scale * exp(-deltaY * ZoomStep), ZoomMin, ZoomMax)
  }

  /** The wheel handler applies: zooming is enabled and no rectangle is being drawn. */
  predicate WheelEnabled(s: State) {
    s.zoomable && !s.disableTouch
  }

  /** The state a wheel step produces before `_clampPan` runs. */
  function WheelZoom(s: State, deltaY: real, clientX: real, clientY: real,
                     rect: Viewport, exp: real -> Positive): (r: State)
    requires s.scale > 0.0
    ensures r == s.(scale := r.scale, panX := r.panX, panY := r.panY)
    ensures r.scale == WheelTarget(s.scale, deltaY, exp)
    ensures ContentUnder(CursorX(rect, clientX), r.panX, r.scale)
            == ContentUnder(CursorX(rect, clientX), s.panX, s.scale)
    ensures ContentUnder(CursorY(rect, clientY), r.panY, r.scale)
            == ContentUnder(CursorY(rect, clientY), s.panY, s.scale)
  {
    var next := WheelTarget(s.scale, deltaY, exp);
    s.(panX := AnchorZoom(CursorX(rect, clientX), s.panX, s.scale, next),
       panY := AnchorZoom(CursorY(rect, clientY), s.panY, s.scale, next),
       scale := next)
  }

  /** A wheel step changes the state: zooming is enabled, the scale moves enough and the viewport exists. */
  predicate WheelApplies(s: State, deltaY: real, dom: Dom, exp: real -> Positive) {
    && WheelEnabled(s)
    && Abs(WheelTarget(s.scale, deltaY, exp) - s.scale) >= MinScaleChange
    && dom.viewport.Some?
  }

  /**
   * `_handleWheel`: cursor-anchored zoom. It does nothing when zooming is
   * disabled, when the step would change the scale by less than
   * `MinScaleChange`, or when the viewport element is missing.
   */
  function Wheel(s: State, deltaY: real, clientX: real, clientY: real, dom: Dom,
                 exp: real -> Positive): (r: State)
    requires s.scale > 0.0
    ensures !WheelEnabled(s) ==> r == s
    ensures dom.viewport.None? ==> r == s
    ensures Abs(WheelTarget(s.scale, deltaY, exp) - s.scale) < MinScaleChange ==> r == s
    ensures WheelApplies(s, deltaY, dom, exp) ==>
              r.scale == WheelTarget(s.scale, deltaY, exp) && ZoomMin <= r.scale <= ZoomMax
    ensures r == s.(scale := r.scale, panX := r.panX, panY := r.panY)
    ensures WheelApplies(s, deltaY, dom, exp) && r.scale > 1.0 && Measurable(dom) ==> PanInBox(r, dom)
    ensures WheelApplies(s, deltaY, dom, exp) && r.scale <= 1.0 ==> r.panX == 0.0 && r.panY == 0.0
    ensures WheelApplies(s, deltaY, dom, exp) && r.scale > 1.0 ==>
              var ax := AnchorZoom(CursorX(dom.viewport.value, clientX), s.panX, s.scale, r.scale);
              var ay := AnchorZoom(CursorY(dom.viewport.value, clientY), s.panY, s.scale, r.scale);
              && (!Measurable(dom) ==> r.panX == ax && r.panY == ay)
              && (Measurable(dom) ==>
                    && r.panX == ClampValue(ax, -MaxPanX(dom, r.scale), MaxPanX(dom, r.scale))
                    && r.panY == ClampValue(ay, -MaxPanY(dom, r.scale), MaxPanY(dom, r.scale)))
  {
    if !WheelApplies(s, deltaY, dom, exp) then s
    else
      var z := WheelZoom(s, deltaY, clientX, clientY, dom.viewport.value, exp);
      ClampPan(z, dom)
  }

  // ----------------------------------------------------------------- pointers

  /** `_handlePointerDown`'s guard: a primary, non-touch press on zoomed, enabled content. */
  predicate CanStartPan(s: State, pointerType: string, button: int) {
    s.zoomable && !s.disableTouch && s.scale > 1.0 && pointerType != "touch" && button == 0
  }

  /** `_handlePointerDown`: starts a pan session recording the cursor and pan origins. */
  function PointerDown(s: State, pointerId: int, pointerType: string, button: int,
                       clientX: real, clientY: real): (r: State)
    ensures !CanStartPan(s, pointerType, button) ==> r == s
    ensures CanStartPan(s, pointerType, button) ==>
              && r.panning && r.pointerId == Some(pointerId)
              && r.panStartX == clientX && r.panStartY == clientY
              && r.panOriginX == s.panX && r.panOriginY == s.panY
    ensures r == s.(panning := r.panning, pointerId := r.pointerId,
                    panStartX := r.panStartX, panStartY := r.panStartY,
                    panOriginX := r.panOriginX, panOriginY := r.panOriginY)
  {
    if !CanStartPan(s, pointerType, button) then s
    else s.(panning := true, pointerId := Some(pointerId),
            panStartX := clientX, panStartY := clientY,
            panOriginX := s.panX, panOriginY := s.panY)
  }

  /** The event belongs to the active pan session. */
  predicate InSession(s: State, pointerId: int) {
    s.panning && s.pointerId == Some(pointerId)
  }

  /**
   * `_handlePointerMove`: while the session is active the pan follows the cursor
   * from the recorded origin and is then clamped.
   */
  function PointerMove(s: State, pointerId: int, clientX: real, clientY: real, dom: Dom): (r: State)
    ensures !InSession(s, pointerId) ==> r == s
    ensures r == s.(panX := r.panX, panY := r.panY)
    ensures InSession(s, pointerId) && s.scale > 1.0 && !Measurable(dom) ==>
              && r.panX == s.panOriginX + (clientX - s.panStartX)
              && r.panY == s.panOriginY + (clientY - s.panStartY)
    ensures InSession(s, pointerId) && s.scale > 1.0 && Measurable(dom) ==> PanInBox(r, dom)
    ensures InSession(s, pointerId) && s.scale <= 1.0 ==> r.panX == 0.0 && r.panY == 0.0
    ensures InSession(s, pointerId) && s.scale > 1.0 && Measurable(dom) ==>
              && r.panX == ClampValue(s.panOriginX + (clientX - s.panStartX), -MaxPanX(dom, s.scale), MaxPanX(dom, s.scale))
              && r.panY == ClampValue(s.panOriginY + (clientY - s.panStartY), -MaxPanY(dom, s.scale), MaxPanY(dom, s.scale))
  {
    if !InSession(s, pointerId) then s
    else ClampPan(s.(panX := s.panOriginX + (clientX - s.panStartX),
                     panY := s.panOriginY + (clientY - s.panStartY)), dom)
  }

  /**
   * `_handlePointerUp` (also bound to `pointercancel`): an event for another
   * pointer, or when no pointer is tracked, is ignored; the tracked pointer ends
   * the session.
   */
  function PointerUp(s: State, pointerId: int): (r: State)
    ensures s.pointerId != Some(pointerId) ==> r == s
    ensures s.pointerId == Some(pointerId) ==> !r.panning && r.pointerId == None
    ensures r == s.(panning := r.panning, pointerId := r.pointerId)
  {
    if s.pointerId != Some(pointerId) then s
    else s.(panning := false, pointerId := None)
  }

  // -------------------------------------------------------------------- touch

  /** Touch handlers apply only when no rectangle is drawn and the content is not zoomed. */
  predicate SwipeEnabled(s: State) {
    !s.disableTouch && s.scale <= 1.0
  }

  /** JavaScript subtraction where `undefined` operands give `NaN` (here `None`). */
  function Difference(a: Option<real>, b: Option<real>): (d: Option<real>)
    ensures d.Some? <==> a.Some? && b.Some?
    ensures d.Some? ==> b.value + d.value == a.value
  {
    if a.Some? && b.Some? then Some(a.value - b.value) else None
  }

  /** `_handleTouchStart`: records the start of a swipe. */
  function TouchStart(s: State, pageX: real): (r: State)
    ensures !SwipeEnabled(s) ==> r == s
    ensures SwipeEnabled(s) ==> r.touchStartX == Some(pageX) && r.touchMoveX == Some(pageX)
    ensures r == s.(touchStartX := r.touchStartX, touchMoveX := r.touchMoveX)
  {
    if !SwipeEnabled(s) then s
    else s.(touchStartX := Some(pageX), touchMoveX := Some(pageX))
  }

  /** `_handleTouchMove`: the slide offset follows the finger. */
  function TouchMove(s: State, pageX: real): (r: State)
    ensures !SwipeEnabled(s) ==> r == s
    ensures SwipeEnabled(s) && s.touchStartX.Some? ==>
              r.translateX.Some? && s.touchStartX.value + r.translateX.value == pageX
    ensures SwipeEnabled(s) && s.touchStartX.None? ==> r.translateX.None?
    ensures SwipeEnabled(s) ==> r.touchMoveX == Some(pageX)
    ensures r == s.(touchMoveX := r.touchMoveX, translateX := r.translateX)
  {
    if !SwipeEnabled(s) then s
    else s.(touchMoveX := Some(pageX), translateX := Difference(Some(pageX), s.touchStartX))
  }

  /** The navigation a finished swipe of `moved` pixels requests. */
  function SwipeSignal(moved: Option<real>): (signals: seq<Nav>)
    ensures |signals| <= 1
    ensures Right in signals <==> moved.Some? && moved.value < -SwipeThreshold
    ensures Left in signals <==> moved.Some? && moved.value > SwipeThreshold
  {
    if moved.Some? && moved.value < -SwipeThreshold then [Right]
    else if moved.Some? && moved.value > SwipeThreshold then [Left]
    else []
  }

  /**
   * `_handleTouchEnd`: snaps the slide back and navigates to the next item for a
   * leftward swipe, to the previous one for a rightward swipe.
   */
  function TouchEnd(s: State): (t: Transition)
    ensures !SwipeEnabled(s) ==> t == Transition(s, [])
    ensures SwipeEnabled(s) ==> t.state == s.(translateX := Some(0.0))
    ensures Right in t.signals <==>
              SwipeEnabled(s) && s.touchStartX.Some? && s.touchMoveX.Some?
              && s.touchMoveX.value - s.touchStartX.value < -SwipeThreshold
    ensures Left in t.signals <==>
              SwipeEnabled(s) && s.touchStartX.Some? && s.touchMoveX.Some?
              && s.touchMoveX.value - s.touchStartX.value > SwipeThreshold
    ensures |t.signals| <= 1
  {
    if !SwipeEnabled(s) then Transition(s, [])
    else Transition(s.(translateX := Some(0.0)), SwipeSignal(Difference(s.touchMoveX, s.touchStartX)))
  }

  // ---------------------------------------------------- keys, rect, lifecycle

  /** `_handleKeyPress`: Escape closes; the arrow keys navigate. */
  function KeyPress(s: State, code: string, key: string): (t: Transition)
    ensures code == "Escape" ==> t == Transition(s.(open := false), [])
    ensures code != "Escape" ==> t.state == s
    ensures code != "Escape" && (key == "ArrowRight" || key == "Right") ==> t.signals == [Right]
    ensures code != "Escape" && (key == "ArrowLeft" || key == "Left") ==> t.signals == [Left]
    ensures key !in {"ArrowRight", "Right", "ArrowLeft", "Left"} ==> t.signals == []
  {
    if code == "Escape" then Transition(s.(open := false), [])
    else if key == "ArrowRight" || key == "Right" then Transition(s, [Right])
    else if key == "ArrowLeft" || key == "Left" then Transition(s, [Left])
    else Transition(s, [])
  }

  /** `updated(changed)`: reset on opening or on a new item while open, then re-clamp. */
  predicate ResetsZoom(s: State, changed: set<string>) {
    ("open" in changed || "zoomKey" in changed) && s.open
  }

  function Updated(s: State, changed: set<string>, dom: Dom): (r: State)
    ensures ResetsZoom(s, changed) ==>
              r.scale == ZoomMin && r.panX == 0.0 && r.panY == 0.0 && !r.panning && r.pointerId == None
    ensures ResetsZoom(s, changed) ==>
              r == s.(scale := r.scale, panX := r.panX, panY := r.panY, panning := r.panning, pointerId := r.pointerId)
    ensures !ResetsZoom(s, changed) && "_scale" !in changed && "zoomable" !in changed ==> r == s
    ensures !ResetsZoom(s, changed) ==> r == s.(panX := r.panX, panY := r.panY)
    ensures !ResetsZoom(s, changed) && ("_scale" in changed || "zoomable" in changed) ==> r == ClampPan(s, dom)
  {
    var reset := if ResetsZoom(s, changed) then ResetZoom(s) else s;
    if "_scale" in changed || "zoomable" in changed then ClampPan(reset, dom) else reset
  }
}
