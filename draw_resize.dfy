/**
 * The size computation of `_elementToCanvas` in jquery.draw.js: from an element's own
 * dimensions and the caller's resize options to the width and height of the canvas the
 * element is drawn onto. The clamp to `maxWidth` / `maxHeight` is written back into the
 * caller's options object, so the options are a class.
 */
module DrawResize {
  import opened Wrappers

  /** What the computation reads from the element: `item.width`, `$item.width()`, the video size. */
  datatype Item = Item(
    isVideo: bool,
    width: real, height: real,              // `item.width`, `item.height` (0 when unset)
    cssWidth: real, cssHeight: real,        // `$item.width()`, `$item.height()`
    videoWidth: real, videoHeight: real)    // the intrinsic size of a video's current frame

  /** A snapshot of the resize options; a number option that is absent or null reads as 0. */
  datatype ResizeState = ResizeState(
    scale: Option<bool>,                    // None when the object has no `scale` key
    width: real, height: real, maxWidth: real, maxHeight: real)

  const NoResize := ResizeState(None, 0.0, 0.0, 0.0, 0.0)

  /** The caller's `resize` object. */
  class Resize {
    var scale: Option<bool>
    var width: real
    var height: real
    var maxWidth: real
    var maxHeight: real

    constructor ()
      ensures State() == NoResize
    {
      scale := None;
      width := 0.0;
      height := 0.0;
      maxWidth := 0.0;
      maxHeight := 0.0;
    }

    function State(): ResizeState
      reads this
    {
      ResizeState(scale, width, height, maxWidth, maxHeight)
    }
  }

  /** The canvas size handed to `$canvas.prop({width, height})`. */
  datatype Dims =
    | Finite(width: real, height: real)
    | DivideByZero     // both axes divided by a zero ratio: Infinity or NaN in JavaScript

  const EmptyVideo := JQueryError("HTMLVideoElement is empty!")

  /** JavaScript `a || b` on numbers, where 0 is falsy. */
  function Or(a: real, b: real): real {
    if a != 0.0 then a else b
  }

  /** `"scale" in resize && !resize.scale`: the branch that keeps no aspect ratio. */
  predicate NonScaling(r: ResizeState) {
    r.scale == Some(false)
  }

  /** The branch that raises: a video without frame dimensions, in the scaling branch. */
  predicate Fails(item: Item, r: ResizeState) {
    !NonScaling(r) && item.isVideo && item.videoWidth == 0.0 && item.videoHeight == 0.0
  }

  /** The size the scaling branch starts from: the video frame when a video is resized. */
  function Intrinsic(item: Item, r: ResizeState): (wh: (real, real)) {
    if item.isVideo && (r.width != 0.0 || r.height != 0.0) then (item.videoWidth, item.videoHeight)
    else (Or(item.width, item.cssWidth), Or(item.height, item.cssHeight))
  }

  /** The options after the `maxWidth` / `maxHeight` clamp, starting from size `(w, h)`. */
  function Clamp(r: ResizeState, w: real, h: real): (c: ResizeState)
    ensures c.scale == r.scale && c.maxWidth == r.maxWidth && c.maxHeight == r.maxHeight
    ensures c.width == (if r.maxWidth != 0.0 && Or(r.width, w) > r.maxWidth then r.maxWidth else r.width)
    ensures c.height == (if r.maxHeight != 0.0 && Or(r.height, h) > r.maxHeight then r.maxHeight else r.height)
  {
    var rw := if r.maxWidth != 0.0 && Or(r.width, w) > r.maxWidth then r.maxWidth else r.width;
    var rh := if r.maxHeight != 0.0 && Or(r.height, h) > r.maxHeight then r.maxHeight else r.height;
    r.(width := rw, height := rh)
  }

  /** The ratio of a side to its target, 0 when the target is not positive. */
  function Ratio(side: real, target: real): real {
    if target > 0.0 then side / target else 0.0
  }

  /** The common divisor of both axes: the larger of the two ratios. */
  function Divisor(w: real, h: real, c: ResizeState): real {
    var rw := Ratio(w, c.width);
    var rh := Ratio(h, c.height);
    if rw > rh then rw else rh
  }

  /** The size `(w, h)` fitted to the clamped targets of `c`. */
  function Fit(w: real, h: real, c: ResizeState): Dims {
    if c.width != 0.0 || c.height != 0.0 then
      var d := Divisor(w, h, c);
      if d == 0.0 then DivideByZero else Finite(w / d, h / d)
    else Finite(w, h)
  }

  /** The canvas size `_elementToCanvas` computes. */
  function CanvasSize(item: Item, r: ResizeState): Result<Dims> {
    if NonScaling(r) then Ok(Finite(Or(r.width, Or(item.width, item.cssWidth)), Or(r.height, Or(item.height, item.cssHeight))))
    else if Fails(item, r) then Err(EmptyVideo)
    else
      var (w, h) := Intrinsic(item, r);
      Ok(Fit(w, h, Clamp(r, w, h)))
  }

  /** The caller's options after the call: clamped only when the scaling branch gets that far. */
  function AfterCall(item: Item, r: ResizeState): ResizeState {
    if NonScaling(r) || Fails(item, r) then r
    else
      var (w, h) := Intrinsic(item, r);
      Clamp(r, w, h)
  }

  /**
   * `_elementToCanvas(item, canvas, resize)` up to the drawing: the size of the canvas, and the
   * clamp written back into `resize` (a null `resize` is replaced by a fresh empty object).
   */
  method ElementToCanvas(item: Item, resize: Resize?) returns (res: Result<Dims>)
    modifies resize
    ensures resize == null ==> res == CanvasSize(item, NoResize)
    ensures resize != null ==> res == CanvasSize(item, old(resize.State()))
    ensures resize != null ==> resize.State() == AfterCall(item, old(resize.State()))
  {
    var r: Resize;
    if resize == null {
      r := new Resize();
    } else {
      r := resize;
    }
    ghost var r0 := r.State();
    var width: real, height: real;
    if r.scale == Some(false) {
      width := Or(r.width, Or(item.width, item.cssWidth));
      height := Or(r.height, Or(item.height, item.cssHeight));
      return Ok(Finite(width, height));
    }
    var isVideoResize := item.isVideo && (r.width != 0.0 || r.height != 0.0);
    if item.isVideo && item.videoWidth == 0.0 && item.videoHeight == 0.0 {
      return Err(EmptyVideo);
    }
    width := if isVideoResize then item.videoWidth else Or(item.width, item.cssWidth);
    height := if isVideoResize then item.videoHeight else Or(item.height, item.cssHeight);
    assert (width, height) == Intrinsic(item, r0);
    ghost var w0, h0 := width, height;
    if r.maxWidth != 0.0 && Or(r.width, width) > r.maxWidth {
      r.width := r.maxWidth;
    }
    if r.maxHeight != 0.0 && Or(r.height, height) > r.maxHeight {
      r.height := r.maxHeight;
    }
    assert r.State() == Clamp(r0, width, height);
    if r.width != 0.0 || r.height != 0.0 {
      var ratioWidth := 0.0;
      var ratioHeight := 0.0;
      if r.width > 0.0 {
        ratioWidth := width / r.width;
      }
      if r.height > 0.0 {
        ratioHeight := height / r.height;
      }
      var d := if ratioWidth > ratioHeight then ratioWidth else ratioHeight;
      assert d == Divisor(w0, h0, r.State());
      if d == 0.0 {
        return Ok(DivideByZero);
      }
      width := width / d;
      height := height / d;
    }
    res := Ok(Finite(width, height));
  }

  /** Without scaling, each side is its target when set, else the element's own size; no ratio is kept. */
  lemma NonScalingSides(item: Item, r: ResizeState)
    requires r.scale == Some(false)
    ensures CanvasSize(item, r).Ok?
    ensures var d := CanvasSize(item, r).value;
      d.Finite? &&
      d.width == (if r.width != 0.0 then r.width else if item.width != 0.0 then item.width else item.cssWidth) &&
      d.height == (if r.height != 0.0 then r.height else if item.height != 0.0 then item.height else item.cssHeight)
    ensures AfterCall(item, r) == r
  {
  }

  /** The clamp overwrites a target with its maximum exactly when the maximum is set and exceeded. */
  lemma ClampExact(item: Item, r: ResizeState)
    requires !NonScaling(r) && !Fails(item, r)
    ensures var (w, h) := Intrinsic(item, r);
      var c := AfterCall(item, r);
      (c.width == r.maxWidth || c.width == r.width) &&
      (c.width != r.width <==> r.maxWidth != 0.0 && Or(r.width, w) > r.maxWidth && r.width != r.maxWidth) &&
      (c.height != r.height <==> r.maxHeight != 0.0 && Or(r.height, h) > r.maxHeight && r.height != r.maxHeight) &&
      c.scale == r.scale && c.maxWidth == r.maxWidth && c.maxHeight == r.maxHeight
  {
  }

  lemma DivideKeepsRatio(w: real, h: real, d: real)
    requires d != 0.0
    ensures (w / d) * h == (h / d) * w
  {
    calc {
      (w / d) * h;
      == (w * h) / d;
      == (h * w) / d;
      == (h / d) * w;
    }
  }

  /** Both sides are divided by one number, so the canvas keeps the starting width:height ratio. */
  lemma {:induction false} AspectRatioKept(item: Item, r: ResizeState)
    requires !NonScaling(r)
    requires CanvasSize(item, r).Ok? && CanvasSize(item, r).value.Finite?
    ensures var (w, h) := Intrinsic(item, r);
      var d := CanvasSize(item, r).value;
      d.width * h == d.height * w
  {
    var (w, h) := Intrinsic(item, r);
    var c := Clamp(r, w, h);
    if c.width != 0.0 || c.height != 0.0 {
      DivideKeepsRatio(w, h, Divisor(w, h, c));
    }
  }

  lemma FitSide(side: real, target: real, d: real)
    requires side > 0.0 && target > 0.0 && d >= side / target
    ensures side / d <= target
    ensures d == side / target ==> side / d == target
  {
    assert side / target > 0.0;
    assert side <= d * target by {
      calc {
        side;
        == (side / target) * target;
        <= d * target;
      }
    }
  }

  /**
   * With both clamped targets positive, the canvas fits inside the target box and meets it
   * on the side whose ratio is larger.
   */
  lemma FitInBox(w: real, h: real, c: ResizeState)
    requires w > 0.0 && h > 0.0 && c.width > 0.0 && c.height > 0.0
    ensures Fit(w, h, c).Finite?
    ensures Fit(w, h, c).width <= c.width && Fit(w, h, c).height <= c.height
    ensures w / c.width > h / c.height ==> Fit(w, h, c).width == c.width
    ensures w / c.width <= h / c.height ==> Fit(w, h, c).height == c.height
  {
    var d := Divisor(w, h, c);
    assert w / c.width > 0.0 && h / c.height > 0.0;
    FitSide(w, c.width, d);
    FitSide(h, c.height, d);
  }

  /** With no target and no clamp triggered, the canvas takes the element's own size. */
  lemma NoTargetIsIntrinsic(item: Item, r: ResizeState)
    requires !NonScaling(r) && !Fails(item, r)
    requires r.width == 0.0 && r.height == 0.0
    requires var (w, h) := Intrinsic(item, r);
      !(r.maxWidth != 0.0 && w > r.maxWidth) && !(r.maxHeight != 0.0 && h > r.maxHeight)
    ensures CanvasSize(item, r) == Ok(Finite(Or(item.width, item.cssWidth), Or(item.height, item.cssHeight)))
    ensures AfterCall(item, r) == r
  {
  }

  /** A 1920x1080 image asked for width 960 comes out 960x540. */
  lemma HalfWidthExample()
    ensures CanvasSize(Item(false, 1920.0, 1080.0, 0.0, 0.0, 0.0, 0.0), ResizeState(None, 960.0, 0.0, 0.0, 0.0))
      == Ok(Finite(960.0, 540.0))
  {
    var c := Clamp(ResizeState(None, 960.0, 0.0, 0.0, 0.0), 1920.0, 1080.0);
    assert Divisor(1920.0, 1080.0, c) == 2.0;
  }

  /** A 100x100 image with `maxWidth: 50` comes out 50x50, and `resize.width` becomes 50. */
  lemma MaxWidthExample()
    ensures CanvasSize(Item(false, 100.0, 100.0, 0.0, 0.0, 0.0, 0.0), ResizeState(Some(true), 0.0, 0.0, 50.0, 0.0))
      == Ok(Finite(50.0, 50.0))
    ensures AfterCall(Item(false, 100.0, 100.0, 0.0, 0.0, 0.0, 0.0), ResizeState(Some(true), 0.0, 0.0, 50.0, 0.0))
      == ResizeState(Some(true), 50.0, 0.0, 50.0, 0.0)
  {
    var c := Clamp(ResizeState(Some(true), 0.0, 0.0, 50.0, 0.0), 100.0, 100.0);
    assert c.width == 50.0;
    assert Divisor(100.0, 100.0, c) == 2.0;
  }

  /**
   * `maxWidth` is no bound on the result: the clamp compares `width || intrinsic width` with
   * it before the height target scales the element, so a 40x40 image with `height` 100 and
   * `maxWidth` 50 comes out 100x100, and the caller's options keep `width` unset.
   */
  lemma MaxWidthExceeded()
    ensures CanvasSize(Item(false, 40.0, 40.0, 0.0, 0.0, 0.0, 0.0), ResizeState(None, 0.0, 100.0, 50.0, 0.0))
      == Ok(Finite(100.0, 100.0))
    ensures AfterCall(Item(false, 40.0, 40.0, 0.0, 0.0, 0.0, 0.0), ResizeState(None, 0.0, 100.0, 50.0, 0.0))
      == ResizeState(None, 0.0, 100.0, 50.0, 0.0)
  {
    var c := Clamp(ResizeState(None, 0.0, 100.0, 50.0, 0.0), 40.0, 40.0);
    assert c.width == 0.0 && c.height == 100.0;
    assert Divisor(40.0, 40.0, c) == 0.4;
  }

  /** In the scaling branch a video without frame dimensions raises and leaves the options alone. */
  lemma EmptyVideoRaises(item: Item, r: ResizeState)
    requires item.isVideo && item.videoWidth == 0.0 && item.videoHeight == 0.0
    requires r.scale != Some(false)
    ensures CanvasSize(item, r) == Err(JQueryError("HTMLVideoElement is empty!"))
    ensures AfterCall(item, r) == r
  {
  }
}
