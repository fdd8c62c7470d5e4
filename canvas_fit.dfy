/**
 * The canvas set up for a newly loaded image (`setupCanvas` in both editor
 * versions): the backing store keeps the image's own resolution, while the
 * on-screen size is scaled down, aspect ratio kept, to fit the container.
 */
module CanvasFit {

  /** A decoded image; decoders only deliver images of positive size. */
  datatype Image = Image(width: nat, height: nat)

  /** The canvas element: backing-store size (`canvas.width/height`) and CSS
      display size (`canvas.style.width/height`, in px). */
  datatype Canvas = Canvas(width: nat, height: nat, displayWidth: real, displayHeight: real)

  /** What the canvas is before any image: the HTML default of 300 x 150. */
  const InitialCanvas: Canvas := Canvas(300, 150, 300.0, 150.0)

  const SidePadding: real := 40.0
  const ViewportShare: real := 0.8

  /** The display bounds: container width minus 40 px, 80% of the viewport height. */
  function MaxDisplayWidth(containerWidth: real): real { containerWidth - SidePadding }
  function MaxDisplayHeight(viewportHeight: real): real { viewportHeight * ViewportShare }

  /** `(a * num) / den`, the proportional rescaling of the other side. */
  function Rescale(a: real, num: real, den: real): (r: real)
    requires den != 0.0
    ensures r * den == a * num
  {
    (a * num) / den
  }

  /** First step: shrink to the width bound if wider. */
  function FitWidth(w: real, h: real, maxW: real): (r: (real, real))
    requires w > 0.0
    ensures r.0 <= maxW || r == (w, h)
    ensures r.0 * h == r.1 * w
    ensures w <= maxW ==> r == (w, h)
    ensures w > maxW ==> r.0 == maxW
  {
    if w > maxW then (maxW, Rescale(h, maxW, w)) else (w, h)
  }

  /** Second step: shrink to the height bound if taller. */
  function FitHeight(w: real, h: real, maxH: real): (r: (real, real))
    requires maxH >= 0.0
    ensures r.1 <= maxH
    ensures h <= maxH ==> r == (w, h)
    ensures h > maxH ==> r.1 == maxH && r.0 * h == maxH * w
  {
    if h > maxH then (Rescale(w, maxH, h), maxH) else (w, h)
  }

  /** The canvas after `setupCanvas(img)`. */
  function Fit(img: Image, containerWidth: real, viewportHeight: real): (c: Canvas)
    requires img.width > 0 && img.height > 0
    requires viewportHeight >= 0.0
    ensures c.width == img.width && c.height == img.height
  {
    var maxW := MaxDisplayWidth(containerWidth);
    var maxH := MaxDisplayHeight(viewportHeight);
    var (w1, h1) := FitWidth(img.width as real, img.height as real, maxW);
    var (w2, h2) := FitHeight(w1, h1, maxH);
    Canvas(img.width, img.height, w2, h2)
  }

  lemma ShrinkWidth(w: real, h: real, maxH: real)
    requires h > maxH >= 0.0 && w >= 0.0
    ensures Rescale(w, maxH, h) <= w
  {
    var r := Rescale(w, maxH, h);
    assert r * h == w * maxH;
    assert w * maxH <= w * h;
    if r > w {
      assert r * h > w * h;
    }
  }

  lemma ScaledAspect(w0: real, h0: real, w1: real, h1: real, maxH: real)
    requires w0 > 0.0 && h0 > 0.0 && h1 > maxH >= 0.0
    requires w1 * h0 == h1 * w0
    ensures Rescale(w1, maxH, h1) * h0 == maxH * w0
  {
    var w2 := Rescale(w1, maxH, h1);
    assert w2 * h1 == w1 * maxH;
    assert w2 * h1 * h0 == w1 * h0 * maxH;
    assert w2 * h1 * h0 == h1 * w0 * maxH;
    assert (w2 * h0 - maxH * w0) * h1 == 0.0;
  }

  lemma PositiveAfterWidth(w: real, h: real, maxW: real, maxH: real)
    requires w > 0.0 && h > 0.0 && maxH >= 0.0
    requires FitWidth(w, h, maxW).1 > maxH
    ensures FitWidth(w, h, maxW).0 > 0.0
  {
    if w > maxW {
      var h1 := Rescale(h, maxW, w);
      assert h1 * w == h * maxW;
    }
  }

  /** What the fit promises: the backing store is the image, the display size
      keeps the image's aspect ratio and stays within both bounds, and is the
      image size itself when the image already fits. Once it is scaled, one of
      the two bounds is met exactly. */
  lemma FitProperties(img: Image, containerWidth: real, viewportHeight: real)
    requires img.width > 0 && img.height > 0
    requires viewportHeight >= 0.0
    ensures var c := Fit(img, containerWidth, viewportHeight);
            && c.width == img.width && c.height == img.height
            && c.displayWidth <= MaxDisplayWidth(containerWidth)
            && c.displayHeight <= MaxDisplayHeight(viewportHeight)
            && c.displayWidth * img.height as real == c.displayHeight * img.width as real
            && (img.width as real <= MaxDisplayWidth(containerWidth) && img.height as real <= MaxDisplayHeight(viewportHeight)
                ==> c.displayWidth == img.width as real && c.displayHeight == img.height as real)
            && (c.displayWidth == img.width as real
                || c.displayWidth == MaxDisplayWidth(containerWidth) || c.displayHeight == MaxDisplayHeight(viewportHeight))
  {
    var w, h := img.width as real, img.height as real;
    var maxW := MaxDisplayWidth(containerWidth);
    var maxH := MaxDisplayHeight(viewportHeight);
    var first := FitWidth(w, h, maxW);
    var second := FitHeight(first.0, first.1, maxH);
    assert Fit(img, containerWidth, viewportHeight) == Canvas(img.width, img.height, second.0, second.1);
    if first.1 > maxH {
      PositiveAfterWidth(w, h, maxW, maxH);
      ShrinkWidth(first.0, first.1, maxH);
      ScaledAspect(w, h, first.0, first.1, maxH);
    }
  }

  /** `setupCanvas`: reassign the local display size on each bound that is
      exceeded, then size the canvas. */
  method SetupCanvas(img: Image, containerWidth: real, viewportHeight: real) returns (c: Canvas)
    requires img.width > 0 && img.height > 0
    requires viewportHeight >= 0.0
    ensures c == Fit(img, containerWidth, viewportHeight)
    ensures c.width == img.width && c.height == img.height
    ensures c.displayWidth <= containerWidth - 40.0 && c.displayHeight <= 0.8 * viewportHeight
    ensures c.displayWidth * img.height as real == c.displayHeight * img.width as real
  {
    var maxWidth := containerWidth - 40.0;
    var maxHeight := viewportHeight * 0.8;
    var width := img.width as real;
    var height := img.height as real;
    ghost var first := FitWidth(width, height, maxWidth);
    if width > maxWidth {
      height := Rescale(height, maxWidth, width);
      width := maxWidth;
    }
    assert (width, height) == first;
    ghost var second := FitHeight(width, height, maxHeight);
    if height > maxHeight {
      width := Rescale(width, maxHeight, height);
      height := maxHeight;
    }
    assert (width, height) == second;
    c := Canvas(img.width, img.height, width, height);
    assert c == Fit(img, containerWidth, viewportHeight);
    FitProperties(img, containerWidth, viewportHeight);
  }
}
