/**
 * The draw calls a redraw or an export would issue, as a list: the image,
 * then per caption line the outline strokes and the fill, and the dashed
 * outline of the selected caption in the interactive view. The component and
 * the standalone page differ only in their outline style.
 */
module Render {
  import opened Wrappers
  import opened TextLayout
  import opened TextBoxes
  import opened HitTest
  import opened CanvasFit

  /** Which implementation paints: the React component or the standalone page. */
  datatype Version = Component | Standalone

  datatype DrawOp =
    | ClearCanvas
    | DrawImage(width: real, height: real)
    | StrokeText(line: string, x: real, y: real)
    | FillText(line: string, x: real, y: real, color: string)
    | DashedRect(rect: Rect)

  /** The text outline: `lineWidth` and how many times each line is stroked
      (component: `max(6, size/6)`, twice; page: `max(4, size/8)`, once). */
  function StrokeWidth(v: Version, fontSize: real): (w: real)
    ensures v == Component ==> w >= 6.0 && w >= fontSize / 6.0 && (w == 6.0 || w == fontSize / 6.0)
    ensures v == Standalone ==> w >= 4.0 && w >= fontSize / 8.0 && (w == 4.0 || w == fontSize / 8.0)
  {
    match v
    case Component => Max(6.0, fontSize / 6.0)
    case Standalone => Max(4.0, fontSize / 8.0)
  }

  function StrokeCount(v: Version): nat {
    match v
    case Component => 2
    case Standalone => 1
  }

  /** `textBox.color || '#FFFFFF'`. */
  function FillColor(b: TextBox): string {
    if b.color == "" then DefaultColor else b.color
  }

  /** The geometry one caption is painted with. */
  datatype Placement = Placement(text: string, x: real, y: real, fontSize: real, wrapWidth: real, color: string)

  /** A length multiplied by a scale factor. */
  function Scale(a: real, s: real): real {
    a * s
  }

  /** Interactive view: the box's own coordinates and size. */
  function PreviewPlacement(b: TextBox, canvasWidth: int): Placement {
    Placement(b.text, b.x, b.y, b.fontSize as real, WrapWidth(b, canvasWidth), FillColor(b))
  }

  /** Export: position scaled per axis; font size and wrap width by the
      horizontal factor. */
  function ExportPlacement(b: TextBox, canvasWidth: int, scaleX: real, scaleY: real): (p: Placement)
    ensures p.x == b.x * scaleX && p.y == b.y * scaleY
    ensures p.fontSize == b.fontSize as real * scaleX && p.wrapWidth == WrapWidth(b, canvasWidth) * scaleX
    ensures scaleX == 1.0 && scaleY == 1.0 ==> p == PreviewPlacement(b, canvasWidth)
  {
    Placement(b.text, Scale(b.x, scaleX), Scale(b.y, scaleY), Scale(b.fontSize as real, scaleX),
              Scale(WrapWidth(b, canvasWidth), scaleX), FillColor(b))
  }

  /** The calls for one line: the strokes, then the fill. */
  function LineOps(line: string, x: real, y: real, color: string, v: Version): seq<DrawOp> {
    if v == Component then [StrokeText(line, x, y), StrokeText(line, x, y), FillText(line, x, y, color)]
    else [StrokeText(line, x, y), FillText(line, x, y, color)]
  }

  /** `lines.forEach((line, index) => ... startY + index * lineHeight ...)`. */
  function LinesOps(lines: seq<string>, x: real, y: real, lineHeight: real, color: string, v: Version): (ops: seq<DrawOp>)
    ensures TextOnly(ops)
    decreases |lines|
  {
    if lines == [] then []
    else
      var rest := LinesOps(lines[1..], x, y + lineHeight, lineHeight, color, v);
      TextOnlyAppend(LineOps(lines[0], x, y, color, v), rest);
      LineOps(lines[0], x, y, color, v) + rest
  }

  /** No call in the list draws a selection outline. */
  predicate NoOutline(ops: seq<DrawOp>) {
    forall i :: 0 <= i < |ops| ==> !ops[i].DashedRect?
  }

  /** Every call in the list strokes or fills text. */
  predicate TextOnly(ops: seq<DrawOp>) {
    forall i :: 0 <= i < |ops| ==> ops[i].StrokeText? || ops[i].FillText?
  }

  lemma TextOnlyAppend(a: seq<DrawOp>, b: seq<DrawOp>)
    requires TextOnly(a) && TextOnly(b)
    ensures TextOnly(a + b)
  {
    forall i | 0 <= i < |a + b| ensures (a + b)[i].StrokeText? || (a + b)[i].FillText? {
      if i >= |a| { assert (a + b)[i] == b[i - |a|]; }
    }
  }

  lemma NoOutlineAppend(a: seq<DrawOp>, b: seq<DrawOp>)
    ensures NoOutline(a + b) <==> NoOutline(a) && NoOutline(b)
  {
    if NoOutline(a) && NoOutline(b) {
      forall i | 0 <= i < |a + b| ensures !(a + b)[i].DashedRect? {
        if i >= |a| { assert (a + b)[i] == b[i - |a|]; }
      }
    }
    if NoOutline(a + b) {
      forall i | 0 <= i < |a| ensures !a[i].DashedRect? {
        assert (a + b)[i] == a[i];
      }
      forall i | 0 <= i < |b| ensures !b[i].DashedRect? {
        assert (a + b)[|a| + i] == b[i];
      }
    }
  }

  /** The y of the first baseline: the block of lines is centred on `y`. */
  function StartY(y: real, lineCount: nat, lineHeight: real): real {
    y - (lineCount as real * lineHeight) / 2.0 + lineHeight / 2.0
  }

  /** The wrapped lines of a placed caption. */
  function PaintLines(p: Placement, measure: Measure): seq<string> {
    Wrap(p.text, p.wrapWidth, FontWidth(measure, p.fontSize))
  }

  function LineHeight(p: Placement): real {
    p.fontSize * LineSpacing
  }

  function FirstBaseline(p: Placement, measure: Measure): real {
    StartY(p.y, |PaintLines(p, measure)|, LineHeight(p))
  }

  /** Paint one placed caption: per wrapped line its strokes and one fill,
      and never an outline. */
  function Paint(p: Placement, measure: Measure, v: Version): (ops: seq<DrawOp>)
    ensures |ops| == |PaintLines(p, measure)| * (StrokeCount(v) + 1)
    ensures TextOnly(ops) && NoOutline(ops)
  {
    LinesOpsLength(PaintLines(p, measure), p.x, FirstBaseline(p, measure), LineHeight(p), p.color, v);
    LinesOps(PaintLines(p, measure), p.x, FirstBaseline(p, measure), LineHeight(p), p.color, v)
  }

  /** `drawText(textBox, isSelected)` in the interactive view: the outline is
      drawn exactly when the caption is selected, last, around the rectangle
      the hit test accepts. */
  function DrawText(b: TextBox, isSelected: bool, canvasWidth: int, measure: Measure, v: Version): (ops: seq<DrawOp>)
    ensures NoOutline(ops) <==> !isSelected
    ensures isSelected ==> ops[|ops| - 1] == DashedRect(BoxRect(b, canvasWidth, measure))
  {
    var paint := Paint(PreviewPlacement(b, canvasWidth), measure, v);
    var outline := if isSelected then [DashedRect(BoxRect(b, canvasWidth, measure))] else [];
    NoOutlineAppend(paint, outline);
    assert isSelected ==> outline[0].DashedRect?;
    paint + outline
  }

  /** Every caption in list order; an outline appears exactly when some
      caption carries the selected id. */
  function DrawAll(boxes: seq<TextBox>, selected: Option<int>, canvasWidth: int, measure: Measure, v: Version): (ops: seq<DrawOp>)
    ensures NoOutline(ops) <==> forall j :: 0 <= j < |boxes| ==> selected != Some(boxes[j].id)
    decreases |boxes|
  {
    if boxes == [] then []
    else
      var first := DrawText(boxes[0], selected == Some(boxes[0].id), canvasWidth, measure, v);
      var rest := DrawAll(boxes[1..], selected, canvasWidth, measure, v);
      NoOutlineAppend(first, rest);
      assert forall j :: 1 <= j < |boxes| ==> boxes[1..][j - 1] == boxes[j];
      first + rest
  }

  /** `redrawCanvas`: clear, stretch the image over the backing store, paint
      every caption in list order. */
  function Redraw(c: Canvas, boxes: seq<TextBox>, selected: Option<int>, measure: Measure, v: Version): (ops: seq<DrawOp>)
    ensures |ops| >= 2 && ops[0] == ClearCanvas && ops[1] == DrawImage(c.width as real, c.height as real)
    ensures NoOutline(ops) <==> forall j :: 0 <= j < |boxes| ==> selected != Some(boxes[j].id)
  {
    var head := [ClearCanvas, DrawImage(c.width as real, c.height as real)];
    NoOutlineAppend(head, DrawAll(boxes, selected, c.width, measure, v));
    head + DrawAll(boxes, selected, c.width, measure, v)
  }

  /** `tempCanvas.width / canvas.width`. */
  function ExportScale(imageSize: nat, canvasSize: int): (s: real)
    requires canvasSize > 0
    ensures s * canvasSize as real == imageSize as real
    ensures imageSize == canvasSize ==> s == 1.0
  {
    imageSize as real / canvasSize as real
  }

  function ExportAll(boxes: seq<TextBox>, canvasWidth: int, scaleX: real, scaleY: real, measure: Measure, v: Version): (ops: seq<DrawOp>)
    ensures TextOnly(ops)
    decreases |boxes|
  {
    if boxes == [] then []
    else
      var first := Paint(ExportPlacement(boxes[0], canvasWidth, scaleX, scaleY), measure, v);
      var rest := ExportAll(boxes[1..], canvasWidth, scaleX, scaleY, measure, v);
      TextOnlyAppend(first, rest);
      first + rest
  }

  /** The full-resolution render of `downloadMeme` and `postMeme`: the image at
      its natural size, then every caption scaled by image size / backing size.
      After the image it only strokes and fills text: it never clears and never
      draws the selection outline. */
  function Export(img: Image, c: Canvas, boxes: seq<TextBox>, measure: Measure, v: Version): (ops: seq<DrawOp>)
    requires c.width > 0 && c.height > 0
    ensures |ops| >= 1 && ops[0] == DrawImage(img.width as real, img.height as real)
    ensures TextOnly(ops[1..])
  {
    var head := [DrawImage(img.width as real, img.height as real)];
    var rest := ExportAll(boxes, c.width, ExportScale(img.width, c.width), ExportScale(img.height, c.height), measure, v);
    assert (head + rest)[1..] == rest;
    head + rest
  }

  // ---------------------------------------------------------------------------
  // Properties of the draw list
  // ---------------------------------------------------------------------------

  /** Each line costs its strokes and one fill. */
  lemma {:induction false} LinesOpsLength(lines: seq<string>, x: real, y: real, lh: real, color: string, v: Version)
    ensures |LinesOps(lines, x, y, lh, color, v)| == |lines| * (StrokeCount(v) + 1)
    decreases |lines|
  {
    if lines != [] {
      LinesOpsLength(lines[1..], x, y + lh, lh, color, v);
    }
  }

  /** Operation `j` of line `i` in the draw list is operation `j` of that
      line painted alone at its baseline `y + i * lineHeight`. */
  lemma {:induction false} LinesOpAt(lines: seq<string>, x: real, y: real, lh: real, color: string, v: Version, i: nat, j: nat)
    requires i < |lines| && j <= StrokeCount(v)
    ensures var ops := LinesOps(lines, x, y, lh, color, v);
            && i * (StrokeCount(v) + 1) + j < |ops|
            && ops[i * (StrokeCount(v) + 1) + j] == LineOps(lines[i], x, Baseline(y, i, lh), color, v)[j]
    decreases i
  {
    var k := StrokeCount(v) + 1;
    var ops := LinesOps(lines, x, y, lh, color, v);
    var head := LineOps(lines[0], x, y, color, v);
    assert |head| == k;
    if i > 0 {
      var ops' := LinesOps(lines[1..], x, y + lh, lh, color, v);
      LinesOpAt(lines[1..], x, y + lh, lh, color, v, i - 1, j);
      assert ops == head + ops';
      IndexStep(i, k, y, lh);
      assert ops[i * k + j] == ops'[(i - 1) * k + j];
    }
  }

  /** Line `i` is stroked `StrokeCount(v)` times and then filled, all at
      `(x, y + i * lineHeight)`. */
  lemma LinesOpsAt(lines: seq<string>, x: real, y: real, lh: real, color: string, v: Version, i: nat)
    requires i < |lines|
    ensures var ops := LinesOps(lines, x, y, lh, color, v);
            var k := StrokeCount(v) + 1;
            && i * k + k <= |ops|
            && ops[i * k + k - 1] == FillText(lines[i], x, y + i as real * lh, color)
            && forall j :: i * k <= j < i * k + k - 1 ==> ops[j] == StrokeText(lines[i], x, y + i as real * lh)
  {
    var k := StrokeCount(v) + 1;
    var ops := LinesOps(lines, x, y, lh, color, v);
    var line := LineOps(lines[i], x, Baseline(y, i, lh), color, v);
    LinesOpAt(lines, x, y, lh, color, v, i, k - 1);
    forall j | i * k <= j < i * k + k - 1 ensures ops[j] == line[j - i * k] {
      LinesOpAt(lines, x, y, lh, color, v, i, j - i * k);
    }
  }

  /** The baseline of line `i`. */
  function Baseline(y: real, i: nat, lh: real): real {
    y + i as real * lh
  }

  lemma IndexStep(i: nat, k: nat, y: real, lh: real)
    requires i > 0
    ensures (i - 1) * k + k == i * k
    ensures Baseline(y + lh, i - 1, lh) == Baseline(y, i, lh)
  {
  }

  /** The baselines are spread evenly around the anchor: the first and the
      last lie symmetrically about `y`. */
  lemma BlockCentred(y: real, n: nat, lh: real)
    requires n >= 1
    ensures StartY(y, n, lh) + (StartY(y, n, lh) + (n - 1) as real * lh) == 2.0 * y
  {
    assert (n - 1) as real * lh == n as real * lh - lh;
  }

  /** The component outlines each line twice and the page once; per caption
      line the component issues three calls and the page two. */
  lemma VersionsDifferInStrokes(lines: seq<string>, x: real, y: real, lh: real, color: string)
    ensures |LinesOps(lines, x, y, lh, color, Component)| == 3 * |lines|
    ensures |LinesOps(lines, x, y, lh, color, Standalone)| == 2 * |lines|
  {
    LinesOpsLength(lines, x, y, lh, color, Component);
    LinesOpsLength(lines, x, y, lh, color, Standalone);
  }

  function ScaleOp(op: DrawOp, s: real): DrawOp {
    match op
    case StrokeText(line, x, y) => StrokeText(line, Scale(x, s), Scale(y, s))
    case FillText(line, x, y, color) => FillText(line, Scale(x, s), Scale(y, s), color)
    case _ => op
  }

  function ScaleOps(ops: seq<DrawOp>, s: real): (r: seq<DrawOp>)
    ensures |r| == |ops| && forall i :: 0 <= i < |ops| ==> r[i] == ScaleOp(ops[i], s)
  {
    seq(|ops|, i requires 0 <= i < |ops| => ScaleOp(ops[i], s))
  }

  lemma LineOpsScaled(line: string, x: real, y: real, color: string, v: Version, s: real)
    ensures LineOps(line, Scale(x, s), Scale(y, s), color, v) == ScaleOps(LineOps(line, x, y, color, v), s)
  {
    var r := ScaleOps(LineOps(line, x, y, color, v), s);
    assert forall i :: 0 <= i < |r| ==> r[i] == LineOps(line, Scale(x, s), Scale(y, s), color, v)[i];
  }

  lemma {:induction false} LinesOpsScaled(lines: seq<string>, x: real, y: real, lh: real, color: string, v: Version, s: real)
    ensures LinesOps(lines, Scale(x, s), Scale(y, s), Scale(lh, s), color, v) == ScaleOps(LinesOps(lines, x, y, lh, color, v), s)
    decreases |lines|
  {
    if lines != [] {
      var head := LineOps(lines[0], x, y, color, v);
      var tail := LinesOps(lines[1..], x, y + lh, lh, color, v);
      LinesOpsScaled(lines[1..], x, y + lh, lh, color, v, s);
      assert Scale(y, s) + Scale(lh, s) == Scale(y + lh, s);
      LineOpsScaled(lines[0], x, y, color, v, s);
      assert ScaleOps(head + tail, s) == ScaleOps(head, s) + ScaleOps(tail, s);
    }
  }

  /** Measured widths at font size `large` are `s` times those at `small`. */
  ghost predicate Proportional(measure: Measure, small: real, large: real, s: real) {
    forall t :: measure(large, t) == s * measure(small, t)
  }

  lemma StartYScaled(y: real, n: nat, lh: real, s: real)
    ensures StartY(Scale(y, s), n, Scale(lh, s)) == Scale(StartY(y, n, lh), s)
  {
    assert (n as real * (lh * s)) / 2.0 == ((n as real * lh) / 2.0) * s;
  }

  lemma WrapAtScale(text: string, ww: real, fs: real, measure: Measure, s: real)
    requires s > 0.0
    requires Proportional(measure, fs, Scale(fs, s), s)
    ensures Wrap(text, Scale(ww, s), FontWidth(measure, Scale(fs, s))) == Wrap(text, ww, FontWidth(measure, fs))
  {
    var large := Scale(fs, s);
    var width := FontWidth(measure, fs);
    var scaled := FontWidth(measure, large);
    forall t ensures scaled(t) == s * width(t) {
      assert measure(large, t) == s * measure(fs, t);
    }
    WrapScaled(text, ww, s, width, scaled);
    assert Scale(ww, s) == s * ww;
  }

  /** Scaling a placement keeps its lines and scales its baselines. */
  lemma LayoutScaled(p: Placement, q: Placement, measure: Measure, s: real)
    requires s > 0.0
    requires q == Placement(p.text, Scale(p.x, s), Scale(p.y, s), Scale(p.fontSize, s), Scale(p.wrapWidth, s), p.color)
    requires Proportional(measure, p.fontSize, q.fontSize, s)
    ensures PaintLines(q, measure) == PaintLines(p, measure)
    ensures LineHeight(q) == Scale(LineHeight(p), s)
    ensures FirstBaseline(q, measure) == Scale(FirstBaseline(p, measure), s)
  {
    WrapAtScale(p.text, p.wrapWidth, p.fontSize, measure, s);
    assert LineHeight(q) == Scale(LineHeight(p), s);
    StartYScaled(p.y, |PaintLines(p, measure)|, LineHeight(p), s);
  }

  /** Painting a placement whose position, font size and wrap width are all
      multiplied by `s` multiplies every drawn position by `s`. */
  lemma PaintPlacementScaled(p: Placement, q: Placement, measure: Measure, v: Version, s: real)
    requires s > 0.0
    requires q == Placement(p.text, Scale(p.x, s), Scale(p.y, s), Scale(p.fontSize, s), Scale(p.wrapWidth, s), p.color)
    requires Proportional(measure, p.fontSize, q.fontSize, s)
    ensures Paint(q, measure, v) == ScaleOps(Paint(p, measure, v), s)
  {
    LayoutScaled(p, q, measure, s);
    LinesOpsScaled(PaintLines(p, measure), p.x, FirstBaseline(p, measure), LineHeight(p), p.color, v, s);
  }

  /** When measured widths grow in proportion to the font size, painting a
      caption at scale `s` draws the same lines with every position multiplied
      by `s`: the export reproduces the preview's layout at any scale. */
  lemma PaintScaled(b: TextBox, canvasWidth: int, measure: Measure, v: Version, s: real)
    requires s > 0.0
    requires Proportional(measure, b.fontSize as real, ExportPlacement(b, canvasWidth, s, s).fontSize, s)
    ensures Paint(ExportPlacement(b, canvasWidth, s, s), measure, v)
            == ScaleOps(Paint(PreviewPlacement(b, canvasWidth), measure, v), s)
  {
    PaintPlacementScaled(PreviewPlacement(b, canvasWidth), ExportPlacement(b, canvasWidth, s, s), measure, v, s);
  }

  lemma {:induction false} ExportAllUnitScale(boxes: seq<TextBox>, canvasWidth: int, measure: Measure, v: Version)
    ensures ExportAll(boxes, canvasWidth, 1.0, 1.0, measure, v) == DrawAll(boxes, None, canvasWidth, measure, v)
    decreases |boxes|
  {
    if boxes != [] {
      ExportAllUnitScale(boxes[1..], canvasWidth, measure, v);
    }
  }

  /** Because the backing store keeps the image resolution, the export scale
      is 1: the exported image is the interactive view without the clearing
      and without the selection outline. */
  lemma ExportMatchesPreview(img: Image, c: Canvas, boxes: seq<TextBox>, selected: Option<int>, measure: Measure, v: Version)
    requires img.width > 0 && img.height > 0
    requires c.width == img.width && c.height == img.height
    ensures Export(img, c, boxes, measure, v) == Redraw(c, boxes, None, measure, v)[1..]
  {
    assert ExportScale(img.width, c.width) == 1.0;
    assert ExportScale(img.height, c.height) == 1.0;
    ExportAllUnitScale(boxes, c.width, measure, v);
  }
}
