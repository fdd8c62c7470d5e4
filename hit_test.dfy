/**
 * Where a caption sits on the canvas: its wrapped lines, the padded box the
 * editor selects it by (and outlines it with), the topmost-first hit test of a
 * mouse-down, and the clamped anchor of a drag.
 */
module HitTest {
  import opened Wrappers
  import opened TextLayout
  import opened TextBoxes

  /** `ctx.measureText(s).width` with the caption font set to the given pixel
      size (`bold <size>px Impact, Arial Black, sans-serif`). */
  type Measure = (real, string) -> real

  const Padding: real := 10.0
  const LineSpacing: real := 1.2

  /** The width function for one font size. */
  function FontWidth(measure: Measure, fontSize: real): Width {
    t => measure(fontSize, t)
  }

  /** `textBox.maxWidth || canvas.width * 0.9`: a zero wrap width falls back
      to 90% of the backing width. */
  function WrapWidth(b: TextBox, canvasWidth: int): (w: real)
    ensures b.maxWidth != 0.0 ==> w == b.maxWidth
    ensures b.maxWidth == 0.0 ==> 10.0 * w == 9.0 * canvasWidth as real
  {
    if b.maxWidth == 0.0 then canvasWidth as real * 0.9 else b.maxWidth
  }

  /** The wrapped lines of a box. */
  function BoxLines(b: TextBox, canvasWidth: int, measure: Measure): seq<string> {
    Wrap(b.text, WrapWidth(b, canvasWidth), FontWidth(measure, b.fontSize as real))
  }

  datatype Rect = Rect(left: real, top: real, right: real, bottom: real)

  /** The padded bounding box of a caption: as wide as its widest line, as
      tall as `lines * fontSize * 1.2`, centred at the anchor, grown by 10 px
      on every side. The selection outline is drawn on the same rectangle. */
  function BoxRect(b: TextBox, canvasWidth: int, measure: Measure): (r: Rect)
    ensures r.left + r.right == 2.0 * b.x && r.top + r.bottom == 2.0 * b.y
    ensures r.right - r.left == Widest(BoxLines(b, canvasWidth, measure), FontWidth(measure, b.fontSize as real)) + 2.0 * Padding
    ensures r.bottom - r.top == |BoxLines(b, canvasWidth, measure)| as real * (b.fontSize as real * LineSpacing) + 2.0 * Padding
  {
    var lines := BoxLines(b, canvasWidth, measure);
    var lineWidth := Widest(lines, FontWidth(measure, b.fontSize as real));
    PaddedRect(b.x, b.y, lineWidth, BlockHeight(|lines|, b.fontSize as real))
  }

  /** `lines.length * (fontSize * 1.2)`. */
  function BlockHeight(lineCount: nat, fontSize: real): real {
    lineCount as real * (fontSize * LineSpacing)
  }

  /** The rectangle of the given size centred at `(x, y)`, grown by the padding. */
  function PaddedRect(x: real, y: real, width: real, height: real): (r: Rect)
    ensures r.right - r.left == width + 2.0 * Padding && r.bottom - r.top == height + 2.0 * Padding
    ensures r.left + r.right == 2.0 * x && r.top + r.bottom == 2.0 * y
  {
    Rect(x - width / 2.0 - Padding, y - height / 2.0 - Padding,
         x + width / 2.0 + Padding, y + height / 2.0 + Padding)
  }

  /** The four inclusive comparisons of the hit test. */
  predicate Inside(r: Rect, px: real, py: real) {
    px >= r.left && px <= r.right && py >= r.top && py <= r.bottom
  }

  predicate Hits(b: TextBox, canvasWidth: int, measure: Measure, px: real, py: real) {
    Inside(BoxRect(b, canvasWidth, measure), px, py)
  }

  /** The hit predicate for one cursor position. */
  function HitsAt(canvasWidth: int, measure: Measure, px: real, py: real): TextBox -> bool {
    b => Hits(b, canvasWidth, measure, px, py)
  }

  /** The index of the last box satisfying `hit`. */
  function LastWhere(boxes: seq<TextBox>, hit: TextBox -> bool): (r: Option<nat>)
    ensures r.Some? ==> r.value < |boxes| && hit(boxes[r.value])
    ensures r.Some? ==> forall j :: r.value < j < |boxes| ==> !hit(boxes[j])
    ensures r.None? ==> forall j :: 0 <= j < |boxes| ==> !hit(boxes[j])
    decreases |boxes|
  {
    if boxes == [] then None
    else if hit(boxes[|boxes| - 1]) then Some(|boxes| - 1)
    else LastWhere(boxes[..|boxes| - 1], hit)
  }

  /** The index of the topmost (last painted) box containing the point. */
  function Topmost(boxes: seq<TextBox>, canvasWidth: int, measure: Measure, px: real, py: real): (r: Option<nat>)
    ensures r.Some? ==> r.value < |boxes| && Hits(boxes[r.value], canvasWidth, measure, px, py)
    ensures r.Some? ==> forall j :: r.value < j < |boxes| ==> !Hits(boxes[j], canvasWidth, measure, px, py)
    ensures r.None? ==> forall j :: 0 <= j < |boxes| ==> !Hits(boxes[j], canvasWidth, measure, px, py)
  {
    var hit := HitsAt(canvasWidth, measure, px, py);
    var r := LastWhere(boxes, hit);
    assert forall j :: 0 <= j < |boxes| ==> hit(boxes[j]) == Hits(boxes[j], canvasWidth, measure, px, py);
    r
  }

  /** One step of the hit-test loop: wrap the caption at its font, find its
      widest line and test the padded box. */
  method BoxHit(b: TextBox, canvasWidth: int, measure: Measure, px: real, py: real) returns (inside: bool)
    ensures inside == Hits(b, canvasWidth, measure, px, py)
  {
    var width := FontWidth(measure, b.fontSize as real);
    var lines := WrapText(b.text, WrapWidth(b, canvasWidth), width);
    var totalHeight := BlockHeight(|lines|, b.fontSize as real);
    var maxLineWidth := MaxLineWidth(lines, width);
    inside := px >= b.x - maxLineWidth / 2.0 - Padding && px <= b.x + maxLineWidth / 2.0 + Padding
      && py >= b.y - totalHeight / 2.0 - Padding && py <= b.y + totalHeight / 2.0 + Padding;
  }

  /** The hit-test loop of `handleMouseDown`: from the last box to the first;
      the first box whose padded box contains the point wins. */
  method HitTest(boxes: seq<TextBox>, canvasWidth: int, measure: Measure, px: real, py: real) returns (hit: Option<nat>)
    ensures hit == Topmost(boxes, canvasWidth, measure, px, py)
    ensures hit.Some? ==> hit.value < |boxes| && Hits(boxes[hit.value], canvasWidth, measure, px, py)
    ensures hit.None? ==> forall j :: 0 <= j < |boxes| ==> !Hits(boxes[j], canvasWidth, measure, px, py)
  {
    ghost var test := HitsAt(canvasWidth, measure, px, py);
    var i := |boxes| - 1;
    assert boxes[..i + 1] == boxes;
    while i >= 0
      invariant -1 <= i < |boxes|
      invariant LastWhere(boxes, test) == LastWhere(boxes[..i + 1], test)
    {
      var inside := BoxHit(boxes[i], canvasWidth, measure, px, py);
      ghost var prefix := boxes[..i + 1];
      assert prefix[|prefix| - 1] == boxes[i] && prefix[..|prefix| - 1] == boxes[..i];
      assert inside == test(boxes[i]);
      if inside {
        return Some(i);
      }
      i := i - 1;
    }
    return None;
  }

  /** A caption with a non-negative font size is always hit at its own anchor. */
  lemma AnchorHits(b: TextBox, canvasWidth: int, measure: Measure)
    requires b.fontSize >= 0
    ensures Hits(b, canvasWidth, measure, b.x, b.y)
  {
    var lines := BoxLines(b, canvasWidth, measure);
    assert BlockHeight(|lines|, b.fontSize as real) >= 0.0;
  }

  /** A box just appended is on top: a click on its anchor selects it,
      whatever lies below. */
  lemma NewestHitAtAnchor(boxes: seq<TextBox>, b: TextBox, canvasWidth: int, measure: Measure)
    requires b.fontSize >= 0
    ensures Topmost(boxes + [b], canvasWidth, measure, b.x, b.y) == Some(|boxes|)
  {
    AnchorHits(b, canvasWidth, measure);
    assert (boxes + [b])[|boxes|] == b;
  }

  // ---------------------------------------------------------------------------
  // Dragging
  // ---------------------------------------------------------------------------

  /** `Math.max(0, Math.min(hi, v))`. */
  function Clamp(v: real, hi: real): (r: real)
    ensures r >= 0.0
    ensures 0.0 <= hi ==> r <= hi
    ensures 0.0 <= v <= hi ==> r == v
    ensures v < 0.0 ==> r == 0.0
    ensures 0.0 <= hi < v ==> r == hi
  {
    var m := if hi < v then hi else v;
    if m < 0.0 then 0.0 else m
  }

  datatype Point = Point(x: real, y: real)

  /** The grab offset recorded on mouse-down: cursor minus anchor. */
  function GrabOffset(b: TextBox, px: real, py: real): (o: Point)
    ensures b.x + o.x == px && b.y + o.y == py
  {
    Point(px - b.x, py - b.y)
  }

  /** The anchor a drag moves the box to: cursor minus grab offset, clamped
      into `[0, width] x [0, height]`. */
  function DragAnchor(px: real, py: real, offset: Point, canvasWidth: int, canvasHeight: int): (p: Point)
    requires canvasWidth >= 0 && canvasHeight >= 0
    ensures 0.0 <= p.x <= canvasWidth as real && 0.0 <= p.y <= canvasHeight as real
    ensures 0.0 <= px - offset.x <= canvasWidth as real ==> p.x + offset.x == px
    ensures 0.0 <= py - offset.y <= canvasHeight as real ==> p.y + offset.y == py
  {
    Point(Clamp(px - offset.x, canvasWidth as real), Clamp(py - offset.y, canvasHeight as real))
  }

  /** A drag target far outside the canvas lands exactly on the nearest edge. */
  lemma DragClampsToEdge(px: real, py: real, offset: Point, canvasWidth: int, canvasHeight: int)
    requires canvasWidth >= 0 && canvasHeight >= 0
    ensures var p := DragAnchor(px, py, offset, canvasWidth, canvasHeight);
            && (px - offset.x < 0.0 ==> p.x == 0.0)
            && (px - offset.x > canvasWidth as real ==> p.x == canvasWidth as real)
            && (py - offset.y < 0.0 ==> p.y == 0.0)
            && (py - offset.y > canvasHeight as real ==> p.y == canvasHeight as real)
  {
  }
}
