/**
 * The React editor component: its state as one value and every event handler
 * as a function from the old state to the new one, together with the
 * invariant they all keep.
 */
module Generator {
  import opened Wrappers
  import opened TextLayout
  import opened TextBoxes
  import opened HitTest
  import opened CanvasFit
  import Render

  /** `currentImage`, the canvas, `textBoxes`, `selectedTextBoxId`,
      `isDragging`, `dragOffset` and `nextId`. */
  datatype Editor = Editor(
    image: Option<Image>,
    canvas: Canvas,
    boxes: seq<TextBox>,
    selected: Option<int>,
    dragging: bool,
    offset: Point,
    nextId: int)

  const Initial: Editor := Editor(None, InitialCanvas, [], None, false, Point(0.0, 0.0), 1)

  /** What every handler preserves: ids are unique and below the counter, the
      selection names an existing box, captions exist only over a loaded
      image, and the backing store has the image's size. */
  ghost predicate Wellformed(e: Editor) {
    && UniqueIds(e.boxes)
    && IdsBelow(e.boxes, e.nextId)
    && (e.selected.Some? ==> HasId(e.boxes, e.selected.value))
    && (e.image.None? ==> e.boxes == [])
    && (e.image.Some? ==> && e.image.value.width > 0 && e.image.value.height > 0
                          && e.canvas.width == e.image.value.width
                          && e.canvas.height == e.image.value.height)
  }

  lemma InitialWellformed()
    ensures Wellformed(Initial)
  {
  }

  /** `img.onload` in `loadTemplate` and `handleImageUpload`. The drag flag
      and the id counter are left as they were. */
  function LoadImage(e: Editor, img: Image, containerWidth: real, viewportHeight: real): (r: Editor)
    requires img.width > 0 && img.height > 0 && viewportHeight >= 0.0
    ensures r.image == Some(img) && r.boxes == [] && r.selected == None
    ensures r.canvas == Fit(img, containerWidth, viewportHeight)
    ensures r.dragging == e.dragging && r.offset == e.offset && r.nextId == e.nextId
  {
    e.(image := Some(img), canvas := Fit(img, containerWidth, viewportHeight), boxes := [], selected := None)
  }

  /** `addTextBox`: with no image nothing happens; otherwise a default box is
      appended and selected and the counter moves on. */
  function AddTextBox(e: Editor): (r: Editor)
    ensures e.image.None? ==> r == e
    ensures e.image.Some? ==>
              && r.boxes == e.boxes + [NewBox(e.nextId, e.canvas.width, e.canvas.height)]
              && r.selected == Some(e.nextId) && r.nextId == e.nextId + 1
              && r.image == e.image && r.canvas == e.canvas
              && r.dragging == e.dragging && r.offset == e.offset
  {
    if e.image.None? then e
    else e.(boxes := e.boxes + [NewBox(e.nextId, e.canvas.width, e.canvas.height)],
            selected := Some(e.nextId), nextId := e.nextId + 1)
  }

  /** `updateTextBox(id, updates)`. */
  function UpdateTextBox(e: Editor, id: int, p: Patch): (r: Editor)
    ensures r == e.(boxes := UpdateAll(e.boxes, id, p))
  {
    e.(boxes := UpdateAll(e.boxes, id, p))
  }

  /** `removeTextBox(id)`. */
  function RemoveTextBox(e: Editor, id: int): (r: Editor)
    ensures r.boxes == Remove(e.boxes, id)
    ensures r.selected == SelectionAfterRemove(e.selected, id, Remove(e.boxes, id))
    ensures r.image == e.image && r.canvas == e.canvas && r.nextId == e.nextId
    ensures r.dragging == e.dragging && r.offset == e.offset
  {
    var rest := Remove(e.boxes, id);
    e.(boxes := rest, selected := SelectionAfterRemove(e.selected, id, rest))
  }

  /** A click on a caption's entry in the sidebar list selects it. */
  function Select(e: Editor, id: int): (r: Editor)
    ensures r.selected == Some(id) && r.boxes == e.boxes && r.image == e.image && r.nextId == e.nextId
    ensures r.canvas == e.canvas && r.dragging == e.dragging && r.offset == e.offset
  {
    e.(selected := Some(id))
  }

  /** `handleMouseDown` at canvas point `(px, py)`, as a specification. */
  function Press(e: Editor, px: real, py: real, measure: Measure): (r: Editor)
    ensures r.boxes == e.boxes && r.image == e.image && r.canvas == e.canvas && r.nextId == e.nextId
    ensures e.image.None? ==> r == e
  {
    if e.image.None? then e
    else match Topmost(e.boxes, e.canvas.width, measure, px, py)
      case Some(i) => e.(selected := Some(e.boxes[i].id), dragging := true, offset := GrabOffset(e.boxes[i], px, py))
      case None => e.(selected := None)
  }

  /** `handleMouseDown`: the reverse scan of the boxes. */
  method MouseDown(e: Editor, px: real, py: real, measure: Measure) returns (r: Editor)
    ensures r == Press(e, px, py, measure)
    ensures r.boxes == e.boxes && r.image == e.image && r.canvas == e.canvas && r.nextId == e.nextId
  {
    if e.image.None? {
      return e;
    }
    var hit := HitTest.HitTest(e.boxes, e.canvas.width, measure, px, py);
    if hit.Some? {
      var b := e.boxes[hit.value];
      r := e.(selected := Some(b.id), dragging := true, offset := GrabOffset(b, px, py));
    } else {
      r := e.(selected := None);
    }
  }

  /** The box the selection names, as `textBoxes.find(...)` does. */
  function SelectedIndex(e: Editor): (r: Option<nat>)
    ensures e.selected.None? ==> r.None?
    ensures e.selected.Some? ==> r == FindIndex(e.boxes, e.selected.value)
  {
    if e.selected.Some? then FindIndex(e.boxes, e.selected.value) else None
  }

  /** `handleMouseMove`: while dragging a selected box, move its anchor to the
      clamped cursor-minus-offset position. */
  function MouseMove(e: Editor, px: real, py: real): (r: Editor)
    ensures !e.dragging || SelectedIndex(e).None? ==> r == e
  {
    var idx := SelectedIndex(e);
    if !e.dragging || idx.None? then e
    else
      var anchor := DragAnchor(px, py, e.offset, e.canvas.width, e.canvas.height);
      UpdateTextBox(e, e.boxes[idx.value].id, MoveTo(anchor.x, anchor.y))
  }

  /** `handleMouseUp`. */
  function MouseUp(e: Editor): (r: Editor)
    ensures !r.dragging && r == e.(dragging := false)
  {
    e.(dragging := false)
  }

  /** What `redrawCanvas` paints: nothing before an image is loaded, and the
      selection outline only while a caption is selected. */
  function RedrawOps(e: Editor, measure: Measure): (ops: seq<Render.DrawOp>)
    ensures ops == [] <==> e.image.None?
    ensures e.image.Some? ==> (Render.NoOutline(ops) <==> forall j :: 0 <= j < |e.boxes| ==> e.selected != Some(e.boxes[j].id))
  {
    if e.image.None? then []
    else Render.Redraw(e.canvas, e.boxes, e.selected, measure, Render.Component)
  }

  /** What `downloadMeme` and `postMeme` render; `None` is the "Please upload
      an image first!" alert. */
  function ExportOps(e: Editor, measure: Measure): (r: Option<seq<Render.DrawOp>>)
    requires Wellformed(e)
    ensures r.None? <==> e.image.None?
    ensures r.Some? ==> Render.NoOutline(r.value)
  {
    if e.image.None? then None
    else Some(Render.Export(e.image.value, e.canvas, e.boxes, measure, Render.Component))
  }

  // ---------------------------------------------------------------------------
  // The invariant is kept by every handler
  // ---------------------------------------------------------------------------

  lemma LoadImageWellformed(e: Editor, img: Image, containerWidth: real, viewportHeight: real)
    requires img.width > 0 && img.height > 0 && viewportHeight >= 0.0
    requires Wellformed(e)
    ensures Wellformed(LoadImage(e, img, containerWidth, viewportHeight))
  {
  }

  lemma AddTextBoxWellformed(e: Editor)
    requires Wellformed(e)
    ensures Wellformed(AddTextBox(e))
  {
    if e.image.Some? {
      var r := AddTextBox(e);
      var n := |e.boxes|;
      assert r.boxes[n].id == e.nextId;
      assert HasId(r.boxes, e.nextId);
      forall i, j | 0 <= i < |r.boxes| && 0 <= j < |r.boxes| && r.boxes[i].id == r.boxes[j].id
        ensures i == j
      {
        if i < n && j < n {
          assert r.boxes[i] == e.boxes[i] && r.boxes[j] == e.boxes[j];
        }
      }
      forall i | 0 <= i < |r.boxes| ensures r.boxes[i].id < r.nextId {
        if i < n {
          assert r.boxes[i] == e.boxes[i];
        }
      }
    }
  }

  /** Editing never changes ids, so it keeps uniqueness and the selection. */
  lemma UpdateAllKeepsIds(boxes: seq<TextBox>, id: int, p: Patch)
    ensures var r := UpdateAll(boxes, id, p);
            |r| == |boxes| && forall i :: 0 <= i < |r| ==> r[i].id == boxes[i].id
  {
  }

  lemma UpdateTextBoxWellformed(e: Editor, id: int, p: Patch)
    requires Wellformed(e)
    ensures Wellformed(UpdateTextBox(e, id, p))
  {
    var r := UpdateTextBox(e, id, p);
    UpdateAllKeepsIds(e.boxes, id, p);
    if e.selected.Some? {
      var k :| 0 <= k < |e.boxes| && e.boxes[k].id == e.selected.value;
      assert r.boxes[k].id == e.selected.value;
    }
  }

  lemma RemoveTextBoxWellformed(e: Editor, id: int)
    requires Wellformed(e)
    ensures Wellformed(RemoveTextBox(e, id))
  {
    RemovePreservesUnique(e.boxes, id);
    RemoveIdsBelow(e.boxes, id, e.nextId);
    SelectionAfterRemoveValid(e.boxes, e.selected, id);
  }

  /** The list only offers the ids of existing boxes. */
  lemma SelectWellformed(e: Editor, id: int)
    requires Wellformed(e) && HasId(e.boxes, id)
    ensures Wellformed(Select(e, id))
  {
  }

  lemma PressWellformed(e: Editor, px: real, py: real, measure: Measure)
    requires Wellformed(e)
    ensures Wellformed(Press(e, px, py, measure))
  {
    if e.image.Some? {
      var hit := Topmost(e.boxes, e.canvas.width, measure, px, py);
      if hit.Some? {
        assert e.boxes[hit.value].id == e.boxes[hit.value].id;
      }
    }
  }

  lemma MouseMoveWellformed(e: Editor, px: real, py: real)
    requires Wellformed(e)
    ensures Wellformed(MouseMove(e, px, py))
  {
    var idx := SelectedIndex(e);
    if e.dragging && idx.Some? {
      var anchor := DragAnchor(px, py, e.offset, e.canvas.width, e.canvas.height);
      UpdateTextBoxWellformed(e, e.boxes[idx.value].id, MoveTo(anchor.x, anchor.y));
    }
  }

  lemma MouseUpWellformed(e: Editor)
    requires Wellformed(e)
    ensures Wellformed(MouseUp(e))
  {
  }

  // ---------------------------------------------------------------------------
  // What the handlers promise
  // ---------------------------------------------------------------------------

  /** Editing keeps the list's length and order, changes only the boxes that
      carry `id`, and an unknown id changes nothing. */
  lemma UpdateTextBoxEffect(e: Editor, id: int, p: Patch)
    ensures var r := UpdateTextBox(e, id, p);
            && |r.boxes| == |e.boxes|
            && (forall i :: 0 <= i < |e.boxes| && e.boxes[i].id != id ==> r.boxes[i] == e.boxes[i])
            && (forall i :: 0 <= i < |e.boxes| && e.boxes[i].id == id ==> r.boxes[i] == Apply(e.boxes[i], p))
            && (!HasId(e.boxes, id) ==> r == e)
  {
    var r := UpdateTextBox(e, id, p);
    if !HasId(e.boxes, id) {
      assert r.boxes == e.boxes;
    }
  }

  /** A press selects the topmost box under the cursor and grabs it at the
      cursor's offset from its anchor; a press on empty canvas clears the
      selection and leaves the drag flag as it was. */
  lemma PressSelectsTopmost(e: Editor, px: real, py: real, measure: Measure)
    requires e.image.Some?
    ensures var r := Press(e, px, py, measure);
            && r.boxes == e.boxes
            && (r.selected.None? <==> forall j :: 0 <= j < |e.boxes| ==> !Hits(e.boxes[j], e.canvas.width, measure, px, py))
            && (r.selected.None? ==> r.dragging == e.dragging && r.offset == e.offset)
            && (r.selected.Some? ==>
                  exists i :: && 0 <= i < |e.boxes| && e.boxes[i].id == r.selected.value
                              && Hits(e.boxes[i], e.canvas.width, measure, px, py)
                              && (forall j :: i < j < |e.boxes| ==> !Hits(e.boxes[j], e.canvas.width, measure, px, py))
                              && r.dragging && e.boxes[i].x + r.offset.x == px && e.boxes[i].y + r.offset.y == py)
  {
    var hit := Topmost(e.boxes, e.canvas.width, measure, px, py);
    if hit.Some? {
      var i := hit.value;
      assert e.boxes[i].id == Press(e, px, py, measure).selected.value;
    }
  }

  /** A box just added is on top at its own anchor: pressing there selects it
      and starts dragging it with a zero offset. */
  lemma AddThenPress(e: Editor, measure: Measure)
    requires e.image.Some?
    ensures var a := AddTextBox(e);
            var b := NewBox(e.nextId, e.canvas.width, e.canvas.height);
            var r := Press(a, b.x, b.y, measure);
            r.selected == Some(e.nextId) && r.dragging && r.offset == Point(0.0, 0.0)
  {
    var b := NewBox(e.nextId, e.canvas.width, e.canvas.height);
    NewestHitAtAnchor(e.boxes, b, e.canvas.width, measure);
  }

  /** A drag moves only the selected box, and its anchor stays on the canvas;
      when the cursor-minus-offset target is on the canvas the anchor follows
      it exactly. */
  lemma MouseMoveEffect(e: Editor, px: real, py: real)
    requires Wellformed(e) && e.dragging && e.selected.Some? && HasId(e.boxes, e.selected.value)
    ensures var r := MouseMove(e, px, py);
            var k := FindIndex(e.boxes, e.selected.value).value;
            var a := DragAnchor(px, py, e.offset, e.canvas.width, e.canvas.height);
            r == e.(boxes := e.boxes[k := e.boxes[k].(x := a.x, y := a.y)])
    ensures var r := MouseMove(e, px, py);
            var k := FindIndex(e.boxes, e.selected.value).value;
            && |r.boxes| == |e.boxes|
            && (forall j :: 0 <= j < |e.boxes| && j != k ==> r.boxes[j] == e.boxes[j])
            && 0.0 <= r.boxes[k].x <= e.canvas.width as real && 0.0 <= r.boxes[k].y <= e.canvas.height as real
            && r.boxes[k].text == e.boxes[k].text && r.boxes[k].id == e.boxes[k].id
            && (0.0 <= px - e.offset.x <= e.canvas.width as real ==> r.boxes[k].x + e.offset.x == px)
            && (0.0 <= py - e.offset.y <= e.canvas.height as real ==> r.boxes[k].y + e.offset.y == py)
            && (px - e.offset.x < 0.0 ==> r.boxes[k].x == 0.0)
            && (px - e.offset.x > e.canvas.width as real ==> r.boxes[k].x == e.canvas.width as real)
            && (py - e.offset.y < 0.0 ==> r.boxes[k].y == 0.0)
            && (py - e.offset.y > e.canvas.height as real ==> r.boxes[k].y == e.canvas.height as real)
  {
    var k := FindIndex(e.boxes, e.selected.value).value;
    var r := MouseMove(e, px, py);
    var a := DragAnchor(px, py, e.offset, e.canvas.width, e.canvas.height);
    var moved := e.boxes[k := e.boxes[k].(x := a.x, y := a.y)];
    forall j | 0 <= j < |e.boxes| && j != k
      ensures r.boxes[j] == e.boxes[j]
    {
      assert e.boxes[j].id != e.boxes[k].id;
    }
    assert r.boxes == moved;
    DragClampsToEdge(px, py, e.offset, e.canvas.width, e.canvas.height);
  }

  /** Releasing the mouse twice is releasing it once. */
  lemma MouseUpIdempotent(e: Editor)
    ensures MouseUp(MouseUp(e)) == MouseUp(e)
  {
  }

  /** Because the backing store keeps the image size, an export draws exactly
      what the editor shows, minus the clearing and the selection outline. */
  lemma ExportIsPreview(e: Editor, measure: Measure)
    requires Wellformed(e) && e.image.Some?
    ensures ExportOps(e, measure) == Some(Render.Redraw(e.canvas, e.boxes, None, measure, Render.Component)[1..])
  {
    Render.ExportMatchesPreview(e.image.value, e.canvas, e.boxes, None, measure, Render.Component);
  }

  /** A session: load a 400x300 image, add a caption, retext it, press at its
      anchor, release and delete it; the editor ends empty with no selection. */
  lemma Session(measure: Measure)
    ensures var e1 := LoadImage(Initial, Image(400, 300), 1000.0, 1000.0);
            var e2 := AddTextBox(e1);
            var e3 := UpdateTextBox(e2, 1, SetText("hello world"));
            var e4 := Press(e3, 200.0, 150.0, measure);
            var e5 := MouseUp(e4);
            var e6 := RemoveTextBox(e5, 1);
            && e2.boxes == [TextBox(1, DefaultText, 200.0, 150.0, 40, DefaultColor, 360.0)]
            && e3.boxes == [TextBox(1, "hello world", 200.0, 150.0, 40, DefaultColor, 360.0)]
            && e4.selected == Some(1) && e4.dragging
            && !e5.dragging
            && e6.boxes == [] && e6.selected == None && e6.nextId == 2
  {
    var e1 := LoadImage(Initial, Image(400, 300), 1000.0, 1000.0);
    var e2 := AddTextBox(e1);
    assert e1.canvas.width == 400 && e1.canvas.height == 300;
    var e3 := UpdateTextBox(e2, 1, SetText("hello world"));
    AnchorHits(e3.boxes[0], e3.canvas.width, measure);
    var e4 := Press(e3, 200.0, 150.0, measure);
    assert e4.selected == Some(1);
  }
}
