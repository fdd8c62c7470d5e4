/**
 * The standalone page: the same editor kept in module-level variables that
 * the event handlers overwrite in place. Each handler is proved to leave the
 * page in the state the component's handler of the same name computes, so
 * the two versions agree event for event.
 */
module Page {
  import opened Wrappers
  import opened TextLayout
  import opened TextBoxes
  import opened HitTest
  import opened CanvasFit
  import Render
  import Generator

  class Page {
    var image: Option<Image>
    var canvas: Canvas
    var boxes: seq<TextBox>
    var nextId: int
    /** The id of the box `selectedTextBox` refers to. */
    var selected: Option<int>
    var dragging: bool
    var offset: Point

    /** The page's variables read as the component's state. */
    function State(): Generator.Editor
      reads this
    {
      Generator.Editor(image, canvas, boxes, selected, dragging, offset, nextId)
    }

    ghost predicate Valid()
      reads this
    {
      Generator.Wellformed(State())
    }

    constructor ()
      ensures Valid() && State() == Generator.Initial
    {
      image := None;
      canvas := InitialCanvas;
      boxes := [];
      nextId := 1;
      selected := None;
      dragging := false;
      offset := Point(0.0, 0.0);
    }

    /** `img.onload` in `loadTemplate` and `handleImageUpload`. */
    method LoadImage(img: Image, containerWidth: real, viewportHeight: real)
      requires Valid() && img.width > 0 && img.height > 0 && viewportHeight >= 0.0
      modifies this
      ensures Valid()
      ensures State() == Generator.LoadImage(old(State()), img, containerWidth, viewportHeight)
    {
      image := Some(img);
      canvas := SetupCanvas(img, containerWidth, viewportHeight);
      boxes := [];
      selected := None;
    }

    /** `addTextBox`. */
    method AddTextBox()
      requires Valid()
      modifies this
      ensures Valid()
      ensures State() == Generator.AddTextBox(old(State()))
      ensures old(image).None? ==> unchanged(this)
    {
      if image.None? {
        return;
      }
      Generator.AddTextBoxWellformed(State());
      var b := NewBox(nextId, canvas.width, canvas.height);
      nextId := nextId + 1;
      boxes := boxes + [b];
      selected := Some(b.id);
    }

    /** The text, colour and size inputs: write one field of the box `find`
        returns, if any. */
    method Edit(id: int, p: Patch)
      requires Valid()
      modifies this
      ensures Valid()
      ensures boxes == UpdateFirst(old(boxes), id, p)
      ensures State() == Generator.UpdateTextBox(old(State()), id, p)
    {
      Generator.UpdateTextBoxWellformed(State(), id, p);
      UpdateFirstIsUpdateAll(boxes, id, p);
      var k := FindIndex(boxes, id);
      if k.Some? {
        boxes := boxes[k.value := Apply(boxes[k.value], p)];
      }
    }

    method SetText(id: int, text: string)
      requires Valid()
      modifies this
      ensures Valid()
      ensures State() == Generator.UpdateTextBox(old(State()), id, TextBoxes.SetText(text))
    {
      Edit(id, TextBoxes.SetText(text));
    }

    method SetColor(id: int, color: string)
      requires Valid()
      modifies this
      ensures Valid()
      ensures State() == Generator.UpdateTextBox(old(State()), id, TextBoxes.SetColor(color))
    {
      Edit(id, TextBoxes.SetColor(color));
    }

    method SetFontSize(id: int, size: int)
      requires Valid()
      modifies this
      ensures Valid()
      ensures State() == Generator.UpdateTextBox(old(State()), id, TextBoxes.SetFontSize(size))
    {
      Edit(id, TextBoxes.SetFontSize(size));
    }

    /** `selectTextBox(id)`: `find` yields nothing for an unknown id, which
        clears the selection. */
    method SelectTextBox(id: int)
      requires Valid()
      modifies this
      ensures Valid()
      ensures selected == (if HasId(boxes, id) then Some(id) else None)
      ensures HasId(boxes, id) ==> State() == Generator.Select(old(State()), id)
      ensures boxes == old(boxes) && image == old(image) && nextId == old(nextId)
      ensures dragging == old(dragging) && offset == old(offset) && canvas == old(canvas)
    {
      var k := FindIndex(boxes, id);
      if k.Some? {
        selected := Some(boxes[k.value].id);
      } else {
        selected := None;
      }
    }

    /** `removeTextBox(id)`. */
    method RemoveTextBox(id: int)
      requires Valid()
      modifies this
      ensures Valid()
      ensures State() == Generator.RemoveTextBox(old(State()), id)
    {
      Generator.RemoveTextBoxWellformed(State(), id);
      boxes := Remove(boxes, id);
      if selected == Some(id) {
        selected := if |boxes| > 0 then Some(boxes[0].id) else None;
      }
    }

    /** `handleMouseDown` at canvas point `(px, py)`. */
    method MouseDown(px: real, py: real, measure: Measure)
      requires Valid()
      modifies this
      ensures Valid()
      ensures State() == Generator.Press(old(State()), px, py, measure)
    {
      ghost var e := State();
      Generator.PressWellformed(e, px, py, measure);
      if image.None? {
        return;
      }
      var hit := HitTest.HitTest(boxes, canvas.width, measure, px, py);
      if hit.Some? {
        var b := boxes[hit.value];
        assert Generator.Press(e, px, py, measure)
            == e.(selected := Some(b.id), dragging := true, offset := GrabOffset(b, px, py));
        selected := Some(b.id);
        dragging := true;
        offset := Point(px - b.x, py - b.y);
      } else {
        assert Generator.Press(e, px, py, measure) == e.(selected := None);
        selected := None;
      }
    }

    /** `handleMouseMove`: move the selected box to cursor minus offset, then
        clamp each coordinate onto the canvas. */
    method MouseMove(px: real, py: real)
      requires Valid()
      modifies this
      ensures Valid()
      ensures State() == Generator.MouseMove(old(State()), px, py)
    {
      Generator.MouseMoveWellformed(State(), px, py);
      if !dragging || selected.None? {
        return;
      }
      var k := FindIndex(boxes, selected.value);
      if k.None? {
        return;
      }
      var i := k.value;
      var x := px - offset.x;
      var y := py - offset.y;
      x := Clamp(x, canvas.width as real);
      y := Clamp(y, canvas.height as real);
      UpdateFirstIsUpdateAll(boxes, boxes[i].id, MoveTo(x, y));
      boxes := boxes[i := Apply(boxes[i], MoveTo(x, y))];
    }

    /** `handleMouseUp`, also bound to `mouseleave`. */
    method MouseUp()
      requires Valid()
      modifies this
      ensures Valid()
      ensures State() == Generator.MouseUp(old(State()))
    {
      dragging := false;
    }
  }
}
