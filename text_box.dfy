/**
 * Text boxes (caption overlays) and the operations on the ordered list of
 * them that both editor versions share: lookup, edit, removal and the
 * selection fallback after a removal.
 */
module TextBoxes {
  import opened Wrappers

  /** One caption. `x`, `y` is the centre of the wrapped block in image pixels;
      `maxWidth` is the wrap width fixed at creation. */
  datatype TextBox = TextBox(
    id: int,
    text: string,
    x: real,
    y: real,
    fontSize: int,
    color: string,
    maxWidth: real)

  const DefaultText: string := "Your text here"
  const DefaultFontSize: int := 40
  const DefaultColor: string := "#FFFFFF"

  /** The box `addTextBox` creates on a canvas of the given backing size. */
  function NewBox(id: int, canvasWidth: int, canvasHeight: int): (b: TextBox)
    ensures b.id == id && b.text == DefaultText && b.fontSize == 40 && b.color == "#FFFFFF"
    ensures 2.0 * b.x == canvasWidth as real && 2.0 * b.y == canvasHeight as real
    ensures 10.0 * b.maxWidth == 9.0 * canvasWidth as real
  {
    TextBox(id, DefaultText, canvasWidth as real / 2.0, canvasHeight as real / 2.0,
            DefaultFontSize, DefaultColor, canvasWidth as real * 0.9)
  }

  /** The partial object handed to `updateTextBox`: the fields present are
      merged into the box (`{ ...tb, ...updates }`). */
  datatype Patch = Patch(
    text: Option<string>,
    color: Option<string>,
    fontSize: Option<int>,
    x: Option<real>,
    y: Option<real>)

  function SetText(s: string): Patch { Patch(Some(s), None, None, None, None) }
  function SetColor(c: string): Patch { Patch(None, Some(c), None, None, None) }
  function SetFontSize(n: int): Patch { Patch(None, None, Some(n), None, None) }
  function MoveTo(x: real, y: real): Patch { Patch(None, None, None, Some(x), Some(y)) }

  /** Object spread: a field of the patch overrides the box's field; identity
      and wrap width are never part of a patch. */
  function Apply(b: TextBox, p: Patch): (r: TextBox)
    ensures r.id == b.id && r.maxWidth == b.maxWidth
    ensures r.text == p.text.GetOr(b.text) && r.color == p.color.GetOr(b.color)
    ensures r.fontSize == p.fontSize.GetOr(b.fontSize)
    ensures r.x == p.x.GetOr(b.x) && r.y == p.y.GetOr(b.y)
  {
    b.(text := p.text.GetOr(b.text), color := p.color.GetOr(b.color),
       fontSize := p.fontSize.GetOr(b.fontSize), x := p.x.GetOr(b.x), y := p.y.GetOr(b.y))
  }

  /** Some box carries `id`. */
  predicate HasId(boxes: seq<TextBox>, id: int) {
    exists i :: 0 <= i < |boxes| && boxes[i].id == id
  }

  /** No two boxes share an id. */
  ghost predicate UniqueIds(boxes: seq<TextBox>) {
    forall i, j :: 0 <= i < |boxes| && 0 <= j < |boxes| && boxes[i].id == boxes[j].id ==> i == j
  }

  /** Every id is below `bound` (ids come from a counter that only grows). */
  ghost predicate IdsBelow(boxes: seq<TextBox>, bound: int) {
    forall i :: 0 <= i < |boxes| ==> boxes[i].id < bound
  }

  /** `textBoxes.find(tb => tb.id === id)`, as the index of the first match. */
  function FindIndex(boxes: seq<TextBox>, id: int): (r: Option<nat>)
    ensures r.Some? ==> r.value < |boxes| && boxes[r.value].id == id
    ensures r.Some? ==> forall j :: 0 <= j < r.value ==> boxes[j].id != id
    ensures r.None? <==> !HasId(boxes, id)
    decreases |boxes|
  {
    if boxes == [] then None
    else if boxes[0].id == id then Some(0)
    else
      match FindIndex(boxes[1..], id)
      case None => None
      case Some(k) => Some(k + 1)
  }

  /** The component's `updateTextBox`: `prev.map(tb => tb.id === id ? {...tb, ...updates} : tb)`. */
  function UpdateAll(boxes: seq<TextBox>, id: int, p: Patch): (r: seq<TextBox>)
    ensures |r| == |boxes|
    ensures forall i :: 0 <= i < |boxes| ==> r[i] == if boxes[i].id == id then Apply(boxes[i], p) else boxes[i]
  {
    seq(|boxes|, i requires 0 <= i < |boxes| => if boxes[i].id == id then Apply(boxes[i], p) else boxes[i])
  }

  /** The page's input handlers: `find` the box, then write the field of that
      one object; nothing happens when no box has the id. */
  function UpdateFirst(boxes: seq<TextBox>, id: int, p: Patch): (r: seq<TextBox>)
    ensures |r| == |boxes|
    ensures !HasId(boxes, id) ==> r == boxes
    ensures HasId(boxes, id) ==>
              var k := FindIndex(boxes, id).value;
              r[k] == Apply(boxes[k], p) && forall j :: 0 <= j < |boxes| && j != k ==> r[j] == boxes[j]
  {
    match FindIndex(boxes, id)
    case None => boxes
    case Some(k) => boxes[k := Apply(boxes[k], p)]
  }

  /** With unique ids the two update styles coincide. */
  lemma UpdateFirstIsUpdateAll(boxes: seq<TextBox>, id: int, p: Patch)
    requires UniqueIds(boxes)
    ensures UpdateFirst(boxes, id, p) == UpdateAll(boxes, id, p)
  {
  }

  /** `boxes.filter(tb => tb.id !== id)`. */
  function Remove(boxes: seq<TextBox>, id: int): (r: seq<TextBox>)
    ensures forall i :: 0 <= i < |r| ==> r[i].id != id
    ensures |r| <= |boxes|
    ensures !HasId(boxes, id) ==> r == boxes
    decreases |boxes|
  {
    if boxes == [] then []
    else if boxes[0].id == id then Remove(boxes[1..], id)
    else [boxes[0]] + Remove(boxes[1..], id)
  }

  /** Removal keeps exactly the boxes with another id, in their order: the
      kept boxes are those of the input minus the removed id. */
  lemma {:induction false} RemoveKeeps(boxes: seq<TextBox>, id: int)
    ensures forall b :: b in Remove(boxes, id) <==> b in boxes && b.id != id
    decreases |boxes|
  {
    if boxes != [] {
      RemoveKeeps(boxes[1..], id);
      assert boxes == [boxes[0]] + boxes[1..];
    }
  }

  /** What is removed is exactly the boxes carrying the id: as multisets, the
      input is the kept boxes plus the matching ones. */
  lemma {:induction false} RemovePartition(boxes: seq<TextBox>, id: int)
    ensures multiset(boxes) == multiset(Remove(boxes, id)) + multiset(Matching(boxes, id))
    decreases |boxes|
  {
    if boxes != [] {
      RemovePartition(boxes[1..], id);
      assert boxes == [boxes[0]] + boxes[1..];
      assert multiset(boxes) == multiset{boxes[0]} + multiset(boxes[1..]);
    }
  }

  /** The boxes carrying `id`, in order. */
  function Matching(boxes: seq<TextBox>, id: int): seq<TextBox>
    decreases |boxes|
  {
    if boxes == [] then []
    else if boxes[0].id == id then [boxes[0]] + Matching(boxes[1..], id)
    else Matching(boxes[1..], id)
  }

  /** Removal is a subsequence: box k of the result is box `Kept(k)` of the input. */
  lemma {:induction false} RemoveOrder(boxes: seq<TextBox>, id: int, i: nat, j: nat)
    requires i < j < |Remove(boxes, id)|
    ensures exists a, b :: 0 <= a < b < |boxes| && boxes[a] == Remove(boxes, id)[i] && boxes[b] == Remove(boxes, id)[j]
    decreases |boxes|
  {
    var r := Remove(boxes, id);
    if boxes[0].id == id {
      RemoveOrder(boxes[1..], id, i, j);
      var a, b :| 0 <= a < b < |boxes[1..]| && boxes[1..][a] == r[i] && boxes[1..][b] == r[j];
      assert boxes[a + 1] == r[i] && boxes[b + 1] == r[j];
    } else if i == 0 {
      RemoveKeeps(boxes[1..], id);
      assert r[j] == Remove(boxes[1..], id)[j - 1];
      assert r[j] in boxes[1..];
      var b :| 0 <= b < |boxes[1..]| && boxes[1..][b] == r[j];
      assert boxes[0] == r[0] && boxes[b + 1] == r[j];
    } else {
      RemoveOrder(boxes[1..], id, i - 1, j - 1);
      var a, b :| 0 <= a < b < |boxes[1..]| && boxes[1..][a] == Remove(boxes[1..], id)[i - 1] && boxes[1..][b] == Remove(boxes[1..], id)[j - 1];
      assert boxes[a + 1] == r[i] && boxes[b + 1] == r[j];
    }
  }

  /** The selection after `removeTextBox(id)`: if the removed box was selected,
      the first remaining box, or none when no box remains; otherwise the old
      selection. */
  function SelectionAfterRemove(selected: Option<int>, id: int, remaining: seq<TextBox>): (r: Option<int>)
    ensures selected != Some(id) ==> r == selected
    ensures selected == Some(id) && remaining == [] ==> r == None
    ensures selected == Some(id) && remaining != [] ==> r == Some(remaining[0].id)
  {
    if selected == Some(id) then
      if |remaining| > 0 then Some(remaining[0].id) else None
    else selected
  }

  lemma {:induction false} RemovePreservesUnique(boxes: seq<TextBox>, id: int)
    requires UniqueIds(boxes)
    ensures UniqueIds(Remove(boxes, id))
    decreases |boxes|
  {
    if boxes != [] {
      RemovePreservesUnique(boxes[1..], id);
      RemoveKeeps(boxes[1..], id);
      var r := Remove(boxes, id);
      if boxes[0].id != id {
        forall i, j | 0 <= i < |r| && 0 <= j < |r| && r[i].id == r[j].id ensures i == j {
          if i > 0 && j > 0 {
            assert r[i] == Remove(boxes[1..], id)[i - 1];
            assert r[j] == Remove(boxes[1..], id)[j - 1];
          }
        }
      }
    }
  }

  lemma RemoveKeepsHasId(boxes: seq<TextBox>, id: int, other: int)
    requires other != id
    ensures HasId(Remove(boxes, id), other) == HasId(boxes, other)
  {
    RemoveKeeps(boxes, id);
    if HasId(boxes, other) {
      var i :| 0 <= i < |boxes| && boxes[i].id == other;
      assert boxes[i] in Remove(boxes, id);
    }
    if HasId(Remove(boxes, id), other) {
      var i :| 0 <= i < |Remove(boxes, id)| && Remove(boxes, id)[i].id == other;
      assert Remove(boxes, id)[i] in boxes;
    }
  }

  lemma RemoveIdsBelow(boxes: seq<TextBox>, id: int, bound: int)
    requires IdsBelow(boxes, bound)
    ensures IdsBelow(Remove(boxes, id), bound)
  {
    RemoveKeeps(boxes, id);
    forall i | 0 <= i < |Remove(boxes, id)| ensures Remove(boxes, id)[i].id < bound {
      assert Remove(boxes, id)[i] in boxes;
    }
  }

  /** After removal the selection still names a remaining box (or none). */
  lemma SelectionAfterRemoveValid(boxes: seq<TextBox>, selected: Option<int>, id: int)
    requires selected.Some? ==> HasId(boxes, selected.value)
    ensures var rest := Remove(boxes, id);
            var s := SelectionAfterRemove(selected, id, rest);
            s.Some? ==> HasId(rest, s.value)
  {
    var rest := Remove(boxes, id);
    if selected.Some? && selected.value != id {
      RemoveKeepsHasId(boxes, id, selected.value);
    }
    if selected == Some(id) && rest != [] {
      assert rest[0].id == rest[0].id;
    }
  }
}
