/**
 * Greedy word wrapping of a caption (`wrapText` in both the component and the
 * standalone page). Text is cut at single spaces; words are appended to the
 * current line until the measured candidate line is wider than the wrap width.
 */
module TextLayout {

  /** Width of a string under the font currently set on the 2D context
      (`ctx.measureText(s).width`). */
  type Width = string -> real

  // ---------------------------------------------------------------------------
  // Splitting and joining at single spaces
  // ---------------------------------------------------------------------------

  /** `text.split(' ')`: the pieces between single spaces, empty pieces included. */
  function Split(text: string): (words: seq<string>)
    ensures |words| >= 1
    ensures forall i :: 0 <= i < |words| ==> ' ' !in words[i]
    decreases |text|
  {
    if text == [] then [""]
    else if text[0] == ' ' then [""] + Split(text[1..])
    else
      var rest := Split(text[1..]);
      [[text[0]] + rest[0]] + rest[1..]
  }

  /** `lines.join(' ')`. */
  function Join(lines: seq<string>): string
    requires |lines| >= 1
    decreases |lines|
  {
    if |lines| == 1 then lines[0] else lines[0] + " " + Join(lines[1..])
  }

  lemma {:induction false} JoinConsChar(c: char, a: string, b: seq<string>)
    ensures Join([[c] + a] + b) == [c] + Join([a] + b)
  {
    if b != [] {
      assert ([[c] + a] + b)[1..] == b;
      assert ([a] + b)[1..] == b;
    }
  }

  /** Joining the pieces of a split gives the text back. */
  lemma {:induction false} JoinSplit(text: string)
    ensures Join(Split(text)) == text
    decreases |text|
  {
    if text == [] {
    } else if text[0] == ' ' {
      var rest := Split(text[1..]);
      JoinSplit(text[1..]);
      assert ([""] + rest)[1..] == rest;
      assert text == [' '] + text[1..];
    } else {
      var rest := Split(text[1..]);
      JoinSplit(text[1..]);
      assert rest == [rest[0]] + rest[1..];
      JoinConsChar(text[0], rest[0], rest[1..]);
      assert text == [text[0]] + text[1..];
    }
  }

  lemma {:induction false} SplitWord(w: string)
    requires ' ' !in w
    ensures Split(w) == [w]
    decreases |w|
  {
    if w != [] {
      SplitWord(w[1..]);
      assert [w[0]] + w[1..] == w;
    }
  }

  lemma {:induction false} SplitWordSpace(w: string, b: string)
    requires ' ' !in w
    ensures Split(w + " " + b) == [w] + Split(b)
    decreases |w|
  {
    if w == [] {
      assert w + " " + b == [' '] + b;
      assert (w + " " + b)[1..] == b;
    } else {
      SplitWordSpace(w[1..], b);
      assert (w + " " + b)[1..] == w[1..] + " " + b;
      assert [w[0]] + w[1..] == w;
    }
  }

  /** Splitting a join of space-free words gives the words back. */
  lemma {:induction false} SplitJoin(words: seq<string>)
    requires |words| >= 1
    requires forall i :: 0 <= i < |words| ==> ' ' !in words[i]
    ensures Split(Join(words)) == words
    decreases |words|
  {
    if |words| == 1 {
      SplitWord(words[0]);
    } else {
      SplitJoin(words[1..]);
      SplitWordSpace(words[0], Join(words[1..]));
      assert [words[0]] + words[1..] == words;
    }
  }

  lemma {:induction false} JoinSnoc(words: seq<string>, w: string)
    requires |words| >= 1
    ensures Join(words + [w]) == Join(words) + " " + w
    decreases |words|
  {
    if |words| == 1 {
      assert (words + [w])[1..] == [w];
    } else {
      assert (words + [w])[1..] == words[1..] + [w];
      JoinSnoc(words[1..], w);
    }
  }

  // ---------------------------------------------------------------------------
  // The greedy wrap, as a function of the words still to place
  // ---------------------------------------------------------------------------

  /** The lines produced when `current` is the open line and `rest` the words
      not yet placed: the loop body of `wrapText`, unrolled. */
  function WrapFrom(current: string, rest: seq<string>, maxWidth: real, width: Width): (lines: seq<string>)
    ensures |lines| >= 1
    decreases |rest|
  {
    if rest == [] then [current]
    else
      var test := current + " " + rest[0];
      if width(test) > maxWidth && |current| > 0 then
        [current] + WrapFrom(rest[0], rest[1..], maxWidth, width)
      else
        WrapFrom(test, rest[1..], maxWidth, width)
  }

  /** Only line breaks are introduced: joining the produced lines with single
      spaces is joining the open line and the remaining words. */
  lemma {:induction false} WrapFromJoin(current: string, rest: seq<string>, maxWidth: real, width: Width)
    ensures Join(WrapFrom(current, rest, maxWidth, width)) == Join([current] + rest)
    decreases |rest|
  {
    if rest != [] {
      var test := current + " " + rest[0];
      assert ([current] + rest)[1..] == rest;
      assert rest == [rest[0]] + rest[1..];
      if width(test) > maxWidth && |current| > 0 {
        WrapFromJoin(rest[0], rest[1..], maxWidth, width);
      } else {
        WrapFromJoin(test, rest[1..], maxWidth, width);
        if rest[1..] != [] {
          assert ([test] + rest[1..])[1..] == rest[1..];
          assert ([rest[0]] + rest[1..])[1..] == rest[1..];
        }
      }
    }
  }

  /** `wrapText(ctx, text, maxWidth)`. */
  function Wrap(text: string, maxWidth: real, width: Width): (lines: seq<string>)
    ensures |lines| >= 1
    ensures Join(lines) == text
    ensures text == "" ==> lines == [""]
  {
    var words := Split(text);
    WrapFromJoin(words[0], words[1..], maxWidth, width);
    assert [words[0]] + words[1..] == words;
    JoinSplit(text);
    WrapFrom(words[0], words[1..], maxWidth, width)
  }

  /** The loop of `wrapText`: `currentLine` starts as the first word; each
      further word either closes the current line (when the candidate is too
      wide and the current line is non-empty) or extends it. */
  method WrapText(text: string, maxWidth: real, width: Width) returns (lines: seq<string>)
    ensures lines == Wrap(text, maxWidth, width)
    ensures |lines| >= 1 && Join(lines) == text
  {
    var words := Split(text);
    lines := [];
    var current := words[0];
    var i := 1;
    while i < |words|
      invariant 1 <= i <= |words|
      invariant lines + WrapFrom(current, words[i..], maxWidth, width) == Wrap(text, maxWidth, width)
    {
      var word := words[i];
      var test := current + " " + word;
      assert words[i..][1..] == words[i + 1..];
      if width(test) > maxWidth && |current| > 0 {
        lines := lines + [current];
        current := word;
      } else {
        current := test;
      }
      i := i + 1;
    }
    lines := lines + [current];
  }

  // ---------------------------------------------------------------------------
  // What the greedy rule promises about each line
  // ---------------------------------------------------------------------------

  /** The first word of a line. */
  function FirstWord(line: string): string {
    Split(line)[0]
  }

  /** Every word boundary inside the line was an extension the rule allowed:
      the prefix before it was empty or the prefix plus that word fitted. */
  ghost predicate Extended(words: seq<string>, maxWidth: real, width: Width)
    requires |words| >= 1
  {
    forall k :: 1 <= k < |words| ==>
      |Join(words[..k])| == 0 || width(Join(words[..k]) + " " + words[k]) <= maxWidth
  }

  /** The greedy rule, line by line: each line's words were joined only when
      the candidate fitted or the line was still empty, and each line was
      closed only because it was non-empty and the next line's first word did
      not fit after it. */
  ghost predicate Greedy(lines: seq<string>, maxWidth: real, width: Width) {
    && (forall i :: 0 <= i < |lines| ==> Extended(Split(lines[i]), maxWidth, width))
    && (forall i :: 0 <= i < |lines| - 1 ==>
          |lines[i]| > 0 && width(lines[i] + " " + FirstWord(lines[i + 1])) > maxWidth)
  }

  lemma {:induction false} ExtendedSnoc(words: seq<string>, w: string, maxWidth: real, width: Width)
    requires |words| >= 1 && Extended(words, maxWidth, width)
    requires |Join(words)| == 0 || width(Join(words) + " " + w) <= maxWidth
    ensures Extended(words + [w], maxWidth, width)
  {
    var ws := words + [w];
    forall k | 1 <= k < |ws|
      ensures |Join(ws[..k])| == 0 || width(Join(ws[..k]) + " " + ws[k]) <= maxWidth
    {
      assert ws[..k] == words[..k];
      if k == |words| {
        assert words[..k] == words;
      }
    }
  }

  lemma {:induction false} WrapFromGreedy(cw: seq<string>, rest: seq<string>, maxWidth: real, width: Width)
    requires |cw| >= 1
    requires forall i :: 0 <= i < |cw| ==> ' ' !in cw[i]
    requires forall i :: 0 <= i < |rest| ==> ' ' !in rest[i]
    requires Extended(cw, maxWidth, width)
    ensures Greedy(WrapFrom(Join(cw), rest, maxWidth, width), maxWidth, width)
    ensures FirstWord(WrapFrom(Join(cw), rest, maxWidth, width)[0]) == cw[0]
    decreases |rest|
  {
    var current := Join(cw);
    SplitJoin(cw);
    if rest == [] {
    } else {
      var test := current + " " + rest[0];
      if width(test) > maxWidth && |current| > 0 {
        var tail := WrapFrom(rest[0], rest[1..], maxWidth, width);
        assert Join([rest[0]]) == rest[0];
        assert Extended([rest[0]], maxWidth, width);
        WrapFromGreedy([rest[0]], rest[1..], maxWidth, width);
        var lines := [current] + tail;
        assert lines == WrapFrom(current, rest, maxWidth, width);
        forall i | 0 <= i < |lines|
          ensures Extended(Split(lines[i]), maxWidth, width)
        {
          if i > 0 { assert lines[i] == tail[i - 1]; }
        }
        forall i | 0 <= i < |lines| - 1
          ensures |lines[i]| > 0 && width(lines[i] + " " + FirstWord(lines[i + 1])) > maxWidth
        {
          if i > 0 { assert lines[i] == tail[i - 1] && lines[i + 1] == tail[i]; }
        }
      } else {
        JoinSnoc(cw, rest[0]);
        ExtendedSnoc(cw, rest[0], maxWidth, width);
        WrapFromGreedy(cw + [rest[0]], rest[1..], maxWidth, width);
      }
    }
  }

  /** The wrapped lines follow the greedy rule exactly (both directions: a
      break only where the candidate is too wide after a non-empty line, an
      extension only where it is not). */
  lemma WrapIsGreedy(text: string, maxWidth: real, width: Width)
    ensures Greedy(Wrap(text, maxWidth, width), maxWidth, width)
  {
    var words := Split(text);
    assert Join([words[0]]) == words[0];
    WrapFromGreedy([words[0]], words[1..], maxWidth, width);
  }

  /** When no word is empty and every word fits on its own, no line is too
      wide: each line either is one word or grew by a candidate that fitted. */
  lemma {:induction false} WrapFromFits(current: string, rest: seq<string>, maxWidth: real, width: Width)
    requires |current| > 0 && width(current) <= maxWidth
    requires forall i :: 0 <= i < |rest| ==> |rest[i]| > 0 && width(rest[i]) <= maxWidth
    ensures forall i :: 0 <= i < |WrapFrom(current, rest, maxWidth, width)| ==>
              width(WrapFrom(current, rest, maxWidth, width)[i]) <= maxWidth
    decreases |rest|
  {
    if rest != [] {
      var test := current + " " + rest[0];
      if width(test) > maxWidth {
        WrapFromFits(rest[0], rest[1..], maxWidth, width);
      } else {
        WrapFromFits(test, rest[1..], maxWidth, width);
      }
    }
  }

  lemma WrapFits(text: string, maxWidth: real, width: Width)
    requires forall i :: 0 <= i < |Split(text)| ==> |Split(text)[i]| > 0 && width(Split(text)[i]) <= maxWidth
    ensures forall i :: 0 <= i < |Wrap(text, maxWidth, width)| ==> width(Wrap(text, maxWidth, width)[i]) <= maxWidth
  {
    var words := Split(text);
    WrapFromFits(words[0], words[1..], maxWidth, width);
  }

  /** An empty word (a leading or doubled space) is glued to the next word
      without any width test, so the line can be wider than the wrap width
      even though every word fits: the greedy rule needs non-empty words for
      the bound above. */
  lemma LeadingSpaceOverflows()
    ensures var width := (s: string) => |s| as real;
            && Split(" a") == ["", "a"]
            && width("") <= 1.0 && width("a") <= 1.0
            && Wrap(" a", 1.0, width) == [" a"]
            && width(" a") > 1.0
  {
    assert Split("a") == ["a"] by { SplitWord("a"); }
    assert Split(" a") == ["", "a"] by { assert " a"[1..] == "a"; }
  }

  /** Layout is the same at every scale when measurement scales with it:
      multiplying the wrap width and every measured width by `k > 0` yields the
      same lines (preview and full-resolution export agree). */
  lemma {:induction false} WrapFromScaled(current: string, rest: seq<string>, maxWidth: real, k: real, width: Width, scaled: Width)
    requires k > 0.0
    requires forall t :: scaled(t) == k * width(t)
    ensures WrapFrom(current, rest, k * maxWidth, scaled) == WrapFrom(current, rest, maxWidth, width)
    decreases |rest|
  {
    if rest != [] {
      var test := current + " " + rest[0];
      ScaleCompare(k, width(test), maxWidth);
      WrapFromScaled(rest[0], rest[1..], maxWidth, k, width, scaled);
      WrapFromScaled(test, rest[1..], maxWidth, k, width, scaled);
    }
  }

  lemma ScaleCompare(k: real, a: real, b: real)
    requires k > 0.0
    ensures (k * a > k * b) == (a > b)
  {
    if a > b {
      assert k * a - k * b == k * (a - b);
    } else {
      assert k * b - k * a == k * (b - a);
    }
  }

  lemma WrapScaled(text: string, maxWidth: real, k: real, width: Width, scaled: Width)
    requires k > 0.0
    requires forall t :: scaled(t) == k * width(t)
    ensures Wrap(text, k * maxWidth, scaled) == Wrap(text, maxWidth, width)
  {
    var words := Split(text);
    WrapFromScaled(words[0], words[1..], maxWidth, k, width, scaled);
  }

  // ---------------------------------------------------------------------------
  // Widest line
  // ---------------------------------------------------------------------------

  function Max(a: real, b: real): real {
    if b > a then b else a
  }

  /** `maxLineWidth`: 0 folded with `if (w > m) m = w` over the lines. */
  function Widest(lines: seq<string>, width: Width): (m: real)
    ensures m >= 0.0
    ensures forall i :: 0 <= i < |lines| ==> width(lines[i]) <= m
    ensures m == 0.0 || exists i :: 0 <= i < |lines| && width(lines[i]) == m
    decreases |lines|
  {
    if lines == [] then 0.0
    else
      var front := lines[..|lines| - 1];
      assert forall i :: 0 <= i < |front| ==> front[i] == lines[i];
      Max(Widest(front, width), width(lines[|lines| - 1]))
  }

  /** The `lines.forEach` loop that finds the widest line. */
  method MaxLineWidth(lines: seq<string>, width: Width) returns (m: real)
    ensures m == Widest(lines, width)
  {
    m := 0.0;
    var i := 0;
    while i < |lines|
      invariant 0 <= i <= |lines|
      invariant m == Widest(lines[..i], width)
    {
      var w := width(lines[i]);
      assert lines[..i + 1][..i] == lines[..i];
      if w > m {
        m := w;
      }
      i := i + 1;
    }
    assert lines[..i] == lines;
  }
}
