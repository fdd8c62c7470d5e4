# Meme generator: a verified model of the caption editor and the feed

This project models in Dafny the client-side logic of a meme generator. The
editor loads an image, places text captions ("text boxes") on it, lets the
user drag them, and exports the composed picture at the image's own
resolution. The same editor exists twice: once as a React component
(`MemeGenerator.jsx`) and once as a page script over global variables
(`script.js`). The feed (`MemeFeed.jsx`) lists posted memes, most upvoted
first. Each meme's card and its enlarged modal (`MemeCard.jsx`,
`MemeModal.jsx`) show an upvote toggle and a relative timestamp.

Modules, following the program's structure:

- `TextLayout` (`text_layout.dfy`): the greedy word wrap of `wrapText` and the widest-line loop.
  - The wrap is a function, plus a method with the source's loop that is proved equal to it.
  - Proved about it: at least one line; the lines joined with single spaces give back the text exactly; every break is one the greedy rule forces and every extension one it allows; and the result does not change if all widths are scaled by the same factor.
- `TextBoxes` (`text_box.dfy`): the caption record, the patch that `updateTextBox` spreads over it, and the id-based collection operations (add, update by id, remove by id, selection fallback).
- `HitTest` (`hit_test.dfy`):
  - the padded bounding box of a caption;
  - the reverse scan that picks the topmost caption under the cursor, as a method proved equal to a specification function;
  - the grab offset and the clamped drag.
- `CanvasFit` (`canvas_fit.dfy`): `setupCanvas`, which keeps the backing store at the image size and fits the display size into the container, aspect preserved.
- `Render` (`render.dfy`): the draw list the two versions issue for a redraw and for an export, with the per-version number of outline strokes (the outline's line width is computed but not carried in the list), and the proof that export geometry is the preview geometry scaled by the backing-store factor.
- `Compress` (`compress.dfy`): the schedule of `compressImage`. It lists the bounds it tries (shrinking by `floor(0.8·bound)` while both stay above 800) and the qualities at each bound. The attempt it keeps is the first one the encoder, given as a function parameter, makes small enough.
- `Generator` (`generator.dfy`): the component's state as one value and every handler as a function from state to state, with the invariant every handler keeps. The mouse-down handler is also a method with the source's reverse loop.
- `Page` (`page.dfy`): the page script as a `class` whose fields are its global variables. Each handler is a method that updates the fields in place, keeps that invariant, and is proved to produce the state a component handler computes:
  - `LoadImage`, `AddTextBox`, `RemoveTextBox`, `MouseDown`, `MouseMove` and `MouseUp` that of the handler of the same name;
  - `Edit`, `SetText`, `SetColor` and `SetFontSize` that of `UpdateTextBox` with the corresponding patch;
  - `SelectTextBox` that of `Select` when the id is present; for an unknown id the page clears the selection, which the component's list never asks for.
- `Feed` (`feed.dfy`): the grouping of upvotes by meme (the source's `forEach` as a method with a loop, proved equal to a specification map), the feed order, and which screen the feed shows.
- `UpvoteCard` (`card.dfy`): the upvote count, `hasUpvoted`, the transaction a click issues, and the `formatDate` buckets. The card and the modal share this code.

Where the prose description of the program and its code differ, the model follows the code:

- `compressImage` tests `q > 0.5` before lowering the quality, so from 0.85 it also tries 0.45 (`Compress.DefaultQualities`).
- Loading an image clears the captions and the selection but leaves `isDragging` and the drag offset as they were (`Generator.LoadImage`).
- The wrap width of a line is not bounded by `maxWidth` in general. Splitting on single spaces yields empty words for leading or doubled spaces, and the empty current line never breaks. `TextLayout.WrapFits` proves the bound when no word is empty and every word fits. `TextLayout.LeadingSpaceOverflows` gives an input whose single line is wider than the limit.

## Model

| member | source | states |
|---|---|---|
| TextLayout.Split | src/components/MemeGenerator.jsx:26 | `text.split(' ')` yields at least one word and no word contains a space |
| TextLayout.JoinSplit | src/components/MemeGenerator.jsx:26 | joining the split words with single spaces gives back the text exactly |
| TextLayout.SplitJoin | script.js:310 | splitting a single-space join of space-free words gives back the same words |
| TextLayout.JoinSnoc | src/components/MemeGenerator.jsx:32 | appending a word to a line is `line + ' ' + word` |
| TextLayout.WrapFrom | src/components/MemeGenerator.jsx:28-42 | the line builder from a current line always yields at least one line |
| TextLayout.WrapFromJoin | src/components/MemeGenerator.jsx:28-42 | the lines built from a current line and the remaining words join back to them with single spaces |
| TextLayout.Wrap | src/components/MemeGenerator.jsx:25-44 | at least one line; the lines joined with single spaces equal the text; empty text gives exactly `[""]` |
| TextLayout.WrapText | src/components/MemeGenerator.jsx:25-44 | the `for` loop over the words computes the wrap: at least one line, and no word lost, split or reordered; the page's copy at script.js:309-329 is the same loop |
| TextLayout.ExtendedSnoc | src/components/MemeGenerator.jsx:35-40 | extending a line whose prefix is empty or fits keeps every word boundary one the rule allowed |
| TextLayout.WrapFromGreedy | src/components/MemeGenerator.jsx:32-40 | from a line built by allowed extensions, every produced line is built the same way and every break is flushed only on overflow of a non-empty line |
| TextLayout.WrapIsGreedy | script.js:316-324 | a line is closed only when it is non-empty and `measure(line + ' ' + nextWord) > maxWidth`; a word joins the line only when that test fails |
| TextLayout.WrapFromFits | src/components/MemeGenerator.jsx:32-40 | when the current line and every word are non-empty and fit, every produced line fits |
| TextLayout.WrapFits | src/components/MemeGenerator.jsx:25-44 | when every word is non-empty and fits, every wrapped line fits within `maxWidth` |
| TextLayout.LeadingSpaceOverflows | src/components/MemeGenerator.jsx:26-36 | for `" a"` with limit 1 the split has an empty first word and the one line is wider than the limit |
| TextLayout.WrapFromScaled | src/components/MemeGenerator.jsx:32-40 | multiplying all widths and the limit by the same positive factor gives the same lines from any current line |
| TextLayout.ScaleCompare | src/components/MemeGenerator.jsx:35 | scaling both sides of the overflow test by a positive factor keeps its outcome |
| TextLayout.WrapScaled | src/components/MemeGenerator.jsx:342-344 | wrapping at a scaled limit with proportionally scaled widths gives the same lines |
| TextLayout.Widest | src/components/MemeGenerator.jsx:268-274 | `maxLineWidth` is non-negative, at least the width of every line, and equal to one of them unless it is 0 |
| TextLayout.MaxLineWidth | script.js:425-431 | the loop `if (w > maxLineWidth) maxLineWidth = w` computes the widest line |
| TextBoxes.NewBox | src/components/MemeGenerator.jsx:210-218 | a new caption has the given id, default text, size 40, colour `#FFFFFF`, sits at the canvas centre, wraps at 0.9 × width |
| TextBoxes.Apply | src/components/MemeGenerator.jsx:228 | `{ ...tb, ...updates }`: every field in the patch overrides, every other field and the id are kept |
| TextBoxes.FindIndex | script.js:269 | `find` by id returns the first box with that id, and nothing exactly when no box has it |
| TextBoxes.UpdateAll | src/components/MemeGenerator.jsx:226-230 | the update keeps length and order, patches every box with the id and leaves every other box as it was |
| TextBoxes.UpdateFirst | script.js:207-213 | the handler patches the first box with the id, leaves every other box as it was, and changes nothing for an unknown id |
| TextBoxes.UpdateFirstIsUpdateAll | script.js:225-243 | with unique ids, patching the found box in place equals the component's `map` update |
| TextBoxes.Remove | src/components/MemeGenerator.jsx:235 | the filter leaves no box with the id, is no longer than its input, and is the identity for an unknown id |
| TextBoxes.RemoveKeeps | script.js:286 | a box is kept exactly when it was there and has a different id |
| TextBoxes.RemovePartition | src/components/MemeGenerator.jsx:235 | the boxes are exactly the kept ones plus the removed ones, as multisets |
| TextBoxes.RemoveOrder | src/components/MemeGenerator.jsx:235 | the kept boxes are in their original relative order |
| TextBoxes.SelectionAfterRemove | src/components/MemeGenerator.jsx:236-238 | a selection other than the removed id is kept; a removed selection becomes the first remaining box, or none |
| TextBoxes.RemovePreservesUnique | src/components/MemeGenerator.jsx:235 | removing keeps ids unique |
| TextBoxes.RemoveKeepsHasId | script.js:286 | any other id is present after the removal exactly when it was before |
| TextBoxes.RemoveIdsBelow | src/components/MemeGenerator.jsx:235 | removing keeps every id below the counter |
| TextBoxes.SelectionAfterRemoveValid | script.js:287-288 | after a removal the selection still names an existing box |
| HitTest.WrapWidth | src/components/MemeGenerator.jsx:263 | `maxWidth` when it is non-zero, otherwise 0.9 × canvas width |
| HitTest.BoxRect | src/components/MemeGenerator.jsx:263-281 | the hit rectangle is centred on the anchor, as wide as the widest wrapped line and as tall as lines × fontSize × 1.2, each plus 20 px of padding |
| HitTest.PaddedRect | src/components/MemeGenerator.jsx:276-281 | the rectangle is centred on the anchor and is the text block grown by 10 px on each side |
| HitTest.LastWhere | src/components/MemeGenerator.jsx:257-288 | the last index whose box satisfies the test, with no later box satisfying it, or none when no box does |
| HitTest.Topmost | src/components/MemeGenerator.jsx:257-288 | the highest-index box whose padded box contains the point, or none when no box contains it |
| HitTest.BoxHit | script.js:419-438 | the loop body's measurement and containment test decides whether one box contains the point |
| HitTest.HitTest | script.js:412-453 | the reverse loop returns the topmost box containing the point, or none when no box contains it |
| HitTest.AnchorHits | src/components/MemeGenerator.jsx:276-281 | a caption's own anchor is inside its padded box |
| HitTest.NewestHitAtAnchor | src/components/MemeGenerator.jsx:257-288 | pressing at the anchor of the last box selects that box, whatever is below it |
| HitTest.Clamp | script.js:470-471 | `Math.max(0, Math.min(hi, v))` lies in `[0, hi]`, is `v` inside the range and the nearer end outside it |
| HitTest.GrabOffset | src/components/MemeGenerator.jsx:285 | the recorded offset is the cursor minus the anchor |
| HitTest.DragAnchor | src/components/MemeGenerator.jsx:304-305 | the new anchor is inside `[0,width] × [0,height]` and keeps the grab offset whenever that target is in range |
| HitTest.DragClampsToEdge | script.js:466-471 | a target past an edge puts the anchor exactly on that edge |
| CanvasFit.Rescale | src/components/MemeGenerator.jsx:58 | the rescaled side is the other side times the ratio of the new to the old bound |
| CanvasFit.FitWidth | src/components/MemeGenerator.jsx:57-60 | the width step: untouched when it fits, otherwise width becomes the bound, aspect kept |
| CanvasFit.FitHeight | src/components/MemeGenerator.jsx:61-64 | the height step: untouched when it fits, otherwise height becomes the bound, aspect kept |
| CanvasFit.Fit | src/components/MemeGenerator.jsx:66-67 | the backing store equals the image size |
| CanvasFit.ShrinkWidth | src/components/MemeGenerator.jsx:61-64 | the height step never widens the display |
| CanvasFit.ScaledAspect | src/components/MemeGenerator.jsx:61-64 | the height step keeps the image's aspect ratio |
| CanvasFit.PositiveAfterWidth | src/components/MemeGenerator.jsx:57-60 | when the height step has work left, the width after the first step is positive |
| CanvasFit.FitProperties | src/components/MemeGenerator.jsx:51-69 | backing store = image size; display within container − 40 and 0.8 × viewport height; aspect kept; unscaled when the image fits; otherwise one bound is met |
| CanvasFit.SetupCanvas | script.js:128-149 | the reassigning steps compute the fit: backing store = image size, display within both bounds, aspect kept |
| Render.StrokeWidth | src/components/MemeGenerator.jsx:118 | the component strokes at `max(6, fontSize/6)`, the page at `max(4, fontSize/8)` (script.js:360) |
| Render.ExportPlacement | src/components/MemeGenerator.jsx:335-342 | export font size and wrap width are multiplied by `scaleX`, position by `scaleX`/`scaleY`; factor 1 is the preview placement |
| Render.ScaleOps | src/components/MemeGenerator.jsx:340-341 | scaling a draw list scales every text position and keeps its length |
| Render.LinesOpsLength | src/components/MemeGenerator.jsx:125-132 | painting n lines issues n × (strokes + 1) operations |
| Render.LinesOpAt | src/components/MemeGenerator.jsx:125-132 | operation j of line i in the draw list is operation j of that line painted alone at its baseline `startY + i × lineHeight` |
| Render.LinesOpsAt | src/components/MemeGenerator.jsx:125-132 | line i is stroked (twice in the component, once in the page) then filled, at `startY + i × lineHeight` |
| Render.BlockCentred | src/components/MemeGenerator.jsx:99-101 | the first and last baselines are symmetric about the anchor: the text block is vertically centred |
| Render.VersionsDifferInStrokes | script.js:366-374 | a caption of n lines costs 3n operations in the component and 2n in the page, which strokes each line once |
| Render.Paint | src/components/MemeGenerator.jsx:97-132 | one caption painted at its placement: per wrapped line its strokes and one fill, only text calls, never an outline |
| Render.DrawText | src/components/MemeGenerator.jsx:90-149 | `drawText`: an outline is drawn exactly when the caption is selected, as the last call, around the rectangle the hit test accepts; script.js:332-393 is the page's copy |
| Render.DrawAll | src/components/MemeGenerator.jsx:82-86 | captions painted in list order; an outline appears exactly when some caption carries the selected id |
| Render.Redraw | src/components/MemeGenerator.jsx:73-88 | `redrawCanvas`: clears, stretches the image over the backing store, then paints the captions, with an outline exactly when a caption is selected |
| Render.Export | src/components/MemeGenerator.jsx:315-384 | the full-resolution render starts with the image at its natural size and after it only strokes and fills text: no clearing, no selection outline |
| Render.LineOpsScaled | src/components/MemeGenerator.jsx:362-369 | painting one line at a scaled position is the scaled painting |
| Render.LinesOpsScaled | src/components/MemeGenerator.jsx:362-369 | painting lines at a scaled start and scaled line height is the scaled draw list |
| Render.StartYScaled | src/components/MemeGenerator.jsx:345-347 | the first baseline scales with the anchor and the line height |
| Render.WrapAtScale | src/components/MemeGenerator.jsx:342-344 | at a proportionally scaled font, the scaled wrap width gives the preview's lines |
| Render.LayoutScaled | src/components/MemeGenerator.jsx:342-347 | a scaled placement has the same lines, the scaled line height and the scaled first baseline |
| Render.PaintPlacementScaled | src/components/MemeGenerator.jsx:335-369 | painting a scaled placement is the scaled painting of the original |
| Render.PaintScaled | src/components/MemeGenerator.jsx:332-372 | with a uniform factor and proportional text measurement, the exported caption is the preview caption scaled |
| Render.ExportScale | src/components/MemeGenerator.jsx:329-330 | the factor times the backing-store size is the image size, and it is 1 when the two agree |
| Render.ExportAllUnitScale | src/components/MemeGenerator.jsx:332-372 | at factor 1 the exported captions are the preview captions without selection outlines |
| Render.ExportMatchesPreview | src/components/MemeGenerator.jsx:322-347 | when the backing store has the image size, the export is the redraw without clearing and without the selection outline |
| Compress.FitWithin | src/components/MemeGenerator.jsx:393-397 | the compressed size fits the bounds, keeps the aspect ratio, is unchanged when it fits, and otherwise meets one bound |
| Compress.ScaledBelow | src/components/MemeGenerator.jsx:394-396 | a side times a ratio no larger than bound/side stays within the bound, and meets it at equality |
| Compress.ShrinkBound | src/components/MemeGenerator.jsx:422-423 | `Math.floor(bound * 0.8)` is the unique r with 5r ≤ 4·bound < 5r + 5, and it decreases |
| Compress.Tiers | src/components/MemeGenerator.jsx:420-427 | the bounds tried start with the given ones |
| Compress.TiersShape | src/components/MemeGenerator.jsx:422-426 | each later tier is the shrink of the previous one with both sides above 800, and the last tier's shrink is not |
| Compress.TiersBounded | src/components/MemeGenerator.jsx:422-426 | the recursion stops: at most maxWidth/160 + 1 tiers |
| Compress.DefaultTiers | src/components/MemeGenerator.jsx:387 | from 1920 the bounds are 1920, 1536, 1228, 982 |
| Compress.Qualities | src/components/MemeGenerator.jsx:416-418 | each quality above 0.5 is followed by one 0.1 lower, and the last is at most 0.5 |
| Compress.DefaultQualities | src/components/MemeGenerator.jsx:413-446 | from 0.85 the qualities 0.85…0.45 are tried; from 0.7, 0.7, 0.6 and 0.5 |
| Compress.TierAttempts | src/components/MemeGenerator.jsx:393-413 | every attempt at one bound encodes the fitted size at one of the qualities |
| Compress.Compressed | src/components/MemeGenerator.jsx:413-446 | the result is one of the attempts; it is under 1 MB unless none is, and then it is the last |
| Compress.CompressedIsFirstFit | src/components/MemeGenerator.jsx:415-440 | the result is the first attempt under 1 MB |
| Compress.Attempts | src/components/MemeGenerator.jsx:387-448 | every tier contributes at least one encode; the first encode uses the starting quality (0.85, or 0.7 on a retry tier) at a size within the first bound |
| Compress.AttemptsLength | src/components/MemeGenerator.jsx:413-446 | the number of encodings is the first tier's qualities plus three per later tier |
| Compress.DefaultAttemptCount | src/components/MemeGenerator.jsx:520 | a post encodes at most 14 times |
| Generator.InitialWellformed | src/components/MemeGenerator.jsx:14-19 | the initial state satisfies the invariant |
| Generator.LoadImage | src/components/MemeGenerator.jsx:162-167 | loading sets the image and the fitted canvas, clears captions and selection, keeps the rest |
| Generator.AddTextBox | src/components/MemeGenerator.jsx:203-223 | without an image nothing changes; otherwise one new box with id `nextId` is appended and selected, and `nextId` grows by one |
| Generator.UpdateTextBox | src/components/MemeGenerator.jsx:226-230 | only the boxes change, by the update by id |
| Generator.RemoveTextBox | src/components/MemeGenerator.jsx:233-241 | boxes filtered by id, the selection falls back as the source says, nothing else changes |
| Generator.Select | src/components/MemeGenerator.jsx:631-637 | the clicked box becomes the selection; the boxes, image, canvas, counter, drag flag and offset are unchanged |
| Generator.MouseDown | src/components/MemeGenerator.jsx:244-291 | the reverse loop computes the press: the boxes, image, canvas and counter are unchanged |
| Generator.SelectedIndex | src/components/MemeGenerator.jsx:22 | `selectedTextBox` is the first box with the selected id, or none |
| Generator.MouseMove | src/components/MemeGenerator.jsx:293-308 | without a drag or a selected box nothing changes |
| Generator.Press | src/components/MemeGenerator.jsx:244-291 | the press never changes the boxes, image, canvas or counter, and does nothing without an image |
| Generator.RedrawOps | src/components/MemeGenerator.jsx:73-88 | nothing is painted exactly when no image is loaded; with one, an outline is drawn exactly when a caption is selected |
| Generator.ExportOps | src/components/MemeGenerator.jsx:315-327 | on a well-formed editor, the "Please upload an image first!" case exactly when there is no image; otherwise the export draws no selection outline |
| Generator.MouseUp | src/components/MemeGenerator.jsx:310-312 | releasing ends the drag and changes nothing else |
| Generator.LoadImageWellformed | src/components/MemeGenerator.jsx:191-196 | loading keeps the invariant |
| Generator.AddTextBoxWellformed | src/components/MemeGenerator.jsx:203-223 | adding keeps ids unique and below the counter and the selection valid |
| Generator.UpdateAllKeepsIds | src/components/MemeGenerator.jsx:228 | an update never changes any id |
| Generator.UpdateTextBoxWellformed | src/components/MemeGenerator.jsx:226-230 | updating keeps the invariant |
| Generator.RemoveTextBoxWellformed | src/components/MemeGenerator.jsx:233-241 | removing keeps the invariant, including a valid selection |
| Generator.SelectWellformed | src/components/MemeGenerator.jsx:631-637 | selecting an existing box keeps the invariant |
| Generator.PressWellformed | src/components/MemeGenerator.jsx:244-291 | pressing keeps the invariant |
| Generator.MouseMoveWellformed | src/components/MemeGenerator.jsx:293-308 | dragging keeps the invariant |
| Generator.MouseUpWellformed | src/components/MemeGenerator.jsx:310-312 | releasing keeps the invariant |
| Generator.UpdateTextBoxEffect | src/components/MemeGenerator.jsx:226-230 | length kept, boxes with the id patched, all others untouched, an unknown id a no-op |
| Generator.PressSelectsTopmost | src/components/MemeGenerator.jsx:257-290 | the selection is the topmost box containing the point, with drag on and the offset from its anchor; it is cleared exactly when no box contains the point |
| Generator.AddThenPress | src/components/MemeGenerator.jsx:203-223 | pressing at a new caption's centre selects it with a zero offset |
| Generator.MouseMoveEffect | src/components/MemeGenerator.jsx:293-308 | the new state is the old one with only the selected box's anchor set to the clamped drag target; the anchor stays inside the canvas, follows the cursor minus the offset when that is in range, and sits on the nearest edge when it is not |
| Generator.MouseUpIdempotent | src/components/MemeGenerator.jsx:310-312 | releasing twice is releasing once |
| Generator.ExportIsPreview | src/components/MemeGenerator.jsx:315-347 | with an image loaded, the download draws the image and the captions exactly as the editor shows them, without the outline |
| Generator.Session | src/components/MemeGenerator.jsx:162-312 | load 400×300, add, edit, press, release, remove: the concrete states along the way |
| Page.Page.constructor | script.js:23-28 | the page starts in the component's initial state |
| Page.Page.LoadImage | script.js:76-86 | loading a template resets captions and selection as the component does, and keeps the invariant; the upload path at script.js:111-121 is the same |
| Page.Page.AddTextBox | script.js:152-172 | pushes the new box, increments `nextId`, selects it, and changes no field without an image |
| Page.Page.Edit | script.js:207-213 | writes the patch into the first matching box only, which equals the component's update |
| Page.Page.SetText | script.js:207-213 | the text handler changes only the matching box, and nothing when none matches |
| Page.Page.SetColor | script.js:225-231 | the colour handler changes only the matching box, and nothing when none matches |
| Page.Page.SetFontSize | script.js:236-243 | the size handler changes only the matching box, and nothing when none matches |
| Page.Page.SelectTextBox | script.js:268-281 | the selection becomes the found box or none, and nothing else changes |
| Page.Page.RemoveTextBox | script.js:284-291 | filters out the id and falls back to the first box or none, as the component does |
| Page.Page.MouseDown | script.js:401-454 | the reverse scan selects the topmost hit with drag and offset, or clears the selection |
| Page.Page.MouseMove | script.js:456-474 | a no-op unless dragging with a selection; otherwise the move equals the component's clamped move |
| Page.Page.MouseUp | script.js:476-478 | clears `isDragging`, equal to the component's release |
| Feed.ForMeme | src/components/MemeFeed.jsx:18-27 | a meme's group holds only upvotes for that meme and holds all of them |
| Feed.ByMeme | src/components/MemeFeed.jsx:18-27 | the reference grouping's keys are exactly the meme ids that have upvotes |
| Feed.ForMemeSnoc | src/components/MemeFeed.jsx:24 | one more upvote is appended to its own meme's group and changes no other |
| Feed.ForMemeAbsent | src/components/MemeFeed.jsx:32-33 | a meme with no upvotes has an empty group |
| Feed.MemeIdsSnoc | src/components/MemeFeed.jsx:21-23 | one more upvote adds exactly its meme id to the keys |
| Feed.GroupedMeaning | src/components/MemeFeed.jsx:18-27 | the grouping built step by step keys exactly the meme ids with upvotes, and each group is exactly that meme's upvotes in input order |
| Feed.GroupedIsByMeme | src/components/MemeFeed.jsx:18-27 | the step-by-step grouping equals the reference grouping |
| Feed.Grouped | src/components/MemeFeed.jsx:18-27 | the grouping built one upvote at a time; every group it creates holds at least one upvote |
| Feed.GroupByMeme | src/components/MemeFeed.jsx:18-27 | the `forEach` loop, creating each group on first sight and pushing, builds exactly the reference grouping |
| Feed.GroupMembership | src/components/MemeFeed.jsx:18-27 | an upvote is in a group exactly when it is an upvote for that meme |
| Feed.Keys | src/components/MemeFeed.jsx:21-23 | the keys in first-appearance order are distinct and are exactly the meme ids with upvotes |
| Feed.SumSizesAppend | src/components/MemeFeed.jsx:18-27 | summing group sizes over one more key adds that key's group size |
| Feed.SumSizesSnoc | src/components/MemeFeed.jsx:20-26 | one more upvote adds one to the sum of group sizes over distinct keys containing its meme |
| Feed.GroupSizesSum | src/components/MemeFeed.jsx:20-26 | the group sizes add up to the number of upvotes |
| Feed.Count | src/components/MemeFeed.jsx:32-33 | `?.length \|\| 0`: a meme without a group counts 0 |
| Feed.CountIsUpvotes | src/components/MemeFeed.jsx:32-33 | the count is the number of upvotes for the meme, 0 when it has none |
| Feed.Compare | src/components/MemeFeed.jsx:31-40 | negative exactly when a has more upvotes, or as many and is newer; zero exactly on equal count and time |
| Feed.PrecedesTotal | src/components/MemeFeed.jsx:31-40 | the comparator orders every pair one way or the other |
| Feed.PrecedesTransitive | src/components/MemeFeed.jsx:31-40 | the comparator's order is transitive |
| Feed.Insert | src/components/MemeFeed.jsx:30-41 | inserting adds exactly the meme and puts it or the old head first |
| Feed.SortMemes | src/components/MemeFeed.jsx:30-41 | the sort returns a permutation of the memes |
| Feed.InsertSorted | src/components/MemeFeed.jsx:30-41 | inserting into a sorted feed keeps it sorted |
| Feed.SortMemesSorted | src/components/MemeFeed.jsx:32-39 | adjacent memes are in comparator order |
| Feed.SortedPairwise | src/components/MemeFeed.jsx:32-39 | in the sorted feed every earlier meme precedes every later one |
| Feed.FeedOrder | src/components/MemeFeed.jsx:30-41 | the feed is a permutation of the memes; for adjacent a, b: count(a) ≥ count(b), and on equal counts a.createdAt ≥ b.createdAt |
| Feed.FeedView | src/components/MemeFeed.jsx:43-107 | the loading screen exactly while loading; the error screen with the `error` state's message exactly when loading has finished and that state is set |
| Feed.FeedViewCases | src/components/MemeFeed.jsx:70-94 | "No memes yet!" exactly when loading has finished, the `error` state is null and there are no memes; the grid has one card per meme with that meme's upvotes |
| Feed.MemeFeedView | src/components/MemeFeed.jsx:8-15 | with the `error` state null as the component leaves it, the error screen is never shown; after loading, a missing `data` (a failed query) shows "No memes yet!", and otherwise the empty screen appears exactly when the query returned no memes |
| UpvoteCard.UpvoteCount | src/components/MemeCard.jsx:8 | the list's length, or 0 when there is no list; the modal's count at MemeModal.jsx:8 is the same expression |
| UpvoteCard.SomeByUser | src/components/MemeCard.jsx:11 | `some` is true exactly when some upvote has the user's id |
| UpvoteCard.HasUpvoted | src/components/MemeCard.jsx:9-12 | false without a user or a list; otherwise true exactly when some upvote's `userId` is the user's id; MemeModal.jsx:9-12 is the same |
| UpvoteCard.FindByUser | src/components/MemeCard.jsx:22 | `find` returns the first upvote by the user, or none exactly when there is none |
| UpvoteCard.HandleUpvote | src/components/MemeCard.jsx:14-48 | without a user only the sign-in alert; a delete only when upvoted; a create for this meme and user only when not; MemeModal.jsx:14-47 decides the same |
| UpvoteCard.HandleUpvoteDecision | src/components/MemeCard.jsx:20-46 | a signed-in click deletes the user's first upvote when there is one, and otherwise creates one for this meme |
| UpvoteCard.Without | src/components/MemeCard.jsx:26 | deleting by id keeps exactly the upvotes with another id |
| UpvoteCard.Commit | src/components/MemeCard.jsx:20-46 | a delete keeps exactly the upvotes with another id; a create appends exactly the new upvote; an alert or no transaction leaves the list |
| UpvoteCard.UpvoteToggles | src/components/MemeCard.jsx:14-48 | on the card, whose list is live, when the user holds at most one upvote, committing the click's transaction flips `hasUpvoted` |
| UpvoteCard.ModalRepeatedClicks | src/components/MemeFeed.jsx:95-102 | the modal's list is the copy taken when it opened: two clicks by a user who had not upvoted issue two creates and leave the user with two upvotes |
| UpvoteCard.FormatDate | src/components/MemeCard.jsx:50-63 | `formatDate` with nested floors: a day count is at least 1, an hour count 1–23, a minute count 1–59 |
| UpvoteCard.Label | src/components/MemeCard.jsx:59-62 | "Just now" exactly for the under-a-minute bucket; otherwise a number followed by "d ago", "h ago" or "m ago" |
| UpvoteCard.DecimalRoundTrip | src/components/MemeCard.jsx:59-61 | the digits written for a count read back as that count |
| UpvoteCard.LabelSpellsCount | src/components/MemeCard.jsx:59-61 | before its "d ago", "h ago" or "m ago" suffix, a label's digits spell the bucket's count |
| UpvoteCard.FormatDateBuckets | src/components/MemeCard.jsx:50-63 | days when at least 86400000 ms elapsed, else hours (1–23), else minutes (1–59), else "Just now", each the floor of the elapsed time; MemeModal.jsx:64-77 is the same |
| UpvoteCard.MinutesFloor | src/components/MemeCard.jsx:54-55 | flooring by 1000 then 60 is flooring by 60000 |
| UpvoteCard.HoursFloor | src/components/MemeCard.jsx:55-56 | flooring minutes by 60 is flooring milliseconds by 3600000 |
| UpvoteCard.DaysFloor | src/components/MemeCard.jsx:56-57 | flooring hours by 24 is flooring milliseconds by 86400000 |

## Left out

- Canvas painting is recorded as a draw list (`Render.DrawOp`). Pixels, fonts, smoothing flags, `textAlign`/`textBaseline`, stroke colour, line dash and the outline's line width are not modelled.
- Render.StrokeWidth: the line width `max(6, fontSize/6)` (page: `max(4, fontSize/8)`) is characterised but not carried in `StrokeText`. Because of its floor it does not scale with the font, so the export's outlines are not the preview's scaled (font 24 at factor 2 gives 8, not 12); `Render.PaintScaled` speaks only of text and positions.
- `ctx.measureText` is an abstract, deterministic function of font size and text (`HitTest.Measure`).
- Render.PaintScaled: export equals the scaled preview only when measurement is proportional to font size, which is stated as a precondition. It is also stated only for equal horizontal and vertical factors, which is what an image-sized backing store gives.
- Numbers are exact reals and unbounded integers. JavaScript's floating-point rounding is not modelled, so the quality steps are counted in hundredths.
- Converting mouse event client coordinates to canvas pixels (the `getBoundingClientRect` factor) is not modelled. Cursor positions are given in canvas pixels.
- Text measurement for hit testing and painting is assumed to run with the font set just before it. Font family and weight strings are not modelled.
- `FileReader`, image decoding, the `alert` calls, `toBlob`, the data-URL download, `crypto.randomUUID`, `Date.now` and `new Date()` are not modelled. The JPEG encoder is a function parameter (`Compress.Encoder`), the clock reading is a parameter of `UpvoteCard.FormatDate`, and the new upvote id is a parameter of `UpvoteCard.HandleUpvote`.
- The promise chaining and callbacks of `compressImage` are not modelled, and neither is the case of a null blob. The integer truncation when `compressedCanvas.width` is assigned a fractional size is not modelled either: the fitted size stays real.
- The database transactions are not modelled: the meme and upvote writes, posting, the query and its error, and the permission rules. `UpvoteCard.Commit` states only what the issued transaction does to the meme's upvote list.
- Auth, the auth context, the database client, the permission file, the app shell and the header are not part of this model.
- The page script's `selectedTextBox` is an object reference. It is modelled by id, which is the same thing because ids are proved unique (`Page.Page.Valid`).
- The size slider's `parseInt` result is taken as a given integer; a non-numeric value is not modelled.
- DOM list rendering is not modelled: `renderTextBoxControls`, `escapeHtml`, control focus, the template gallery and the modal's Escape key and scroll lock.
- The canvas and container references are assumed mounted, so the early returns on a missing reference are not modelled.
- Loaded images are assumed to have positive width and height. A zero-sized image fails the `LoadImage` precondition rather than being modelled.
- Feed.SortMemes: proved sorted in the comparator's order and a permutation. The stability of the engine's `sort` among memes that tie is not stated.
- UpvoteCard.UpvoteToggles: flips `hasUpvoted` only when the user held at most one upvote, and only for the card, which receives the live grouping (MemeFeed.jsx:94). The modal receives the list copied when it was opened (MemeFeed.jsx:95 and 102), so its `hasUpvoted` does not refresh after a commit: its toggle does not flip, and repeated clicks create duplicate upvotes (`UpvoteCard.ModalRepeatedClicks`).
- UpvoteCard.Label renders the count with `UpvoteCard.Decimal`, proved to read back as the count (`UpvoteCard.LabelSpellsCount`). That this is exactly JavaScript's number-to-string conversion is not proved; for the non-negative integer counts involved they agree.
- The query's own error value is not part of the model, because `MemeFeed` never reads it and never calls `setError`, so its error screen is unreachable (`Feed.MemeFeedView`), and a failed query leaves `data` undefined and shows "No memes yet!".
