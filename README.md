# Image slider visual: view-model transform and image cursor

This project models the core of a Power BI custom visual that shows one image at a
time out of a table supplied by the host, with a left and a right arrow to browse.
Two parts are modelled and proved:

- **visualTransform** (`transform.dfy`, module `Transformation`). It turns one host update
  into a `VisualViewModel`. Invalid data views give an empty list. Otherwise there is one
  `DataPoint` per table row, in row order. Each point carries the row's cell in the
  column bound to the `imageUrl` role, or nothing when no column is bound, and the
  selection id issued for that row. The source's `for` loop with `push` is the method
  `VisualTransform`. It is proved equal to the recursive specification `Transform`, and
  the row-by-row properties are proved about that specification.
- **The current-image index of `Visual`** (`visual.dfy`, module `Widget`, over the
  arithmetic in `cursor.dfy`, module `Cursor`). The class `Visual` keeps the fields `model`
  (the data points) and `index` (`currentImageIndex`).
  - The constructor sets the index to 0.
  - `Update` rebuilds the model and pulls the index back into range: a negative index is
    raised to 0, then an index at or past the end drops to `length - 1`.
  - `ClickRight` and `ClickLeft` are the arrows' handlers. They step by one, stop at the
    ends, and repaint only when they moved.
  - `UpdateImage` reads the item at the index and hides the left arrow at index 0 and
    the right arrow at index `length - 1`.

  The pure functions `Clamp`, `StepRight` and `StepLeft` and the predicates `LeftHidden`
  and `RightHidden` state these rules once. The class's methods are proved against them.
  The lemmas in `Cursor` prove the promised properties, including that every sequence of
  updates and clicks from construction keeps the index consistent (`Run`, `ReachableIsConsistent`).

`viewmodel.dfy` (module `ViewModel`) holds the records of `src/viewmodel.ts`. The host's
helpers `Utils.hasValidDataViews`, `Utils.getColumnIndex` and `Utils.getSelectionIds` are
not part of this model. Their results reach the model as the fields of `UpdateOptions`:
a validity flag, the rows, an optional column position and the selection ids. Selection
ids are a type parameter `Id` and are never inspected.

Modelling choices that follow the code:

- **Empty gallery in `update`.** With an empty gallery, `update` sets the index to -1 and
  then calls `updateImage`. That call reads `dataPoints[-1].imageUrl`, which raises a
  TypeError in JavaScript. `Update` models this as the outcome `ThrewTypeError`, and the
  new model and index are kept as the source leaves them. A later update that brings
  items back moves the index from -1 to 0 (`Cursor.EmptyThenRefilled`). So an empty
  gallery shows nothing and reports no arrow state; the model does not treat this as
  "both arrows hidden".
- **Cell reads.** `row[imageUrlIndex]` past the end of a row reads `undefined` in
  JavaScript and does not throw. The model reads such a cell as `None`, so it needs no
  precondition on the column position.
- **Selection ids.** The source reads `selectionIDs[i]` without a bound check. The host
  issues one id per row, so `WellFormed` requires at least as many ids as rows in a valid
  update.
- **Before the first update.** The source constructor leaves `model` undefined. The model
  sets it to the empty list and the index to 0, which is why `Cursor.Consistent` allows
  index 0 or -1 for an empty gallery.

Transform is a function, so equal inputs give equal view models. `VisualTransform` is
proved equal to it, so the method behaves the same way.

## Model

| member | source | states |
|---|---|---|
| Transformation.VisualTransform | src/visual.ts:30-57 | Invalid data views give an empty list. Otherwise the list has exactly one point per row, and point `i` is row `i`'s image cell with selection id `i`. The result equals the specification `Transform`. |
| Transformation.PointsOfAt | src/visual.ts:45-52 | The per-row loop keeps the row count and row order: point `i` depends only on row `i` and selection id `i`. |
| Transformation.TransformFollowsRows | src/visual.ts:32-52 | `Transform` is empty for invalid data views. For valid ones it has `|rows|` points, in row order, each built from its own row and selection id. |
| Transformation.UnboundColumnGivesNoImages | src/visual.ts:43-49 | When no column is bound to `imageUrl`, every point's image URL is null. |
| Transformation.BoundColumnGivesCells | src/visual.ts:43-49 | When column `c` is bound, point `i`'s image URL is `rows[i][c]`. |
| Cursor.Clamp | src/visual.ts:105-110 | After an update the index is in `[0, length-1]` for a non-empty gallery and -1 for an empty one. An index already in range is unchanged, a negative one becomes 0, and one at or past the end becomes `length-1`. |
| Cursor.EmptyThenRefilled | src/visual.ts:105-109 | Whatever the index was, an update to an empty gallery leaves -1. The next update with items brings the index to 0 through the negative check. |
| Cursor.StepRightSaturates | src/visual.ts:87-92 | A right click adds exactly 1 iff the index is before the last item, otherwise leaves it. It never passes `length-1` and keeps the index consistent. |
| Cursor.StepLeftSaturates | src/visual.ts:93-98 | A left click subtracts exactly 1 iff the index is above 0, otherwise leaves it. It never goes below 0 and keeps the index consistent. |
| Cursor.StepsUndoEachOther | src/visual.ts:87-98 | Away from the ends, a left click undoes a right click and a right click undoes a left click. |
| Cursor.RightClicksSaturate | src/visual.ts:87-92 | `k` right clicks from index `i` land on `min(i+k, length-1)`. |
| Cursor.LeftClicksSaturate | src/visual.ts:93-98 | `k` left clicks from index `i` land on `max(i-k, 0)`. |
| Cursor.HiddenArrowIsInert | src/visual.ts:87-122 | On a non-empty gallery, the left arrow is hidden iff a left click would not move, and the right arrow is hidden iff a right click would not move. |
| Cursor.BothHiddenIffSingleItem | src/visual.ts:121-122 | On a non-empty gallery, both arrows are hidden iff the gallery has exactly one item. |
| Cursor.RunStaysConsistent | src/visual.ts:87-110 | Any sequence of updates and clicks keeps a consistent index consistent. Clicks alone never change the gallery length. |
| Cursor.ReachableIsConsistent | src/visual.ts:74-110 | From construction (index 0, no items), every history of events leaves the index consistent with the gallery. |
| Widget.Visual.constructor | src/visual.ts:74 | The index starts at 0 and the state is consistent. |
| Widget.Visual.UpdateImage | src/visual.ts:118-123 | Given an index inside the gallery, it shows that item's image URL. The left arrow is hidden iff the index is 0, the right arrow iff it is `length-1`. |
| Widget.Visual.Update | src/visual.ts:102-116 | The model becomes `Transform` of the update and the index becomes `Clamp` of the old index. The repaint shows the current item, or raises a TypeError exactly when the gallery is empty. |
| Widget.Visual.ClickRight | src/visual.ts:87-92 | The index becomes `StepRight` of the old one. The handler repaints iff it moved, the model is untouched, and the state stays consistent. |
| Widget.Visual.ClickLeft | src/visual.ts:93-98 | The index becomes `StepLeft` of the old one. The handler repaints iff it moved, the model is untouched, and the state stays consistent. |

## Left out

- DOM work: creating the image and arrow elements, class names and inner HTML, the `<img>` markup string, style assignments and the jQuery click wiring (src/visual.ts:75-86, 111-114, 120). Only the index logic and the hide-or-show booleans are modelled, as `Frame`.
- Viewport width and height (src/visual.ts:111-114). They only size the image element.
- `Visual.parseSettings` and `enumerateObjectInstances` (src/visual.ts:103, 125-131). They delegate to `VisualSettings`, which is not part of this model.
- `Utils.hasValidDataViews`, `Utils.getSelectionIds` and `Utils.getColumnIndex`. They are not part of this model; their results are the inputs of `UpdateOptions`.
- The host, the selection manager and the element handle kept by the constructor (src/visual.ts:71-73). None of them is inspected by the core.
- Cell values that are neither text nor null. The source casts the cell to a string without converting it; the model's cells are text or nothing.
- Widget.Visual.ClickRight: a right click before the first update would raise a TypeError in the source, because `model` is still undefined. The model starts with an empty gallery, so the click does nothing.
- Widget.Visual.Update: what the host does with the TypeError that `update` raises on an empty gallery is not modelled. The model returns `ThrewTypeError` and keeps the model and index that the source had already set.
