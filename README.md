# ArtSpace gallery navigation in Dafny

ArtSpace is a single-screen Android app that shows a list of art pieces
loaded from a bundled JSON asset. The user moves through the list with
"back" and "next" buttons or by swiping horizontally. All of its logic that
is not layout lives in `MainActivity.kt`, and this project models that logic.

- `gallery.dfy`, module `Gallery`. This is `ArtGalleryScreen`. The
  `ArtPiece` record is a datatype. The class `GalleryScreen` holds the fixed
  list and the mutable `index`. Its `Next` and `Back` methods move the index
  and saturate at the ends; they never wrap and never fail. `Current` is the
  piece on screen. The pure functions `NextIndex`, `BackIndex` and `Run`
  specify these methods. The lemmas cover saturation, idempotence at the
  boundaries and round trips. `At` models Kotlin's list indexing, which
  throws for an index outside the list.
- `swipe.dfy`, module `Swipe`. This is the `hasSwiped` latch of
  `ArtPieceScreen`. The class `SwipeLatch` has `DragStart`, which re-arms
  the latch, and `Drag`, which handles one drag event. `Drag` calls the
  gallery's `Next` or `Back`, exactly as the `onNext`/`onBack` callbacks do,
  and returns the action it fired. `DragStep`, `Fired` and `Gesture` are the
  pure specification. The lemmas show that a gesture fires at most one
  action, that the action comes from the first event past the threshold and
  matches that event's direction, and that a gesture moves the gallery by at
  most one piece. `PlayGesture` delivers one gesture's events in order, as
  the toolkit's drag detector does. Its contract ties the class to `Gesture`.

The buttons' `onClick` handlers (`MainActivity.kt:135`, `:148`) are the
same `onBack`/`onNext` closures, so a button press is a direct call of
`GalleryScreen.Back` or `GalleryScreen.Next`.

The code differs from the app's design description in three places, and
the model follows the code each time:
- The description has each drag update compare the gesture's cumulative
  displacement with ±100. The code compares each callback's own
  `dragAmount` (`MainActivity.kt:73`, `:77`), and so does `DragStep`.
- The description clamps an out-of-range start index. The code does not
  clamp it (`MainActivity.kt:166`). The constructor of `GalleryScreen`
  therefore requires that `startIndex` lies inside the list.
- The description has a dedicated error for an empty gallery. The code
  simply indexes the list (`MainActivity.kt:180`), which throws an
  index-out-of-bounds exception. `At` models that exception. The
  constructor requires a non-empty list, and `GalleryScreen.Current` shows
  that the lookup never fails in a valid screen.

## Model

| member | source | states |
|---|---|---|
| `Gallery.At` | app/src/main/java/com/example/artspace/MainActivity.kt:180 | indexing the list succeeds exactly when `i` is at least 0 and below the list's length, and then yields `items[i]`; any other index is the out-of-bounds failure carrying that index |
| `Gallery.NextIndex` | app/src/main/java/com/example/artspace/MainActivity.kt:168-172 | `onNext` keeps a valid index valid; it moves forward by exactly one when a later piece exists (`i < n-1`) and otherwise leaves the index unchanged |
| `Gallery.BackIndex` | app/src/main/java/com/example/artspace/MainActivity.kt:174-178 | `onBack` keeps a valid index valid; it moves back by exactly one when `i > 0` and otherwise leaves the index unchanged |
| `Gallery.Run` | app/src/main/java/com/example/artspace/MainActivity.kt:166-178 | after any sequence of next/back requests from a valid index, the index is still in `[0, n-1]`, and it has moved by at most the number of requests |
| `Gallery.NextsSaturate` | app/src/main/java/com/example/artspace/MainActivity.kt:168-172 | `k` nexts from a valid index `i` land on exactly `min(i+k, n-1)`: the index saturates at the last piece and never wraps |
| `Gallery.BacksSaturate` | app/src/main/java/com/example/artspace/MainActivity.kt:174-178 | `k` backs from a valid index `i` land on exactly `max(i-k, 0)`: the index saturates at the first piece and never wraps |
| `Gallery.NextIdempotentAtLast` | app/src/main/java/com/example/artspace/MainActivity.kt:169 | at the last index, any number of repeated nexts leaves the index where it is |
| `Gallery.BackIdempotentAtFirst` | app/src/main/java/com/example/artspace/MainActivity.kt:175 | at index 0, any number of repeated backs leaves the index where it is |
| `Gallery.BackUndoesNext` | app/src/main/java/com/example/artspace/MainActivity.kt:168-178 | back after next restores any index below `n-1`, and next after back restores any index above 0 |
| `Gallery.NextsThenBacksRestore` | app/src/main/java/com/example/artspace/MainActivity.kt:168-178 | `k` nexts followed by `k` backs return to the starting index whenever `i + k <= n-1` |
| `Gallery.BacksThenNextsRestore` | app/src/main/java/com/example/artspace/MainActivity.kt:168-178 | `k` backs followed by `k` nexts return to the starting index whenever `i - k >= 0` |
| `Gallery.GalleryScreen.constructor` | app/src/main/java/com/example/artspace/MainActivity.kt:165-166 | the screen keeps the given list and starts at the given index without clamping it; a non-empty list and an in-range start are required |
| `Gallery.GalleryScreen.Next` | app/src/main/java/com/example/artspace/MainActivity.kt:168-172 | `onNext` changes only the index, to `NextIndex` of the old index, and keeps it in range |
| `Gallery.GalleryScreen.Back` | app/src/main/java/com/example/artspace/MainActivity.kt:174-178 | `onBack` changes only the index, to `BackIndex` of the old index, and keeps it in range |
| `Gallery.GalleryScreen.Current` | app/src/main/java/com/example/artspace/MainActivity.kt:180 | the displayed piece is `items[index]`, and the list lookup that yields it never throws in a valid screen |
| `Gallery.ExampleTour` | app/src/main/java/com/example/artspace/MainActivity.kt:165-181 | on a gallery `[A, B, C]` started at 0, the presses next, next, next, back show B, C, C, B |
| `Swipe.DragStep` | app/src/main/java/com/example/artspace/MainActivity.kt:71-81 | a drag event fires next exactly when the latch is unset and `dragAmount < -100`; it fires back exactly when the latch is unset and `dragAmount > 100`; the latch is set afterwards exactly when it was already set or something fired, so an event within ±100 leaves the latch unchanged |
| `Swipe.LatchedIsSilent` | app/src/main/java/com/example/artspace/MainActivity.kt:72 | once `hasSwiped` is set, no later drag event fires anything, and the latch stays set |
| `Swipe.AtMostOneAction` | app/src/main/java/com/example/artspace/MainActivity.kt:70-81 | between two drag starts at most one navigation request fires, and none fires if the latch is already set |
| `Swipe.SilentWithoutCrossing` | app/src/main/java/com/example/artspace/MainActivity.kt:73-80 | a gesture whose events all stay within ±100 fires nothing and leaves the latch unset |
| `Swipe.FiresAtFirstCrossing` | app/src/main/java/com/example/artspace/MainActivity.kt:70-81 | in a gesture, the first event beyond ±100 fires next when leftward and back when rightward; every other event fires nothing; exactly one request fires, and the latch ends up set |
| `Swipe.ExampleTrace` | app/src/main/java/com/example/artspace/MainActivity.kt:71-81 | the drag trace 0, -50, -120, -200, -90 fires one next, at the third event, and nothing else |
| `Swipe.GestureMovesAtMostOne` | app/src/main/java/com/example/artspace/MainActivity.kt:70-81 | across one gesture the gallery index stays in range and moves by at most one; with the latch already set it does not move |
| `Swipe.SwipeLatch.constructor` | app/src/main/java/com/example/artspace/MainActivity.kt:62 | the latch starts unset |
| `Swipe.SwipeLatch.DragStart` | app/src/main/java/com/example/artspace/MainActivity.kt:70 | `onDragStart` clears `hasSwiped` whatever its previous value |
| `Swipe.SwipeLatch.Drag` | app/src/main/java/com/example/artspace/MainActivity.kt:71-81 | one `onHorizontalDrag` callback returns the action and leaves the latch as `DragStep` prescribes; it changes the gallery index only by calling `onNext`/`onBack` for that action |
| `Swipe.SwipeLatch.PlayGesture` | app/src/main/java/com/example/artspace/MainActivity.kt:69-83 | a drag start followed by the gesture's events, in order, fires exactly `Gesture(amounts)`, leaves the latch as `LatchAfter` says, and moves the gallery index by at most one |

## Left out

- Rendering and layout: the columns, rows, boxes, texts, buttons, icons,
  shadow, sizes and the portrait/landscape choice (`MainActivity.kt:54-60`,
  `:63-161`). They hold no logic beyond binding the callbacks.
- Image loading with Coil's `rememberAsyncImagePainter`
  (`MainActivity.kt:100`). It is an asynchronous foreign library.
- `loadArtPieces` (`MainActivity.kt:184-188`). It reads an asset file and
  parses it with Gson. The model keeps only what the core needs from it:
  `GalleryScreen`'s constructor requires a non-empty list.
- `MainActivity.onCreate` and `rememberSaveable` (`MainActivity.kt:166`,
  `:190-197`). These are Android lifecycle and state-saving plumbing. The
  start index 0 that `onCreate` passes is one admissible constructor
  argument.
- `dragAmount` is a `Float` in the app and a `real` here. Float rounding
  plays no part, because only comparisons against ±100 matter. A NaN
  amount, which fails both comparisons and so fires nothing, is not
  modelled.
- Kotlin's 32-bit `Int` for the index is not modelled. This loses nothing:
  the index only moves within `[0, size-1]`, so it never overflows.
- The toolkit's gesture detection itself (pointer tracking, touch slop,
  when `onDragStart` is called). `PlayGesture` models only what that
  detection does with the model: one drag start, then that gesture's drag
  events in order.
