# Flipbook editing session, modelled in Dafny

This project models the in-memory core of a browser flipbook editor. A user
uploads images, arranges them into an ordered list of pages, and plays them
back as an animated flipbook. The model covers:

- the editing session (`useFlipbook`): the page list with its dense `order`
  field, the playback cursor with wraparound, the play flag, the speed, the
  title, and the guarded autoplay tick;
- the drag-to-reorder state of the thumbnail rail (`PageThumbnails`) and its
  wiring to `reorderPages` on the editor page;
- the enablement rules of the transport buttons (`FlipbookControls`);
- the mapping from pages to database rows inside `saveFlipbook`.

`saveFlipbook` has no caller in the source: it is defined and exported by
`useFlipbookStorage`, and the editor page has no save path. `SaveInput` models
what a caller passing the editor's `FlipbookPage[]` would hand over: the image
and the order of each page, with the optional file name, source type and page
number left undefined. `SessionRows` states what such a save would insert.

Layout, one module per file:

- `Optional.dfy`: `Option`, for nullable values and optional properties.
- `Pages.dfy` (`FlipbookPages`): the `Page` record and the pure list
  computations of the session, with their lemmas.
- `Cursor.dfy` (`PlaybackCursor`): cursor arithmetic. JavaScript's truncating
  `%` is written out as `JsRem`.
- `Session.dfy` (`FlipbookSession`): the class `Flipbook`. Every session
  operation is a method that overwrites fields. Its invariant `Valid()` says
  the order is dense, the ids are unique, the cursor lies in
  `[0, max(0, n-1)]` and the speed lies in 1..30.
- `Thumbnails.dfy` (`PageThumbnails`): the class `ThumbnailRail` with the two
  nullable drag indices and the three drag handlers.
- `Editor.dfy` (`FlipbookBuilder`): the end of a drag feeding `reorderPages`.
- `Controls.dfy` (`FlipbookControls`): the transport bar as a pure function.
- `Storage.dfy` (`FlipbookStorage`): the page-row mapping.

Page ids are drawn at random in the source. Here the caller passes them in,
and each one must be fresh: distinct from the others and from every id
already in the book. Unique ids are part of the session invariant.
`DuplicateIdsBreakCursorBound` shows that this is needed: when an id is
shared by several pages, `removePage` can drop more than one page, and the
clamped cursor then points past the end.

In three places the code does something other than one might expect, and the model follows the code:

- `removePage` always sets the cursor to `min(c, max(0, oldLen - 2))`. This
  happens even when the id is unknown and whatever the removed page's
  position. One might expect removing an unknown id to leave the cursor
  alone; the code clamps it anyway. `UnknownIdStillMovesCursor` shows such a
  case: two pages, the cursor on the second.
- `reorderPages` does not check its indices, and there is no error outcome
  for an invalid index. Its only caller passes indices of rendered thumbnails. The model
  requires both indices to be in range, and `EndDrag` proves that the rail
  always meets that requirement.
- With one page or none, `nextPage` and `prevPage` give 0 rather than "the
  cursor unchanged". Under the invariant the two agree.

## Model

| member | source | states |
|---|---|---|
| `FlipbookPages.Reindex` | src/hooks/useFlipbook.ts:27 | the result has the same length, ids and images position by position, and its order is dense; it keeps ids unique and leaves an already dense list unchanged |
| `FlipbookPages.NewPages` | src/hooks/useFlipbook.ts:16-20 | the k-th new page has the k-th fresh id, the k-th url and order `base + k` |
| `FlipbookPages.Appended` | src/hooks/useFlipbook.ts:15-21 | the old list is a prefix, followed by one page per url in input order with order `oldLen + k`; a dense list stays dense without re-indexing, and fresh ids keep the ids unique |
| `FlipbookPages.Without` | src/hooks/useFlipbook.ts:26 | no page with the id is left, the list never grows, and an absent id leaves the list unchanged |
| `FlipbookPages.WithoutMembers` | src/hooks/useFlipbook.ts:26 | a page is in the result exactly when it was in the list and has a different id |
| `FlipbookPages.WithoutAppend` | src/hooks/useFlipbook.ts:26 | filtering distributes over concatenation, so the kept pages keep their relative order |
| `FlipbookPages.WithoutAt` | src/hooks/useFlipbook.ts:24-28 | with unique ids, removing the id of the page at `k` removes exactly position `k` |
| `FlipbookPages.WithoutUnique` | src/hooks/useFlipbook.ts:24-29 | with unique ids, removal drops one page if the id is present and none otherwise; ids stay unique and the id is gone |
| `FlipbookPages.FindIndex` | src/hooks/useFlipbook.ts:33-34 | none exactly when no page has the id; otherwise the first position holding it |
| `FlipbookPages.FindIndexUnique` | src/hooks/useFlipbook.ts:33 | with unique ids, the lookup finds the page's own position |
| `FlipbookPages.InsertAt` | src/hooks/useFlipbook.ts:45 | the element lands at `k`, earlier elements stay put, later ones shift right by one, and the multiset gains exactly that element |
| `FlipbookPages.RemoveAt` | src/hooks/useFlipbook.ts:53 | the element at `k` goes, earlier elements stay put, later ones shift left by one, and the multiset loses exactly that element |
| `FlipbookPages.Move` | src/hooks/useFlipbook.ts:50-56 | the length and the multiset are preserved, and the moved element ends at `to` |
| `FlipbookPages.MoveAt` | src/hooks/useFlipbook.ts:52-54 | where every position lands: outside the span it is unchanged, inside it shifts by one towards `from`, and `to` holds the moved element |
| `FlipbookPages.MoveInverse` | src/hooks/useFlipbook.ts:50-56 | moving from `to` back to `from` restores the original list |
| `FlipbookPages.MoveFirstToLast` | src/hooks/useFlipbook.ts:50-56 | `[A, B, C]` moved from 0 to 2 gives `[B, C, A]` |
| `FlipbookPages.ReorderedContent` | src/hooks/useFlipbook.ts:50-56 | after re-indexing, the ids and images are the input's moved from `from` to `to`, and they form a permutation of the input's; the order is dense |
| `FlipbookPages.UniqueRemove` | src/hooks/useFlipbook.ts:53 | taking one page out keeps the ids unique, and the removed id is gone |
| `FlipbookPages.UniqueInsert` | src/hooks/useFlipbook.ts:37-45 | inserting a page with an unused id keeps the ids unique |
| `FlipbookPages.UniqueMove` | src/hooks/useFlipbook.ts:50-56 | reordering keeps the ids unique |
| `FlipbookPages.Duplicated` | src/hooks/useFlipbook.ts:32-47 | an unknown id leaves the list unchanged; otherwise it grows by one and its order is dense |
| `FlipbookPages.DuplicatedSpec` | src/hooks/useFlipbook.ts:32-47 | for a known id at `k`, the copy has the fresh id and the source image and sits at `k + 1`; every other page keeps its content and relative order, and the ids stay unique |
| `PlaybackCursor.JsRem` | src/hooks/useFlipbook.ts:60 | JavaScript's remainder is in `[0, b)` for a non-negative dividend and in `(-b, 0]` for a negative one |
| `PlaybackCursor.NextIndex` | src/hooks/useFlipbook.ts:59-61 | keeps the cursor in range; steps to `c + 1` before the last page; wraps from the last page to 0; gives 0 with one page or none |
| `PlaybackCursor.PrevIndex` | src/hooks/useFlipbook.ts:63-65 | keeps the cursor in range; steps to `c - 1` after the first page; wraps from 0 to the last page; gives 0 with one page or none |
| `PlaybackCursor.NextPrevInverse` | src/hooks/useFlipbook.ts:59-65 | next and previous undo each other on every in-range cursor |
| `PlaybackCursor.ClampIndex` | src/hooks/useFlipbook.ts:67-69 | the result is always in range (0 for an empty book); an in-range index is kept, a negative one gives 0, and one past the end gives the last page |
| `PlaybackCursor.RemovalCursor` | src/hooks/useFlipbook.ts:29 | never moves the cursor forward; lands in `[0, max(0, oldLen - 2)]`; a cursor already there is unchanged, and a cursor beyond it lands on `max(0, oldLen - 2)` |
| `PlaybackCursor.RemovalCursorInRange` | src/hooks/useFlipbook.ts:29 | the clamped cursor is valid for any new length that lost at most one page |
| `PlaybackCursor.NextNAdvances` | src/hooks/useFlipbook.ts:83-86 | `j` autoplay ticks that do not reach the end advance the cursor by `j` |
| `PlaybackCursor.NextNCompose` | src/hooks/useFlipbook.ts:83-86 | `a` ticks followed by `b` ticks are `a + b` ticks |
| `PlaybackCursor.NextNFullCycle` | src/hooks/useFlipbook.ts:83-86 | after `n` ticks on `n` pages the cursor is back where it started |
| `FlipbookSession.Flipbook.constructor` | src/hooks/useFlipbook.ts:7-12 | no pages, cursor 0, not playing, 12 fps, title "Untitled Flipbook", empty description |
| `FlipbookSession.Flipbook.AddPages` | src/hooks/useFlipbook.ts:15-22 | pages become the old list followed by the new pages; the invariant is kept |
| `FlipbookSession.Flipbook.RemovePage` | src/hooks/useFlipbook.ts:24-30 | pages become the re-indexed filter; the length drops by one exactly when the id was present; the id is gone; the cursor is the removal clamp from the old length and stays in range |
| `FlipbookSession.Flipbook.DuplicatePage` | src/hooks/useFlipbook.ts:32-48 | pages become the duplicate; an unknown id changes nothing; the cursor is not touched; the invariant is kept |
| `FlipbookSession.Flipbook.ReorderPages` | src/hooks/useFlipbook.ts:50-57 | pages become the re-indexed move, the ids and images form a permutation of the old ones, the moved page is at `toIndex`, and the cursor is not touched |
| `FlipbookSession.Flipbook.NextPage` | src/hooks/useFlipbook.ts:59-61 | the cursor becomes the wrapped next index |
| `FlipbookSession.Flipbook.PrevPage` | src/hooks/useFlipbook.ts:63-65 | the cursor becomes the wrapped previous index |
| `FlipbookSession.Flipbook.GoToPage` | src/hooks/useFlipbook.ts:67-69 | the cursor becomes the clamped index |
| `FlipbookSession.Flipbook.TogglePlay` | src/hooks/useFlipbook.ts:71-73 | the play flag flips and nothing else changes |
| `FlipbookSession.Flipbook.SetFps` | src/hooks/useFlipbook.ts:10 | the speed becomes the slider value in 1..30 |
| `FlipbookSession.Flipbook.SetTitle` | src/hooks/useFlipbook.ts:11 | the title becomes the given text |
| `FlipbookSession.Flipbook.SetDescription` | src/hooks/useFlipbook.ts:12 | the description becomes the given text |
| `FlipbookSession.Flipbook.ClearPages` | src/hooks/useFlipbook.ts:75-79 | no pages, cursor 0, playback stopped; speed and title unchanged |
| `FlipbookSession.Flipbook.Tick` | src/hooks/useFlipbook.ts:83-86 | a tick advances the cursor with wraparound exactly when playing with more than one page, and otherwise changes nothing |
| `FlipbookSession.DuplicateIdsBreakCursorBound` | src/hooks/useFlipbook.ts:24-29 | with three pages sharing one id and the cursor on the last, removal empties the list but leaves the cursor at 1 |
| `FlipbookSession.UnknownIdStillMovesCursor` | src/hooks/useFlipbook.ts:29 | on two pages with the cursor on the second, removing an unknown id keeps the list but moves the cursor to 0 |
| `PageThumbnails.RequestFor` | src/components/flipbook/PageThumbnails.tsx:38-41 | a reorder is emitted exactly when both indices are set and distinct, with the dragged index as source and the hovered one as target |
| `PageThumbnails.RequestInRange` | src/components/flipbook/PageThumbnails.tsx:69-75 | indices of rendered thumbnails give a request whose indices are both in range |
| `PageThumbnails.ThumbnailRail.constructor` | src/components/flipbook/PageThumbnails.tsx:23-24 | both drag indices start as null |
| `PageThumbnails.ThumbnailRail.HandleDragStart` | src/components/flipbook/PageThumbnails.tsx:26-29 | records the index as the dragged one |
| `PageThumbnails.ThumbnailRail.HandleDragOver` | src/components/flipbook/PageThumbnails.tsx:31-36 | sets the target only during a drag and for a different thumbnail; otherwise the target is unchanged |
| `PageThumbnails.ThumbnailRail.HandleDragEnd` | src/components/flipbook/PageThumbnails.tsx:38-44 | emits the request the indices call for, with both indices in range, then resets both to null whether or not it emitted |
| `FlipbookBuilder.EndDrag` | src/pages/FlipbookBuilder.tsx:51-58 | any reorder the rail emits meets the precondition of `reorderPages` and is applied; with no request the pages are unchanged |
| `FlipbookControls.Render` | src/components/flipbook/FlipbookControls.tsx:25-101 | nothing for an empty book; otherwise the counter shows `currentPage + 1` of `totalPages`, First targets 0, Last targets `totalPages - 1`, while playing Prev and Next are enabled, and the speed badge shows exactly while playing |
| `FlipbookControls.JumpButtonsEnabledIffMove` | src/components/flipbook/FlipbookControls.tsx:34-83 | First and Last are enabled exactly when their clamped jump would move the cursor |
| `FlipbookControls.PausedArrowsNeverWrap` | src/components/flipbook/FlipbookControls.tsx:44-73 | while paused, Next is disabled exactly where the next step would wrap, and Prev exactly where the previous step would wrap |
| `FlipbookStorage.Nullish` | src/hooks/useFlipbookStorage.ts:123 | only an absent value is replaced by the default |
| `FlipbookStorage.ToRow` | src/hooks/useFlipbookStorage.ts:121-128 | the row carries the flipbook id and the image unchanged; order defaults with `??`; file name, source type and page number default with `||`; the source type is never empty and the page number never 0 |
| `FlipbookStorage.PageRows` | src/hooks/useFlipbookStorage.ts:121-129 | exactly one row per page, in the same order |
| `FlipbookStorage.PageInsert` | src/hooks/useFlipbookStorage.ts:117-129 | no insert exactly when the list is empty; otherwise the insert is exactly the mapped rows, one per page with the defaulting rules of `ToRow` |
| `FlipbookStorage.SaveInput` | src/hooks/useFlipbookStorage.ts:69 | what a caller passing the editor's pages would hand over (the source has no such caller): each page's image and order, with no file name, source type or page number |
| `FlipbookStorage.SessionRows` | src/hooks/useFlipbookStorage.ts:117-129 | for a densely ordered list, row `i` has `page_order` `i` and `page_number` `i + 1`, null file name, type "image" and the page's image; the `page_order` values are strictly increasing, so a load ordered by them would return the editor's order, were such a save made |
| `FlipbookStorage.ZeroAndEmptyDefaults` | src/hooks/useFlipbookStorage.ts:123-127 | an order of 0 is kept, a page number of 0 becomes `index + 1`, and empty file name and type become null and "image" |

## Left out

- All remote calls of `useFlipbookStorage`: upload, create, update, the delete of old pages, load, public load by slug, list and delete. They are network I/O against a client library that is not part of this model. The same goes for the toasts and the `isSaving` and `isLoading` flags.
- Random and clock-based values: `generateId`, `generateSlug` and upload file names. Ids are passed in as fresh values.
- The autoplay interval itself: `setInterval` with a `1000 / fps` floating-point period and its cleanup. Only one tick is modelled, as the guarded step `Tick`.
- React's render snapshots: `addPages`, `removePage` and `duplicatePage` read `pages` from the last render while `setPages` uses the latest value. The model assumes the two agree, as in a sequential run.
- JavaScript numbers beyond integers: fractional indices, `NaN` and `-0` are not modelled. A truthy page number is one that is present and not 0.
- `FlipbookSession.Flipbook.ReorderPages`: requires both indices to be in range. The source does not check them, and JavaScript's `splice` then does one of three things. With `fromIndex >= n`, `splice(fromIndex, 1)` removes nothing, `movedPage` is `undefined`, and after the `{ ...p, order: i }` map a page-less `{ order: i }` object enters the list. With an in-range `fromIndex` and `toIndex >= n`, the insert position is clamped and the page is appended at the end, so nothing undefined appears. A negative index counts from the end, so `splice(-1, 1)` removes the last page. None of these is modelled. The only caller passes rendered indices; `EndDrag` proves that.
- `FlipbookSession.Flipbook.AddPages` and `FlipbookSession.Flipbook.DuplicatePage`: require the supplied ids to be fresh. This stands for `generateId` never colliding, which the source does not check.
- `PageThumbnails.ThumbnailRail`: the number of rendered thumbnails is fixed for one drag gesture. A page list that changes in the middle of a drag is not modelled.
- Presentation: the flip animation and its delayed displayed page, the dot indicator, the play/pause icon, panel toggles, routing, the upload panel's file reading and image filter, and the list page.
- `src/pages/ViewFlipbook.tsx`: its cursor arithmetic repeats `nextPage` and `prevPage`; the rest is loading and rendering.
- The unused `Flipbook` and `FlipbookState` types in `src/types/flipbook.ts`.
