# HTInfiniteClipView recentering, modelled in Dafny

`HTInfiniteClipView` is an `NSClipView` subclass that gives a scroll view the
illusion of an unbounded document. Whenever the clip's bounds come within a
threshold (500 units) of an edge of the document view's frame, it moves the
clip's bounds origin to the centre of the document and moves the document
view's bounds origin the opposite way by the same amount, so the content on
screen does not jump. The move is never made inside the bounds-change
notification that detects it: a deferred task on the main queue does it,
and a `recenterScheduled` flag makes sure at most one such task is queued.
An `inRecenter` flag keeps the notification posted by the recenter's own
origin change from scheduling another recenter. Every geometry change is
forwarded to the document view's `layoutDocumentView` hook.

The model has four modules:

- `Optional` (`optional.dfy`): the `Option` type that stands for a Swift
  optional such as `documentView`.
- `Geometry` (`geometry.dfy`): integer points, sizes and rectangles, and
  the truncating halving `HalfTowardZero`. Dafny's `/` is Euclidean, so
  rounding toward zero is written out.
- `ClipRecenter` (`clip_recenter.dfy`): the recenter-offset rule as pure
  functions of the document frame and the clip bounds, with lemmas about
  idempotence, the zero cases, centring, and the threshold guarantee.
- `InfiniteClip` (`infinite_clip.dfy`): `DocumentView` and `ClipView`
  classes. Their methods update the bounds, the two flags and the main queue
  in place. `ClipView.Valid()` is the scheduling invariant: the main queue
  holds at most one deferred recenter for the view, and while the view
  lives it holds one exactly when `recenterScheduled` is set.

Environment choices:

- The main queue is a count of queued deferred recenters
  (`pendingRecenters`), and the queue runs one with `RunScheduledRecenter`.
- The weak capture of `self` is the `alive` flag, which `Deallocate` clears.
- `NSView.setBoundsOrigin` on the clip posts a bounds-change notification
  that the view observes on itself. It is modelled as a synchronous call of
  `ViewGeometryChanged` from `ClipView.SetBoundsOrigin`.
- The client's layout hook only increments `layoutCount`.

## Model

| member | source | states |
|---|---|---|
| `Geometry.HalfTowardZero` | Sources/HTInfiniteScrollView/HTInfiniteClipView.swift:262-263 | the result is `(d / 2.0).rounded(.towardZero)` on the reals; for `d >= 0` it is the floor of half of `d`, and for negative `d` the ceiling |
| `ClipRecenter.CenteredOrigin` | Sources/HTInfiniteScrollView/HTInfiniteClipView.swift:261-264 | a clip placed at the centred origin has, on each axis, two margins that add up to the size slack and differ by at most one unit; the extra unit of an odd slack goes to the far edge when the document is larger (both margins non-negative) and to the near edge when it is smaller (both non-positive), as truncation toward zero gives |
| `ClipRecenter.ClipRecenterOffset` | Sources/HTInfiniteScrollView/HTInfiniteClipView.swift:239-271 | the offset is zero without a document view and when all four margins are at least 500; otherwise the clip origin plus the offset is the centred origin |
| `ClipRecenter.ZeroOffsetIff` | Sources/HTInfiniteScrollView/HTInfiniteClipView.swift:254-271 | the offset is zero if and only if there is no document, no margin is below the threshold, or the clip is already centred |
| `ClipRecenter.Recentered` | Sources/HTInfiniteScrollView/HTInfiniteClipView.swift:186-190 | moving the clip by its offset keeps its size; it centres the clip when an edge is near and leaves it alone otherwise |
| `ClipRecenter.RecenterIdempotent` | Sources/HTInfiniteScrollView/HTInfiniteClipView.swift:261-268 | after the clip moves by its offset, the new offset is zero and recentering again moves nothing |
| `ClipRecenter.RoomyCentreNotNearEdge` | Sources/HTInfiniteScrollView/HTInfiniteClipView.swift:250-264 | when the document exceeds the clip by at least twice the threshold on each axis, the centred clip has no margin below the threshold |
| `ClipRecenter.RoomyOffsetNonZeroIffNearEdge` | Sources/HTInfiniteScrollView/HTInfiniteClipView.swift:254-268 | in such a document the offset is non-zero exactly when some margin is below the threshold, and after recentering none is |
| `ClipRecenter.ShortScrollStaysInside` | Sources/HTInfiniteScrollView/HTInfiniteClipView.swift:243-258 | when no margin is below the threshold, one scroll step shorter than the threshold on each axis leaves every margin positive, so the document edge is not hit |
| `ClipRecenter.AfterSteps` | Sources/HTInfiniteScrollView/HTInfiniteClipView.swift:180-190 | the clip after any sequence of scroll steps, each followed by its recenter, has the clip's original size |
| `ClipRecenter.EndlessScrollStaysInside` | Sources/HTInfiniteScrollView/HTInfiniteClipView.swift:243-258 | in a document roomy enough, any sequence of short scroll steps, each followed by its recenter, keeps the clip strictly inside the document at every step and away from every edge after each recenter |
| `InfiniteClip.DocumentView.SetBoundsOrigin` | Sources/HTInfiniteScrollView/HTInfiniteClipView.swift:184 | the document's bounds move to the new origin with their size kept |
| `InfiniteClip.DocumentView.LayoutDocumentView` | Sources/HTInfiniteScrollView/HTInfiniteClipView.swift:32-41 | the client's layout hook runs once per call |
| `InfiniteClip.ClipView.constructor` | Sources/HTInfiniteScrollView/HTInfiniteClipView.swift:61-63 | a new view has both flags clear and no deferred recenter queued |
| `InfiniteClip.ClipView.Deallocate` | Sources/HTInfiniteScrollView/HTInfiniteClipView.swift:281-282 | after the view goes away, the weakly held task sees it as gone, and the queue invariant still holds |
| `InfiniteClip.ClipView.ViewGeometryChanged` | Sources/HTInfiniteScrollView/HTInfiniteClipView.swift:94-106 | a geometry change moves neither origin. A recenter becomes scheduled exactly when the offset is non-zero, none is under way and none was already scheduled; the queue gains one task only then. The layout hook runs once if the document view adopts the content protocol |
| `InfiniteClip.ClipView.ScheduleRecenter` | Sources/HTInfiniteScrollView/HTInfiniteClipView.swift:274-286 | a no-op while a recenter is scheduled or under way; otherwise it sets the flag and queues the single deferred task, so at most one is ever pending |
| `InfiniteClip.ClipView.RunScheduledRecenter` | Sources/HTInfiniteScrollView/HTInfiniteClipView.swift:281-285 | the task leaves the queue; on a deallocated view nothing else changes; on a live view the flag is cleared and the view recenters, leaving a zero offset, an unchanged visible document point and nothing queued; the layout hook runs once only if the clip moved, and with a zero offset `inRecenter` is untouched |
| `InfiniteClip.ClipView.RecenterClipView` | Sources/HTInfiniteScrollView/HTInfiniteClipView.swift:166-190 | without a document view or with a zero offset nothing changes. Otherwise the clip's origin moves by the offset to the centred origin, and the document's bounds origin moves back by the same offset. The document frame and both sizes are kept, so the document point shown at the clip's origin stays the same. `inRecenter` is clear on return, the offset is then zero, and the notification the recenter posts schedules nothing |
| `InfiniteClip.ClipView.SetBoundsOrigin` | Sources/HTInfiniteScrollView/HTInfiniteClipView.swift:70-77 | the clip's bounds move to the new origin and the bounds-change notification is handled at once, with the effects of a geometry change |
| `InfiniteClip.ClipView.Scroll` | Sources/HTInfiniteScrollView/HTInfiniteClipView.swift:288-298 | the clip's bounds origin becomes exactly the requested point. Nothing is recentered on the spot; a recenter is scheduled if the new position needs one, and the layout hook runs |

## Left out

- Notification wiring: observer registration and removal (`setup`, `teardown`, `deinit`) is platform plumbing. The model keeps only its effect: a bounds change of the clip runs `ViewGeometryChanged`. A frame change of the clip is taken to be the host calling `ViewGeometryChanged` directly.
- The `init(frame:)` and `init(coder:)` initialisers are framework construction. The model's constructor only sets up the initial state of the two flags.
- `assert(Thread.isMainThread)`: the model is single-threaded by construction.
- `DispatchQueue.main.async`: real asynchrony is not modelled. The queue is a count of pending tasks, and the host chooses when to run one.
- The client's `layoutDocumentView` implementation is outside this library. The model does not capture a hook that re-enters the clip view (for example, one that calls `recenterClipView` itself).
- `CGFloat` precision: coordinates are integers and sizes are non-negative integers. Fractional scroll positions are not modelled, nor are rectangles with negative sizes, which `CGRect` would standardise.
- `NSClipView`'s own behaviour is not modelled: bounds constraining, smooth scrolling, and its reaction to the document view's frame or bounds changes.
- The tile-virtualisation algorithm (the demo's `HTInfiniteDocumentView`) lives in demo code outside the library and is not part of this model. The same holds for the demo's other views and `Package.swift`.
- The deferred task does not re-check `inRecenter`: the code (lines 281-285) checks only that the view still exists, then clears the flag and recenters.
- EndlessScrollStaysInside: assumes each deferred recenter runs before the next scroll step arrives. Steps coalesced into one main-queue turn are covered only one at a time, by ShortScrollStaysInside.
