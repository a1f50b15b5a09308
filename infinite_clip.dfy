/** The infinitely scrollable clip view: its recenter step, the deferred
    recenter it schedules on the main queue, and its handler for changes of
    its own bounds and frame. */
module InfiniteClip {
  import opened Optional
  import opened Geometry
  import opened ClipRecenter

  /** The scroll view's document view, a subview of the clip view. Its frame
      is in the clip view's bounds coordinates. When it adopts the content
      protocol, the clip view calls its layout hook, which belongs to the
      client and is counted here rather than modelled. */
  class DocumentView {
    var frame: Rect
    var bounds: Rect
    const isContent: bool
    var layoutCount: nat

    constructor (frame: Rect, boundsOrigin: Point, isContent: bool)
      ensures this.frame == frame && bounds == Rect(boundsOrigin, frame.size)
      ensures this.isContent == isContent && layoutCount == 0
    {
      this.frame := frame;
      this.bounds := Rect(boundsOrigin, frame.size);
      this.isContent := isContent;
      this.layoutCount := 0;
    }

    /** `setBoundsOrigin` on the document view; nothing observes it. */
    method SetBoundsOrigin(p: Point)
      modifies this`bounds
      ensures bounds == old(bounds).WithOrigin(p)
    {
      bounds := bounds.WithOrigin(p);
    }

    /** `layoutDocumentView`, the client's hook. */
    method LayoutDocumentView()
      requires isContent
      modifies this`layoutCount
      ensures layoutCount == old(layoutCount) + 1
    {
      layoutCount := layoutCount + 1;
    }
  }

  class ClipView {
    var bounds: Rect
    var documentView: DocumentView?
    /** Set while a recenter moves the origins. */
    var inRecenter: bool
    /** Set while a deferred recenter waits on the main queue. */
    var recenterScheduled: bool
    /** How many deferred recenter tasks for this view wait on the main queue. */
    var pendingRecenters: nat
    /** False once the view is deallocated; the deferred task holds it weakly. */
    var alive: bool

    /** The main queue holds at most one deferred recenter for this view, and
        while the view lives, exactly when `recenterScheduled` says so. */
    ghost predicate Valid()
      reads this
    {
      pendingRecenters <= 1 &&
      (alive ==> pendingRecenters == if recenterScheduled then 1 else 0)
    }

    /** The document view's frame, if there is a document view. */
    function DocumentFrame(): Option<Rect>
      reads this, documentView
    {
      if documentView == null then None else Some(documentView.frame)
    }

    function RecenterOffset(): Point
      reads this, documentView
    {
      ClipRecenterOffset(DocumentFrame(), bounds)
    }

    /** The point of the document's own coordinates shown at the clip's origin:
        what the user sees does not move while this stays put. */
    ghost function VisibleDocumentPoint(): Point
      reads this, documentView
      requires documentView != null
    {
      bounds.origin.Minus(documentView.frame.origin).Plus(documentView.bounds.origin)
    }

    /** A live clip view over `documentView`, with both flags clear and
        nothing queued. */
    constructor (bounds: Rect, documentView: DocumentView?)
      ensures Valid() && alive
      ensures this.bounds == bounds && this.documentView == documentView
      ensures !inRecenter && !recenterScheduled && pendingRecenters == 0
    {
      this.bounds := bounds;
      this.documentView := documentView;
      inRecenter := false;
      recenterScheduled := false;
      pendingRecenters := 0;
      alive := true;
    }

    /** The last strong reference goes away; a queued task stays queued. */
    method Deallocate()
      requires Valid() && alive
      modifies this`alive
      ensures Valid() && !alive
    {
      alive := false;
    }

    /** `internal_viewGeometryChanged`, run for every bounds or frame change of
        the clip view: it schedules a recenter when the offset is non-zero,
        never moves anything itself, and always calls the layout hook. */
    method ViewGeometryChanged()
      requires Valid() && alive
      modifies this`recenterScheduled, this`pendingRecenters, documentView
      ensures Valid()
      ensures documentView != null ==>
        documentView.frame == old(documentView.frame) && documentView.bounds == old(documentView.bounds)
      ensures recenterScheduled == (old(recenterScheduled) || (RecenterOffset() != Zero && !inRecenter))
      ensures pendingRecenters == old(pendingRecenters) + (if recenterScheduled && !old(recenterScheduled) then 1 else 0)
      ensures documentView != null ==>
        documentView.layoutCount == old(documentView.layoutCount) + (if documentView.isContent then 1 else 0)
    {
      if RecenterOffset() != Zero {
        ScheduleRecenter();
      }
      if documentView != null && documentView.isContent {
        documentView.LayoutDocumentView();
      }
    }

    /** `internal_scheduleRecenter`: queues one deferred recenter unless one is
        already queued or a recenter is under way. */
    method ScheduleRecenter()
      requires Valid() && alive
      modifies this`recenterScheduled, this`pendingRecenters
      ensures Valid()
      ensures old(recenterScheduled || inRecenter) ==>
        recenterScheduled == old(recenterScheduled) && pendingRecenters == old(pendingRecenters)
      ensures !old(recenterScheduled || inRecenter) ==>
        recenterScheduled && pendingRecenters == old(pendingRecenters) + 1 == 1
    {
      if recenterScheduled || inRecenter {
        return;
      }
      recenterScheduled := true;
      pendingRecenters := pendingRecenters + 1;
    }

    /** The deferred task, run by the main queue: a no-op once the view is
        gone, and otherwise clears the flag and recenters. */
    method RunScheduledRecenter()
      requires Valid() && pendingRecenters > 0
      modifies this, documentView
      ensures Valid() && alive == old(alive) && documentView == old(documentView)
      ensures pendingRecenters == old(pendingRecenters) - 1
      ensures !alive ==> bounds == old(bounds) && inRecenter == old(inRecenter) &&
                         recenterScheduled == old(recenterScheduled) &&
                         (documentView != null ==> unchanged(documentView))
      ensures alive ==> !recenterScheduled && RecenterOffset() == Zero &&
                        bounds == Recentered(old(DocumentFrame()), old(bounds))
      ensures alive && documentView != null ==>
        documentView.frame == old(documentView.frame) &&
        documentView.bounds == old(documentView.bounds).WithOrigin(old(documentView.bounds.origin).Minus(old(RecenterOffset()))) &&
        VisibleDocumentPoint() == old(VisibleDocumentPoint())
      ensures alive && !old(inRecenter) ==> !inRecenter
      ensures alive && old(RecenterOffset()) == Zero ==> inRecenter == old(inRecenter)
      ensures alive && documentView != null ==>
        documentView.layoutCount == old(documentView.layoutCount) +
          (if old(RecenterOffset()) != Zero && documentView.isContent then 1 else 0)
    {
      if !alive {
        pendingRecenters := pendingRecenters - 1;
        return;
      }
      pendingRecenters := pendingRecenters - 1;
      recenterScheduled := false;
      RecenterClipView();
    }

    /** `recenterClipView`: moves the clip's bounds origin by the offset and
        the document's bounds origin against it, so that the clip sits centred
        in the document and what it shows does not move. */
    method RecenterClipView()
      requires Valid() && alive
      modifies this, documentView
      ensures Valid() && alive && documentView == old(documentView)
      ensures recenterScheduled == old(recenterScheduled) && pendingRecenters == old(pendingRecenters)
      ensures RecenterOffset() == Zero
      ensures bounds == Recentered(old(DocumentFrame()), old(bounds))
      ensures old(RecenterOffset()) == Zero ==>
        inRecenter == old(inRecenter) && (documentView != null ==> unchanged(documentView))
      ensures old(RecenterOffset()) != Zero ==>
        !inRecenter && bounds.origin == CenteredOrigin(old(documentView.frame), old(bounds))
      ensures documentView != null ==>
        documentView.frame == old(documentView.frame) &&
        documentView.bounds == old(documentView.bounds).WithOrigin(old(documentView.bounds.origin).Minus(old(RecenterOffset()))) &&
        VisibleDocumentPoint() == old(VisibleDocumentPoint())
      ensures old(RecenterOffset()) != Zero ==>
        documentView.layoutCount == old(documentView.layoutCount) + (if documentView.isContent then 1 else 0)
    {
      if documentView == null {
        return;
      }
      var docView := documentView;
      var offset := RecenterOffset();
      if offset == Zero {
        return;
      }
      inRecenter := true;
      docView.SetBoundsOrigin(docView.bounds.origin.Minus(offset));
      SetBoundsOrigin(bounds.origin.Plus(offset));
      inRecenter := false;
    }

    /** `setBoundsOrigin` on the clip view, which posts a bounds change that
        the view itself observes synchronously. */
    method SetBoundsOrigin(p: Point)
      requires Valid() && alive
      modifies this`bounds, this`recenterScheduled, this`pendingRecenters, documentView
      ensures Valid()
      ensures bounds == old(bounds).WithOrigin(p)
      ensures documentView != null ==>
        documentView.frame == old(documentView.frame) && documentView.bounds == old(documentView.bounds)
      ensures recenterScheduled == (old(recenterScheduled) || (RecenterOffset() != Zero && !inRecenter))
      ensures pendingRecenters == old(pendingRecenters) + (if recenterScheduled && !old(recenterScheduled) then 1 else 0)
      ensures documentView != null ==>
        documentView.layoutCount == old(documentView.layoutCount) + (if documentView.isContent then 1 else 0)
    {
      bounds := bounds.WithOrigin(p);
      ViewGeometryChanged();
    }

    /** `scroll(_:)`: moves the clip's bounds origin to exactly `p`, bypassing
        smooth scrolling, and never recenters on the spot. */
    method Scroll(p: Point)
      requires Valid() && alive
      modifies this`bounds, this`recenterScheduled, this`pendingRecenters, documentView
      ensures Valid()
      ensures bounds == old(bounds).WithOrigin(p)
      ensures documentView != null ==>
        documentView.frame == old(documentView.frame) && documentView.bounds == old(documentView.bounds)
      ensures recenterScheduled == (old(recenterScheduled) || (RecenterOffset() != Zero && !inRecenter))
      ensures pendingRecenters == old(pendingRecenters) + (if recenterScheduled && !old(recenterScheduled) then 1 else 0)
      ensures documentView != null ==>
        documentView.layoutCount == old(documentView.layoutCount) + (if documentView.isContent then 1 else 0)
    {
      SetBoundsOrigin(p);
    }
  }
}
