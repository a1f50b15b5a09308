/** The recenter-offset rule of the infinite clip view: a pure function of the
    document view's frame and the clip view's bounds, both in the clip view's
    bounds coordinate space. */
module ClipRecenter {
  import opened Optional
  import opened Geometry

  /** Margins below this many units make the clip view recenter. It must be
      larger than the longest single scroll step the platform delivers. */
  const RecenterThreshold: int := 500

  /** The distances from each edge of the clip to the same edge of the document. */
  datatype Margins = Margins(minHorizontal: int, maxHorizontal: int, minVertical: int, maxVertical: int)

  function EdgeMargins(doc: Rect, clip: Rect): Margins {
    Margins(clip.MinX() - doc.MinX(), doc.MaxX() - clip.MaxX(),
            clip.MinY() - doc.MinY(), doc.MaxY() - clip.MaxY())
  }

  /** Some edge of the clip is closer than the threshold to the document's edge. */
  predicate NearEdge(doc: Rect, clip: Rect) {
    var m := EdgeMargins(doc, clip);
    m.minHorizontal < RecenterThreshold || m.maxHorizontal < RecenterThreshold ||
    m.minVertical < RecenterThreshold || m.maxVertical < RecenterThreshold
  }

  /** The clip origin that centres the clip in the document, each half of the
      slack truncated toward zero; it depends on the clip's size only. A clip
      placed there is balanced: on each axis its two margins add up to the
      slack between the sizes and differ by at most one unit, the extra unit
      of an odd slack going to the far edge when the document is larger and
      to the near edge when it is smaller, as truncation toward zero gives. */
  function CenteredOrigin(doc: Rect, clip: Rect): (p: Point)
    ensures var m := EdgeMargins(doc, clip.WithOrigin(p));
      && m.minHorizontal + m.maxHorizontal == doc.size.width - clip.size.width
      && m.minVertical + m.maxVertical == doc.size.height - clip.size.height
      && -1 <= m.maxHorizontal - m.minHorizontal <= 1
      && -1 <= m.maxVertical - m.minVertical <= 1
      && (doc.size.width >= clip.size.width ==> 0 <= m.minHorizontal <= m.maxHorizontal)
      && (doc.size.height >= clip.size.height ==> 0 <= m.minVertical <= m.maxVertical)
      && (doc.size.width < clip.size.width ==> m.maxHorizontal <= m.minHorizontal <= 0)
      && (doc.size.height < clip.size.height ==> m.maxVertical <= m.minVertical <= 0)
  {
    Point(doc.MinX() + HalfTowardZero(doc.size.width - clip.size.width),
          doc.MinY() + HalfTowardZero(doc.size.height - clip.size.height))
  }

  /** `internal_clipRecenterOffset`: how far the clip origin must move; `doc`
      is `None` when the clip view has no document view. */
  function ClipRecenterOffset(doc: Option<Rect>, clip: Rect): (off: Point)
    ensures doc.None? ==> off == Zero
    ensures doc.Some? && !NearEdge(doc.value, clip) ==> off == Zero
    ensures doc.Some? && NearEdge(doc.value, clip) ==>
              clip.origin.Plus(off) == CenteredOrigin(doc.value, clip)
  {
    match doc
    case None => Zero
    case Some(frame) =>
      if NearEdge(frame, clip) then CenteredOrigin(frame, clip).Minus(clip.origin)
      else Zero
  }

  /** The clip moved by its own recenter offset: centred when an edge of a
      document is near, and otherwise where it was. */
  function Recentered(doc: Option<Rect>, clip: Rect): (r: Rect)
    ensures r.size == clip.size
    ensures doc.Some? && NearEdge(doc.value, clip) ==> r.origin == CenteredOrigin(doc.value, clip)
    ensures doc.None? || !NearEdge(doc.value, clip) ==> r == clip
  {
    clip.WithOrigin(clip.origin.Plus(ClipRecenterOffset(doc, clip)))
  }

  /** The offset is zero exactly when there is no document, no edge is near,
      or the clip is already centred. */
  lemma ZeroOffsetIff(doc: Option<Rect>, clip: Rect)
    ensures ClipRecenterOffset(doc, clip) == Zero <==>
      doc.None? || !NearEdge(doc.value, clip) || clip.origin == CenteredOrigin(doc.value, clip)
  {
  }

  /** Recentering is idempotent: once the clip has moved by the offset, the
      offset of the moved clip is zero, and the document is unaffected. */
  lemma RecenterIdempotent(doc: Option<Rect>, clip: Rect)
    ensures ClipRecenterOffset(doc, Recentered(doc, clip)) == Zero
    ensures Recentered(doc, Recentered(doc, clip)) == Recentered(doc, clip)
  {
  }

  /** A document with at least twice the threshold of slack on each axis
      leaves a centred clip away from every edge. */
  lemma RoomyCentreNotNearEdge(doc: Rect, clip: Rect)
    requires doc.size.width >= clip.size.width + 2 * RecenterThreshold
    requires doc.size.height >= clip.size.height + 2 * RecenterThreshold
    ensures !NearEdge(doc, clip.WithOrigin(CenteredOrigin(doc, clip)))
  {
  }

  /** In such a roomy document the offset is non-zero exactly when an edge is
      near, and after recentering no edge is near. */
  lemma RoomyOffsetNonZeroIffNearEdge(doc: Rect, clip: Rect)
    requires doc.size.width >= clip.size.width + 2 * RecenterThreshold
    requires doc.size.height >= clip.size.height + 2 * RecenterThreshold
    ensures ClipRecenterOffset(Some(doc), clip) != Zero <==> NearEdge(doc, clip)
    ensures !NearEdge(doc, Recentered(Some(doc), clip))
  {
  }

  /** Every edge of the clip lies strictly inside the document. */
  predicate StrictlyInside(doc: Rect, clip: Rect) {
    var m := EdgeMargins(doc, clip);
    m.minHorizontal > 0 && m.maxHorizontal > 0 && m.minVertical > 0 && m.maxVertical > 0
  }

  /** A scroll step shorter than the threshold on each axis. */
  predicate ShortStep(step: Point) {
    -RecenterThreshold < step.x < RecenterThreshold && -RecenterThreshold < step.y < RecenterThreshold
  }

  /** While no edge is near, a single scroll step shorter than the threshold
      on each axis keeps every margin positive: the clip does not reach the
      document's edge before the deferred recenter runs. */
  lemma ShortScrollStaysInside(doc: Rect, clip: Rect, step: Point)
    requires !NearEdge(doc, clip)
    requires ShortStep(step)
    ensures StrictlyInside(doc, clip.WithOrigin(clip.origin.Plus(step)))
  {
  }

  /** The clip after a scroll step followed by the deferred recenter that
      the step's geometry change schedules. */
  function ScrollAndRecenter(doc: Rect, clip: Rect, step: Point): Rect {
    Recentered(Some(doc), clip.WithOrigin(clip.origin.Plus(step)))
  }

  /** The clip after a sequence of such steps, each recenter running before
      the next step arrives. */
  function AfterSteps(doc: Rect, clip: Rect, steps: seq<Point>): (r: Rect)
    ensures r.size == clip.size
    decreases |steps|
  {
    if steps == [] then clip
    else ScrollAndRecenter(doc, AfterSteps(doc, clip, steps[..|steps| - 1]), steps[|steps| - 1])
  }

  /** The promise of the whole design: in a document with room for the
      threshold on both sides of the clip, scrolling forever in steps shorter
      than the threshold, with each recenter running before the next step,
      never brings the clip to the document's edge, and leaves it away from
      every edge after each recenter. No induction is needed: in such a
      document one recenter puts the clip away from every edge wherever it
      was before. */
  lemma EndlessScrollStaysInside(doc: Rect, clip: Rect, steps: seq<Point>)
    requires doc.size.width >= clip.size.width + 2 * RecenterThreshold
    requires doc.size.height >= clip.size.height + 2 * RecenterThreshold
    requires !NearEdge(doc, clip)
    requires forall i :: 0 <= i < |steps| ==> ShortStep(steps[i])
    ensures !NearEdge(doc, AfterSteps(doc, clip, steps))
    ensures forall i :: 0 <= i < |steps| ==>
      var before := AfterSteps(doc, clip, steps[..i]);
      StrictlyInside(doc, before.WithOrigin(before.origin.Plus(steps[i])))
  {
  }
}
