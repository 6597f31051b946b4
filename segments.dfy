/**
 * The bolt segments (class `Line`). A segment is held by value in the bolt's
 * segment list; its `father` is the index of its parent in that list.
 */
module Segments {
  import opened Wrappers
  import opened Vectors

  /**
   * `dir` is the working direction, in which the pulls of one iteration are summed;
   * `count` is how many pulls it holds; `originalDir` is the direction the segment
   * was created with. `shown` and `frame` are the animation bookkeeping.
   */
  datatype Line = Line(pos: Vec3, father: Option<nat>, dir: Vec3, count: nat,
                       originalDir: Vec3, length: real, shown: bool, frame: int)

  /** Every segment is one unit long. */
  const SegmentLength: real := 1.0

  /** Nothing accumulated: no pulls and the working direction is the creation direction. */
  predicate AtRest(s: Line)
  {
    s.count == 0 && s.dir == s.originalDir
  }

  /** A segment that holds no pull still has its creation direction. */
  predicate Consistent(s: Line)
  {
    s.count == 0 ==> s.dir == s.originalDir
  }

  /** `Line.__init__`: a new segment, at rest, not shown, frame 0. */
  function NewLine(pos: Vec3, father: Option<nat>, dir: Vec3): (s: Line)
    ensures AtRest(s) && !s.shown && s.frame == 0
    ensures s.pos == pos && s.father == father && s.originalDir == dir && s.length == 1.0
  {
    Line(pos, father, dir, 0, dir, SegmentLength, false, 0)
  }

  /** `Line.resetFunc`: forget the pulls; nothing but `dir` and `count` changes. */
  function Reset(s: Line): (r: Line)
    ensures AtRest(r)
    ensures r.originalDir == s.originalDir
    ensures r.pos == s.pos && r.father == s.father && r.length == s.length
    ensures r.shown == s.shown && r.frame == s.frame
  {
    s.(dir := s.originalDir, count := 0)
  }

  lemma ResetIdempotent(s: Line)
    ensures Reset(Reset(s)) == Reset(s)
  {
  }

  /** Resetting a segment at rest changes nothing. */
  lemma ResetAtRest(s: Line)
    requires AtRest(s)
    ensures Reset(s) == s
  {
  }

  /**
   * `Line.next`: the child of the segment at index `self`, one length further along
   * the segment's current direction, created with that direction.
   */
  function Next(s: Line, self: nat): (c: Line)
    ensures c.father == Some(self)
    ensures c.pos == Add(s.pos, Scale(s.dir, s.length))
    ensures c.dir == s.dir && c.originalDir == s.dir && c.count == 0
    ensures !c.shown && c.frame == 0 && c.length == 1.0
  {
    NewLine(Add(s.pos, Scale(s.dir, s.length)), Some(self), s.dir)
  }

  /** A freshly created child has nothing to reset. */
  lemma NextAtRest(s: Line, self: nat)
    ensures Reset(Next(s, self)) == Next(s, self)
  {
  }

  /**
   * The radius factor `showMesh` gives the cylinder of a segment shown in iteration
   * `iter`: 0.1, shrinking by 0.001 per iteration when the falloff is on, and
   * replaced by 0.0001 once it is no longer positive.
   */
  function Radius(iter: int, segmFalloff: bool): (r: real)
    ensures r > 0.0
    ensures !segmFalloff ==> r == 0.1
    ensures iter >= 0 ==> r <= 0.1
    ensures segmFalloff && iter < 100 ==> r == 0.1 - iter as real * 0.001
    ensures segmFalloff && iter >= 100 ==> r == 0.0001
  {
    var radiusDecrease := if segmFalloff then iter as real * 0.001 else 0.0;
    var radius := 0.1 - radiusDecrease;
    if radius <= 0.0 then 0.0001 else radius
  }

  /**
   * The bookkeeping of `Line.showMesh` in iteration `iter`: a non-root segment not
   * shown yet becomes shown, with `frame` set to `iter`; any other segment is
   * returned unchanged.
   */
  function ShowMesh(s: Line, iter: int): (r: Line)
    ensures s.father.None? || s.shown ==> r == s
    ensures s.father.Some? && !s.shown ==> r.shown && r.frame == iter
    ensures r.pos == s.pos && r.father == s.father && r.dir == s.dir && r.count == s.count
    ensures r.originalDir == s.originalDir && r.length == s.length
  {
    if s.father.Some? && !s.shown then s.(frame := iter, shown := true) else s
  }

  /** A segment is shown once: a later `showMesh` keeps the frame of the first. */
  lemma ShowOnce(s: Line, first: int, later: int)
    ensures ShowMesh(ShowMesh(s, first), later) == ShowMesh(s, first)
  {
  }

  /**
   * The bookkeeping of `Line.unshowMesh`: a non-root segment's frame moves on by
   * `minIter` and the new frame is returned; the root is left as it is and
   * nothing is returned for it.
   */
  function UnshowMesh(s: Line, minIter: int): (r: (Line, Option<int>))
    ensures s.father.None? ==> r.0 == s && r.1 == None
    ensures s.father.Some? ==> r.0.frame == s.frame + minIter && r.1 == Some(r.0.frame)
    ensures r.0 == s.(frame := r.0.frame)
  {
    if s.father.Some? then
      var moved := s.(frame := s.frame + minIter);
      (moved, Some(moved.frame))
    else
      (s, None)
  }
}
