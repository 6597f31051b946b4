/**
 * The attraction pass and the removal pass of one growth iteration, as functions
 * of the segment and attractor lists. The class `Bolt` runs them in place and is
 * proved to compute exactly these.
 *
 * Distances are compared squared: for non-negative d and m, d < m iff d*d < m*m,
 * so every test of the original on `distanceTo` has the same outcome here.
 */
module Attraction {
  import opened Vectors
  import opened Segments
  import opened Attractors

  /** Capture radius: an attractor closer than this to a segment is reached. */
  const MinDist: real := 5.0
  /** Influence radius: segments farther than this are not pulled. */
  const MaxDist: real := 100.0

  /** The segment is close enough to capture the attractor at `a`. */
  predicate Captures(s: Line, a: Vec3)
  {
    DistSq(a, s.pos) < MinDist * MinDist
  }

  /**
   * The segment is within the attractor's influence but outside its capture radius:
   * the case the `elif` chain of the scan reaches when the segment neither captures
   * the attractor nor lies beyond the influence radius.
   */
  predicate InRange(s: Line, a: Vec3): (r: bool)
    ensures r <==> !Captures(s, a) && !(DistSq(a, s.pos) > MaxDist * MaxDist)
  {
    MinDist * MinDist <= DistSq(a, s.pos) <= MaxDist * MaxDist
  }

  /** The outcome of scanning the segments for one attractor. */
  datatype Choice = Captured | Pull(seg: nat) | Ignored

  /**
   * `j` is the first segment, in list order, at minimal distance among the
   * segments in range of `a`.
   */
  predicate IsFirstClosest(segs: seq<Line>, a: Vec3, j: nat)
  {
    j < |segs| && InRange(segs[j], a) &&
    (forall k :: 0 <= k < |segs| && InRange(segs[k], a) ==> DistSq(a, segs[j].pos) <= DistSq(a, segs[k].pos)) &&
    (forall k :: 0 <= k < j && InRange(segs[k], a) ==> DistSq(a, segs[j].pos) < DistSq(a, segs[k].pos))
  }

  /**
   * The result of the inner scan over the segments for the attractor at `a`:
   * captured as soon as any segment is within the capture radius, otherwise the
   * first closest segment in range, otherwise nothing.
   */
  function Choose(segs: seq<Line>, a: Vec3): (c: Choice)
    ensures c.Pull? ==> c.seg < |segs|
  {
    if |segs| == 0 then Ignored
    else
      var n := |segs| - 1;
      var c := Choose(segs[..n], a);
      if c.Captured? || Captures(segs[n], a) then Captured
      else if !InRange(segs[n], a) then c
      else if c.Ignored? || DistSq(a, segs[n].pos) < DistSq(a, segs[c.seg].pos) then Pull(n)
      else c
  }

  /**
   * What the scan finds: a capture exactly when some segment is within the capture
   * radius; nothing exactly when no segment is within the influence radius; and
   * otherwise the first closest segment in range.
   */
  lemma {:induction false} ChooseSpec(segs: seq<Line>, a: Vec3)
    ensures Choose(segs, a).Captured? <==> exists k :: 0 <= k < |segs| && Captures(segs[k], a)
    ensures Choose(segs, a).Ignored? <==> forall k :: 0 <= k < |segs| ==> !Captures(segs[k], a) && !InRange(segs[k], a)
    ensures Choose(segs, a).Pull? ==> IsFirstClosest(segs, a, Choose(segs, a).seg)
  {
    if |segs| > 0 {
      var n := |segs| - 1;
      ChooseSpec(segs[..n], a);
      assert forall k :: 0 <= k < n ==> segs[..n][k] == segs[k];
    }
  }

  /** The two lists hold segments at the same positions. */
  predicate SamePositions(s1: seq<Line>, s2: seq<Line>)
  {
    |s1| == |s2| && forall k :: 0 <= k < |s1| ==> s1[k].pos == s2[k].pos
  }

  /** The scan looks only at positions. */
  lemma {:induction false} ChooseByPositions(s1: seq<Line>, s2: seq<Line>, a: Vec3)
    requires SamePositions(s1, s2)
    ensures Choose(s1, a) == Choose(s2, a)
  {
    if |s1| > 0 {
      var n := |s1| - 1;
      ChooseByPositions(s1[..n], s2[..n], a);
    }
  }

  /** One pull: `count` up by one, the unit vector towards the attractor added to `dir`. */
  function Pulled(s: Line, a: Vec3, norm: Vec3 -> Vec3): (r: Line)
    ensures r.count == s.count + 1
    ensures r == s.(dir := r.dir, count := r.count)
  {
    s.(dir := Add(s.dir, norm(Sub(a, s.pos))), count := s.count + 1)
  }

  /** The effect of the attractor `a` on the segment list. */
  function AttractStep(segs: seq<Line>, a: Point, norm: Vec3 -> Vec3): (r: seq<Line>)
    ensures |r| == |segs|
  {
    match Choose(segs, a.pos)
    case Pull(j) => segs[j := Pulled(segs[j], a.pos, norm)]
    case _ => segs
  }

  /** The segment list after the attraction pass over `attrs`, in list order. */
  function Attracted(segs: seq<Line>, attrs: seq<Point>, norm: Vec3 -> Vec3): (r: seq<Line>)
    ensures |r| == |segs|
  {
    if |attrs| == 0 then segs
    else AttractStep(Attracted(segs, attrs[..|attrs| - 1], norm), attrs[|attrs| - 1], norm)
  }

  /** The attractor after the attraction pass: flagged reached if it was captured. */
  function Mark(segs: seq<Line>, a: Point): (r: Point)
    ensures r.pos == a.pos
  {
    if Choose(segs, a.pos).Captured? then a.(reached := true) else a
  }

  /** An attractor comes out of the pass reached exactly when it was, or some segment captures it. */
  lemma MarkReached(segs: seq<Line>, a: Point)
    ensures Mark(segs, a).reached <==> a.reached || exists k :: 0 <= k < |segs| && Captures(segs[k], a.pos)
  {
    ChooseSpec(segs, a.pos);
  }

  /** The attractor list after the attraction pass. */
  function MarkAll(segs: seq<Line>, attrs: seq<Point>): (r: seq<Point>)
    ensures |r| == |attrs|
    ensures forall i :: 0 <= i < |attrs| ==> r[i] == Mark(segs, attrs[i])
  {
    seq(|attrs|, i requires 0 <= i < |attrs| => Mark(segs, attrs[i]))
  }

  /** How many of `attrs` choose segment `j`. */
  function PullCount(segs: seq<Line>, attrs: seq<Point>, j: nat): nat
  {
    if |attrs| == 0 then 0
    else PullCount(segs, attrs[..|attrs| - 1], j) + (if Choose(segs, attrs[|attrs| - 1].pos) == Pull(j) then 1 else 0)
  }

  /** `base` plus the unit vectors from segment `j` towards every attractor that chooses it. */
  function PullSum(base: Vec3, segs: seq<Line>, attrs: seq<Point>, j: nat, norm: Vec3 -> Vec3): Vec3
    requires j < |segs|
  {
    if |attrs| == 0 then base
    else
      var a := attrs[|attrs| - 1];
      var s := PullSum(base, segs, attrs[..|attrs| - 1], j, norm);
      if Choose(segs, a.pos) == Pull(j) then Add(s, norm(Sub(a.pos, segs[j].pos))) else s
  }

  lemma {:induction false} PullSumOfNone(base: Vec3, segs: seq<Line>, attrs: seq<Point>, j: nat, norm: Vec3 -> Vec3)
    requires j < |segs| && PullCount(segs, attrs, j) == 0
    ensures PullSum(base, segs, attrs, j, norm) == base
  {
    if |attrs| > 0 {
      PullSumOfNone(base, segs, attrs[..|attrs| - 1], j, norm);
    }
  }

  /**
   * The attraction pass changes only `dir` and `count`: segment `j` receives one
   * pull per attractor that chooses it, scanned against the list as it was when
   * the pass began, and nothing else.
   */
  lemma {:induction false} AttractedAt(segs: seq<Line>, attrs: seq<Point>, j: nat, norm: Vec3 -> Vec3)
    requires j < |segs|
    ensures Attracted(segs, attrs, norm)[j] ==
      segs[j].(count := segs[j].count + PullCount(segs, attrs, j), dir := PullSum(segs[j].dir, segs, attrs, j, norm))
  {
    if |attrs| > 0 {
      var rest := attrs[..|attrs| - 1];
      var a := attrs[|attrs| - 1];
      var before := Attracted(segs, rest, norm);
      AttractedSamePositions(segs, rest, norm);
      ChooseByPositions(before, segs, a.pos);
      AttractedAt(segs, rest, j, norm);
    }
  }

  /** The attraction pass keeps the list's positions, so it never changes a scan. */
  lemma {:induction false} AttractedSamePositions(segs: seq<Line>, attrs: seq<Point>, norm: Vec3 -> Vec3)
    ensures SamePositions(Attracted(segs, attrs, norm), segs)
  {
    if |attrs| > 0 {
      var rest := attrs[..|attrs| - 1];
      AttractedSamePositions(segs, rest, norm);
    }
  }

  /** A segment no attractor chooses leaves the pass unchanged. */
  lemma UnchosenUnchanged(segs: seq<Line>, attrs: seq<Point>, j: nat, norm: Vec3 -> Vec3)
    requires j < |segs| && PullCount(segs, attrs, j) == 0
    ensures Attracted(segs, attrs, norm)[j] == segs[j]
  {
    AttractedAt(segs, attrs, j, norm);
    PullSumOfNone(segs[j].dir, segs, attrs, j, norm);
  }

  /**
   * A pull changes only the chosen segment: if `a` chooses `j`, adding `a` at the
   * end of the pass adds one to `j`'s count and the unit vector towards `a` to its
   * direction, and leaves every other segment as it was.
   */
  lemma PullOnlyChosen(segs: seq<Line>, attrs: seq<Point>, a: Point, j: nat, norm: Vec3 -> Vec3)
    requires Choose(segs, a.pos) == Pull(j)
    ensures j < |segs|
    ensures var before := Attracted(segs, attrs, norm);
      Attracted(segs, attrs + [a], norm) ==
        before[j := before[j].(count := before[j].count + 1, dir := Add(before[j].dir, norm(Sub(a.pos, segs[j].pos))))]
  {
    assert (attrs + [a])[..|attrs|] == attrs;
    AttractedSamePositions(segs, attrs, norm);
    ChooseByPositions(Attracted(segs, attrs, norm), segs, a.pos);
  }

  /**
   * Capture priority: an attractor within the capture radius of any segment is
   * flagged reached and adds no pull to any segment, whatever in-range segments
   * the scan met before the capturing one.
   */
  lemma CapturePriority(segs: seq<Line>, attrs: seq<Point>, a: Point, norm: Vec3 -> Vec3)
    requires exists k :: 0 <= k < |segs| && Captures(segs[k], a.pos)
    ensures Mark(segs, a).reached
    ensures Attracted(segs, attrs + [a], norm) == Attracted(segs, attrs, norm)
    ensures forall j :: PullCount(segs, attrs + [a], j) == PullCount(segs, attrs, j)
  {
    ChooseSpec(segs, a.pos);
    assert (attrs + [a])[..|attrs|] == attrs;
    AttractedSamePositions(segs, attrs, norm);
    ChooseByPositions(Attracted(segs, attrs, norm), segs, a.pos);
  }

  /**
   * Range exclusion: an attractor farther than the influence radius from every
   * segment pulls nothing and stays unreached.
   */
  lemma OutOfRangeIgnored(segs: seq<Line>, attrs: seq<Point>, a: Point, norm: Vec3 -> Vec3)
    requires forall k :: 0 <= k < |segs| ==> DistSq(a.pos, segs[k].pos) > MaxDist * MaxDist
    ensures Mark(segs, a) == a
    ensures Attracted(segs, attrs + [a], norm) == Attracted(segs, attrs, norm)
  {
    ChooseSpec(segs, a.pos);
    assert (attrs + [a])[..|attrs|] == attrs;
    AttractedSamePositions(segs, attrs, norm);
    ChooseByPositions(Attracted(segs, attrs, norm), segs, a.pos);
  }

  /**
   * The quirk of the averaging step: `dir` starts each iteration at `originalDir`,
   * so the average taken afterwards is (originalDir + sum of pulls) / count, not
   * the mean of the pulls alone.
   */
  lemma AverageIncludesOriginalDir(segs: seq<Line>, attrs: seq<Point>, j: nat, norm: Vec3 -> Vec3)
    requires j < |segs| && AtRest(segs[j])
    requires PullCount(segs, attrs, j) > 0
    ensures var s := Attracted(segs, attrs, norm)[j];
      s.count == PullCount(segs, attrs, j) &&
      Div(s.dir, s.count as real) ==
        Div(PullSum(segs[j].originalDir, segs, attrs, j, norm), PullCount(segs, attrs, j) as real)
  {
    AttractedAt(segs, attrs, j, norm);
  }

  /** The attraction pass keeps every segment consistent. */
  lemma AttractedConsistent(segs: seq<Line>, attrs: seq<Point>, norm: Vec3 -> Vec3)
    requires forall k :: 0 <= k < |segs| ==> Consistent(segs[k])
    ensures forall k :: 0 <= k < |segs| ==> Consistent(Attracted(segs, attrs, norm)[k])
  {
    forall k | 0 <= k < |segs|
      ensures Consistent(Attracted(segs, attrs, norm)[k])
    {
      AttractedAt(segs, attrs, k, norm);
      if PullCount(segs, attrs, k) == 0 {
        UnchosenUnchanged(segs, attrs, k, norm);
      }
    }
  }

  /** The removal pass: the attractors not flagged reached, in their original order. */
  function Unreached(attrs: seq<Point>): (r: seq<Point>)
    ensures |r| <= |attrs|
  {
    if |attrs| == 0 then []
    else (if attrs[0].reached then [] else [attrs[0]]) + Unreached(attrs[1..])
  }

  /** What survives the removal pass is exactly the unreached attractors. */
  lemma {:induction false} UnreachedMembers(attrs: seq<Point>)
    ensures forall p :: p in Unreached(attrs) <==> p in attrs && !p.reached
  {
    if |attrs| > 0 {
      assert attrs == [attrs[0]] + attrs[1..];
      UnreachedMembers(attrs[1..]);
    }
  }

  /** The removal keeps the relative order: it distributes over concatenation. */
  lemma {:induction false} UnreachedAppend(a: seq<Point>, b: seq<Point>)
    ensures Unreached(a + b) == Unreached(a) + Unreached(b)
  {
    if |a| == 0 {
      assert a + b == b;
    } else {
      assert (a + b)[0] == a[0];
      assert (a + b)[1..] == a[1..] + b;
      UnreachedAppend(a[1..], b);
    }
  }

  /** Every unreached attractor survives as many times as it occurs; every reached one is gone. */
  lemma {:induction false} UnreachedCounts(attrs: seq<Point>, p: Point)
    ensures multiset(Unreached(attrs))[p] == if p.reached then 0 else multiset(attrs)[p]
  {
    if |attrs| > 0 {
      assert attrs == [attrs[0]] + attrs[1..];
      UnreachedCounts(attrs[1..], p);
    }
  }
}
