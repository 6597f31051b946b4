/**
 * The class `Bolt`: the attractor and segment lists, the constructor that fills
 * them and `grow`, the loop that runs the growth iterations in place. Each pass of
 * an iteration is a method proved to compute the function of the other modules
 * that describes it, so `Grow` is proved to compute `Run` and the lemmas about
 * `Run` hold of the bolt it leaves.
 */
module Lightning {
  import opened Wrappers
  import opened Vectors
  import opened Attractors
  import opened Segments
  import opened Attraction
  import opened Emission
  import opened Growth

  /** The value `record` starts from in the inner scan. */
  const Record: real := 100000.0

  /**
   * The inner loop of the attraction pass for the attractor at `a`: scan the
   * segments in order, stop at the first one within the capture radius, otherwise
   * remember the first closest segment within the influence radius. Distances are
   * compared squared, `record` included.
   */
  method ClosestSegment(segs: seq<Line>, a: Vec3) returns (c: Choice)
    ensures c == Choose(segs, a)
  {
    var reached := false;
    var closest: Option<nat> := None;
    var record := Record * Record;
    var j := 0;
    while j < |segs|
      invariant 0 <= j <= |segs|
      invariant !reached
      invariant Choose(segs[..j], a) == if closest.None? then Ignored else Pull(closest.value)
      invariant closest.Some? ==> closest.value < j && record == DistSq(a, segs[closest.value].pos)
    {
      assert segs[..j + 1][..j] == segs[..j];
      var d := DistSq(a, segs[j].pos);
      if d < MinDist * MinDist {
        reached := true;
        closest := None;
        assert Captures(segs[j], a);
        break;
      } else if d > MaxDist * MaxDist {
      } else if closest.None? || d < record {
        closest := Some(j);
        record := d;
      }
      j := j + 1;
    }
    if reached {
      ChooseSpec(segs, a);
      c := Captured;
    } else {
      assert segs[..j] == segs;
      c := if closest.None? then Ignored else Pull(closest.value);
    }
  }

  class Bolt {
    var attrList: seq<Point>
    var segmList: seq<Line>

    /**
     * `Bolt.__init__`: one unreached attractor per drawn position, in drawing order,
     * and the root segment 40 units above `height`, pointing down. The positions
     * `random.uniform` draws are the parameter `samples`.
     */
    constructor (newAttrNumber: nat, newArea: real, height: real, samples: seq<Vec3>)
      requires |samples| == newAttrNumber
      requires forall i :: 0 <= i < |samples| ==> InSpawnVolume(samples[i], newArea)
      ensures |attrList| == newAttrNumber
      ensures forall i :: 0 <= i < newAttrNumber ==> attrList[i] == NewPoint(newArea, samples[i])
      ensures segmList == [NewLine(Vec3(0.0, height + 40.0, 0.0), None, Vec3(0.0, -1.0, 0.0))]
      ensures WellFormed(State(segmList, attrList, 0))
    {
      var attrs: seq<Point> := [];
      for i := 0 to newAttrNumber
        invariant |attrs| == i
        invariant forall k :: 0 <= k < i ==> attrs[k] == NewPoint(newArea, samples[k])
      {
        attrs := attrs + [NewPoint(newArea, samples[i])];
      }
      attrList := attrs;
      segmList := [NewLine(Vec3(0.0, height + 40.0, 0.0), None, Vec3(0.0, -1.0, 0.0))];
    }

    /**
     * The attraction pass: every attractor, in list order, is flagged reached if a
     * segment captures it, or else pulls the first closest segment in range.
     */
    method AttractionPass(norm: Vec3 -> Vec3)
      modifies this
      ensures segmList == Attracted(old(segmList), old(attrList), norm)
      ensures attrList == MarkAll(old(segmList), old(attrList))
    {
      ghost var segs0 := segmList;
      ghost var attrs0 := attrList;
      var n := |attrList|;
      var i := 0;
      while i < n
        invariant 0 <= i <= n == |attrList| == |attrs0|
        invariant segmList == Attracted(segs0, attrs0[..i], norm)
        invariant forall k :: 0 <= k < i ==> attrList[k] == Mark(segs0, attrs0[k])
        invariant forall k :: i <= k < |attrs0| ==> attrList[k] == attrs0[k]
      {
        var a := attrList[i];
        AttractedSamePositions(segs0, attrs0[..i], norm);
        ChooseByPositions(segmList, segs0, a.pos);
        var c := ClosestSegment(segmList, a.pos);
        assert attrs0[..i + 1][..i] == attrs0[..i];
        match c {
          case Captured =>
            attrList := attrList[i := a.(reached := true)];
          case Pull(j) =>
            var s := segmList[j];
            var newDir := norm(Sub(a.pos, s.pos));
            segmList := segmList[j := s.(dir := Add(s.dir, newDir), count := s.count + 1)];
          case Ignored =>
        }
        i := i + 1;
      }
      assert attrs0[..i] == attrs0;
    }

    /** The removal pass: walking backwards, every reached attractor is removed. */
    method RemovalPass()
      modifies this
      ensures attrList == Unreached(old(attrList))
      ensures segmList == old(segmList)
    {
      ghost var attrs0 := attrList;
      var i := |attrList| - 1;
      while i >= 0
        invariant -1 <= i < |attrs0|
        invariant attrList == attrs0[..i + 1] + Unreached(attrs0[i + 1..])
        invariant segmList == old(segmList)
      {
        assert attrList[i] == attrs0[i] && attrList[..i] == attrs0[..i];
        assert attrs0[i..][1..] == attrs0[i + 1..];
        if attrList[i].reached {
          attrList := attrList[..i] + attrList[i + 1..];
        }
        i := i - 1;
      }
    }

    /**
     * The emit pass: walking backwards over the segments that exist when it starts,
     * every pulled segment averages its direction, adds the jitter draw for its
     * index, is normalised, appends its child and is reset.
     */
    method EmitPass(jitter: nat -> Vec3, norm: Vec3 -> Vec3)
      modifies this
      ensures segmList == Emitted(old(segmList), jitter, norm)
      ensures attrList == old(attrList)
    {
      ghost var segs0 := segmList;
      var i := |segmList| - 1;
      while i >= 0
        invariant -1 <= i < |segs0| <= |segmList|
        invariant EmitDown(segmList, i + 1, jitter, norm) == Emitted(segs0, jitter, norm)
        invariant attrList == old(attrList)
      {
        var current := segmList[i];
        if current.count > 0 {
          var dir := Div(current.dir, current.count as real);
          dir := Add(dir, jitter(i));
          dir := norm(dir);
          current := current.(dir := dir);
          segmList := segmList + [Next(current, i)];
          segmList := segmList[i := Reset(current)];
        }
        i := i - 1;
      }
    }

    /** The `showMesh` loop of iteration `iter`, over the whole list. */
    method ShowPass(iter: int)
      modifies this
      ensures segmList == ShowAll(old(segmList), iter)
      ensures attrList == old(attrList)
    {
      ghost var segs0 := segmList;
      for i := 0 to |segmList|
        invariant |segmList| == |segs0|
        invariant forall k :: 0 <= k < i ==> segmList[k] == ShowMesh(segs0[k], iter)
        invariant forall k :: i <= k < |segs0| ==> segmList[k] == segs0[k]
        invariant attrList == old(attrList)
      {
        segmList := segmList[i := ShowMesh(segmList[i], iter)];
      }
    }

    /** The `unshowMesh` loop; `endFrame` holds what the last call returned. */
    method UnshowPass(minIter: int) returns (endFrame: Option<int>)
      modifies this
      ensures segmList == UnshowAll(old(segmList), minIter)
      ensures endFrame == EndFrame(old(segmList), minIter)
      ensures attrList == old(attrList)
    {
      ghost var segs0 := segmList;
      endFrame := None;
      for i := 0 to |segmList|
        invariant |segmList| == |segs0|
        invariant forall k :: 0 <= k < i ==> segmList[k] == UnshowMesh(segs0[k], minIter).0
        invariant forall k :: i <= k < |segs0| ==> segmList[k] == segs0[k]
        invariant endFrame == EndFrame(segs0[..i], minIter)
        invariant attrList == old(attrList)
      {
        var r := UnshowMesh(segmList[i], minIter);
        segmList := segmList[i := r.0];
        endFrame := r.1;
      }
      assert segs0[..|segs0|] == segs0;
    }

    /** The first half of an iteration: the attraction pass, then the removal pass. */
    method AttractAndRemove(norm: Vec3 -> Vec3)
      modifies this
      ensures segmList == Attracted(old(segmList), old(attrList), norm)
      ensures attrList == Unreached(MarkAll(old(segmList), old(attrList)))
    {
      AttractionPass(norm);
      RemovalPass();
    }

    /** The second half of an iteration: the emit pass, then the `showMesh` loop. */
    method EmitAndShow(iter: int, jit: nat -> Vec3, norm: Vec3 -> Vec3)
      modifies this
      ensures segmList == ShowAll(Emitted(old(segmList), jit, norm), iter)
      ensures attrList == old(attrList)
    {
      EmitPass(jit, norm);
      ShowPass(iter);
    }

    /**
     * The body of the `while` loop of `grow`, in iteration number `iter`: the
     * attraction, removal, emit and `showMesh` passes in that order.
     */
    method GrowthIteration(iter: nat, jitter: nat -> nat -> Vec3, norm: Vec3 -> Vec3, ghost step: State -> State)
      requires iter >= 1 && IsIteration(step, jitter, norm)
      modifies this
      ensures State(segmList, attrList, iter) == step(State(old(segmList), old(attrList), iter - 1))
    {
      ghost var g := State(segmList, attrList, iter - 1);
      AttractAndRemove(norm);
      ghost var pulled := segmList;
      EmitAndShow(iter, jitter(iter), norm);
      IterationFrom(g, pulled, attrList, Emitted(pulled, jitter(iter), norm), segmList, jitter, norm, step);
    }

    /**
     * The `while` loop of `grow`: iterations run while attractors remain and, here,
     * while `fuel` lasts. The jitter draw for segment `i` in iteration `it` is
     * `jitter(it)(i)`. It leaves the bolt in the state `Run` describes.
     */
    method GrowthLoop(fuel: nat, jitter: nat -> nat -> Vec3, norm: Vec3 -> Vec3, ghost step: State -> State) returns (iterations: nat)
      requires IsIteration(step, jitter, norm)
      modifies this
      ensures iterations <= fuel
      ensures |attrList| == 0 || iterations == fuel
      ensures |old(attrList)| == 0 ==> iterations == 0 && segmList == old(segmList)
      ensures State(segmList, attrList, iterations) == Run(State(old(segmList), old(attrList), 0), fuel, step)
    {
      ghost var start := State(segmList, attrList, 0);
      ghost var left: nat := fuel;
      iterations := 0;
      while |attrList| != 0 && iterations < fuel
        invariant iterations <= fuel && left == fuel - iterations
        invariant Run(State(segmList, attrList, iterations), left, step) == Run(start, fuel, step)
        invariant iterations == 0 ==> segmList == start.segs && attrList == start.attrs
        decreases fuel - iterations
      {
        ghost var g := State(segmList, attrList, iterations);
        iterations := iterations + 1;
        GrowthIteration(iterations, jitter, norm, step);
        RunStep(g, left, step, State(segmList, attrList, iterations));
        left := left - 1;
      }
    }

    /**
     * `Bolt.grow`, without the scene output: the growth loop, then the `unshowMesh`
     * loop with `minIterations` 20 past the last iteration.
     */
    method Grow(fuel: nat, jitter: nat -> nat -> Vec3, norm: Vec3 -> Vec3) returns (iterations: nat, endFrame: Option<int>)
      modifies this
      ensures iterations <= fuel
      ensures |attrList| == 0 || iterations == fuel
      ensures |old(attrList)| == 0 ==> iterations == 0 && segmList == UnshowAll(old(segmList), 20)
      ensures var r := Run(State(old(segmList), old(attrList), 0), fuel, Stepper(jitter, norm));
        iterations == r.iterations && attrList == r.attrs &&
        segmList == UnshowAll(r.segs, iterations + 20) && endFrame == EndFrame(r.segs, iterations + 20)
    {
      StepperIsIteration(jitter, norm);
      iterations := GrowthLoop(fuel, jitter, norm, Stepper(jitter, norm));
      var minIterations := iterations + 20;
      endFrame := UnshowPass(minIterations);
    }
  }
}
