/**
 * One iteration of `Bolt.grow` as a transition on the bolt's state, the loop that
 * repeats it while attractors remain (bounded by `fuel`), and the invariant every
 * iteration keeps.
 */
module Growth {
  import opened Wrappers
  import opened Vectors
  import opened Segments
  import opened Attractors
  import opened Attraction
  import opened Emission

  /** The bolt between iterations: both lists and the iteration counter of `grow`. */
  datatype State = State(segs: seq<Line>, attrs: seq<Point>, iterations: nat)

  /** The root comes first and has no father; every other segment's father comes before it. */
  predicate Tree(segs: seq<Line>)
  {
    |segs| >= 1 && segs[0].father.None? &&
    forall k :: 1 <= k < |segs| ==> segs[k].father.Some? && segs[k].father.value < k
  }

  predicate AllAtRest(segs: seq<Line>)
  {
    forall k :: 0 <= k < |segs| ==> AtRest(segs[k])
  }

  /**
   * The animation bookkeeping after `iter` iterations: the root is never shown and
   * keeps frame 0; every other segment is shown with a frame between 1 and `iter`;
   * frames never decrease along the list, and a child's frame is later than that of
   * a non-root father.
   */
  predicate ShownUpTo(segs: seq<Line>, iter: nat)
    requires Tree(segs)
  {
    !segs[0].shown && segs[0].frame == 0 &&
    (forall k :: 1 <= k < |segs| ==> segs[k].shown && 1 <= segs[k].frame <= iter) &&
    (forall k, m :: 1 <= k < m < |segs| ==> segs[k].frame <= segs[m].frame) &&
    (forall k, p :: 1 <= k < |segs| && 1 <= p < |segs| && segs[k].father == Some(p) ==> segs[p].frame < segs[k].frame)
  }

  /** What holds of the bolt between two iterations of the loop. */
  predicate WellFormed(g: State)
  {
    Tree(g.segs) && AllAtRest(g.segs) && ShownUpTo(g.segs, g.iterations) &&
    forall i :: 0 <= i < |g.attrs| ==> !g.attrs[i].reached
  }

  /** The `showMesh` loop over the whole list. */
  function ShowAll(segs: seq<Line>, iter: int): (r: seq<Line>)
    ensures |r| == |segs|
  {
    seq(|segs|, k requires 0 <= k < |segs| => ShowMesh(segs[k], iter))
  }

  /** The `unshowMesh` loop over the whole list. */
  function UnshowAll(segs: seq<Line>, minIter: int): (r: seq<Line>)
    ensures |r| == |segs|
  {
    seq(|segs|, k requires 0 <= k < |segs| => UnshowMesh(segs[k], minIter).0)
  }

  /** The value `endFrame` holds after the `unshowMesh` loop: what the last call returned. */
  function EndFrame(segs: seq<Line>, minIter: int): (r: Option<int>)
    ensures r.Some? <==> |segs| >= 1 && segs[|segs| - 1].father.Some?
    ensures r.Some? ==> r.value == segs[|segs| - 1].frame + minIter
  {
    if |segs| == 0 then None else UnshowMesh(segs[|segs| - 1], minIter).1
  }

  /**
   * One iteration of the `while` loop in `grow`: the counter goes up, then the
   * attraction pass, the removal pass, the emit pass with this iteration's jitter
   * draws, and the `showMesh` loop.
   */
  function Iteration(g: State, jitter: nat -> nat -> Vec3, norm: Vec3 -> Vec3): (r: State)
    ensures r.iterations == g.iterations + 1
    ensures |r.segs| >= |g.segs| && |r.attrs| <= |g.attrs|
  {
    var it := g.iterations + 1;
    var pulled := Attracted(g.segs, g.attrs, norm);
    var remaining := Unreached(MarkAll(g.segs, g.attrs));
    var emitted := Emitted(pulled, jitter(it), norm);
    State(ShowAll(emitted, it), remaining, it)
  }

  /** One iteration with this run's jitter draws and normalisation, as a transition. */
  function Stepper(jitter: nat -> nat -> Vec3, norm: Vec3 -> Vec3): State -> State
  {
    g => Iteration(g, jitter, norm)
  }

  /**
   * `step` is the iteration with these jitter draws and this normalisation. (The
   * trigger keeps callers that only apply `step` from unfolding the iteration.)
   */
  ghost predicate IsIteration(step: State -> State, jitter: nat -> nat -> Vec3, norm: Vec3 -> Vec3)
  {
    forall g {:trigger Iteration(g, jitter, norm)} :: step(g) == Iteration(g, jitter, norm)
  }

  lemma StepperIsIteration(jitter: nat -> nat -> Vec3, norm: Vec3 -> Vec3)
    ensures IsIteration(Stepper(jitter, norm), jitter, norm)
  {
  }

  /**
   * The `while` loop of `grow`, cut off after `fuel` iterations of `step`: it goes
   * on while attractors remain.
   */
  function Run(g: State, fuel: nat, step: State -> State): (r: State)
    ensures |g.attrs| == 0 || fuel == 0 ==> r == g
    decreases fuel
  {
    if |g.attrs| == 0 || fuel == 0 then g
    else Run(step(g), fuel - 1, step)
  }

  /** One step of the loop, for a caller that has the step's result at hand. */
  lemma RunStep(g: State, fuel: nat, step: State -> State, h: State)
    requires |g.attrs| > 0 && fuel > 0 && h == step(g)
    ensures Run(g, fuel, step) == Run(h, fuel - 1, step)
  {
  }

  /** The iteration as its passes compute it, one list at a time. */
  lemma IterationIs(g: State, jitter: nat -> nat -> Vec3, norm: Vec3 -> Vec3)
    ensures Iteration(g, jitter, norm) ==
      State(ShowAll(Emitted(Attracted(g.segs, g.attrs, norm), jitter(g.iterations + 1), norm), g.iterations + 1),
            Unreached(MarkAll(g.segs, g.attrs)), g.iterations + 1)
  {
  }

  /** An iteration assembled from the results of its four passes. */
  lemma IterationFrom(g: State, pulled: seq<Line>, remaining: seq<Point>, emitted: seq<Line>, shown: seq<Line>,
                      jitter: nat -> nat -> Vec3, norm: Vec3 -> Vec3, step: State -> State)
    requires IsIteration(step, jitter, norm)
    requires pulled == Attracted(g.segs, g.attrs, norm)
    requires remaining == Unreached(MarkAll(g.segs, g.attrs))
    requires emitted == Emitted(pulled, jitter(g.iterations + 1), norm)
    requires shown == ShowAll(emitted, g.iterations + 1)
    ensures step(g) == State(shown, remaining, g.iterations + 1)
  {
    IterationIs(g, jitter, norm);
  }

  /** The segments that exist before an iteration come out of it unchanged. */
  lemma IterationKeepsOld(g: State, jitter: nat -> nat -> Vec3, norm: Vec3 -> Vec3)
    requires WellFormed(g)
    ensures var r := Iteration(g, jitter, norm);
      |r.segs| >= |g.segs| && r.segs[..|g.segs|] == g.segs
  {
    var it := g.iterations + 1;
    var n := |g.segs|;
    var pulled := Attracted(g.segs, g.attrs, norm);
    var emitted := Emitted(pulled, jitter(it), norm);
    var shown := ShowAll(emitted, it);
    EmitDownShape(pulled, n, jitter(it), norm);
    forall m | 0 <= m < n
      ensures shown[m] == g.segs[m]
    {
      AttractedAt(g.segs, g.attrs, m, norm);
      var s := g.segs[m];
      assert pulled[m] == s.(count := pulled[m].count, dir := pulled[m].dir);
      if pulled[m].count == 0 {
        AttractedConsistent(g.segs, g.attrs, norm);
      }
      assert emitted[m] == Settle(pulled[m]) == s;
    }
  }

  /**
   * The segments an iteration adds: each has a father among the segments that
   * existed before, is at rest, and is shown with this iteration's number as frame.
   */
  lemma IterationNewSegments(g: State, jitter: nat -> nat -> Vec3, norm: Vec3 -> Vec3)
    requires WellFormed(g)
    ensures var r := Iteration(g, jitter, norm);
      |r.segs| >= |g.segs| &&
      forall k :: |g.segs| <= k < |r.segs| ==>
        r.segs[k].father.Some? && r.segs[k].father.value < |g.segs| &&
        AtRest(r.segs[k]) && r.segs[k].shown && r.segs[k].frame == r.iterations
  {
    var it := g.iterations + 1;
    var pulled := Attracted(g.segs, g.attrs, norm);
    var emitted := Emitted(pulled, jitter(it), norm);
    EmittedChildren(pulled, jitter(it), norm);
    assert Iteration(g, jitter, norm).segs == ShowAll(emitted, it);
  }

  /** The attractors left after an iteration: unreached ones of before that no segment captured. */
  lemma IterationAttractors(g: State, jitter: nat -> nat -> Vec3, norm: Vec3 -> Vec3)
    requires WellFormed(g)
    ensures var r := Iteration(g, jitter, norm);
      forall p :: p in r.attrs ==>
        p in g.attrs && !p.reached && forall k :: 0 <= k < |g.segs| ==> !Captures(g.segs[k], p.pos)
  {
    var marked := MarkAll(g.segs, g.attrs);
    UnreachedMembers(marked);
    forall p | p in Unreached(marked)
      ensures p in g.attrs && !p.reached && forall k :: 0 <= k < |g.segs| ==> !Captures(g.segs[k], p.pos)
    {
      var i :| 0 <= i < |marked| && marked[i] == p;
      assert Mark(g.segs, g.attrs[i]) == p;
      MarkReached(g.segs, g.attrs[i]);
    }
  }

  /** One iteration keeps the bolt well formed. */
  lemma IterationWellFormed(g: State, jitter: nat -> nat -> Vec3, norm: Vec3 -> Vec3)
    requires WellFormed(g)
    ensures WellFormed(Iteration(g, jitter, norm))
  {
    var r := Iteration(g, jitter, norm);
    var n := |g.segs|;
    IterationKeepsOld(g, jitter, norm);
    IterationNewSegments(g, jitter, norm);
    IterationAttractors(g, jitter, norm);
    assert forall k :: 0 <= k < n ==> r.segs[k] == g.segs[k] by {
      forall k | 0 <= k < n ensures r.segs[k] == g.segs[k] {
        assert r.segs[k] == r.segs[..n][k];
      }
    }
    assert Tree(r.segs);
    assert forall i :: 0 <= i < |r.attrs| ==> !r.attrs[i].reached by {
      forall i | 0 <= i < |r.attrs| ensures !r.attrs[i].reached {
        assert r.attrs[i] in r.attrs;
      }
    }
  }

  /**
   * What the loop needs of one iteration: it counts itself, and from a well-formed
   * state it gives a well-formed state that keeps every segment and only drops attractors.
   */
  ghost predicate GoodStep(step: State -> State)
  {
    forall s {:trigger step(s)} :: WellFormed(s) ==>
      step(s).iterations == s.iterations + 1 && WellFormed(step(s)) &&
      |step(s).segs| >= |s.segs| && step(s).segs[..|s.segs|] == s.segs &&
      forall p :: p in step(s).attrs ==> p in s.attrs
  }

  /** The iteration of `grow` is such a step. */
  lemma IterationGood(jitter: nat -> nat -> Vec3, norm: Vec3 -> Vec3)
    ensures GoodStep(Stepper(jitter, norm))
  {
    forall s | WellFormed(s)
      ensures Stepper(jitter, norm)(s) == Iteration(s, jitter, norm)
      ensures WellFormed(Iteration(s, jitter, norm))
      ensures |Iteration(s, jitter, norm).segs| >= |s.segs| && Iteration(s, jitter, norm).segs[..|s.segs|] == s.segs
      ensures forall p :: p in Iteration(s, jitter, norm).attrs ==> p in s.attrs
    {
      IterationWellFormed(s, jitter, norm);
      IterationKeepsOld(s, jitter, norm);
      IterationAttractors(s, jitter, norm);
    }
  }

  /** The loop stops exactly when no attractor is left or the fuel is spent. */
  lemma {:induction false} RunStops(g: State, fuel: nat, step: State -> State, r: State)
    requires GoodStep(step) && WellFormed(g) && r == Run(g, fuel, step)
    ensures g.iterations <= r.iterations <= g.iterations + fuel
    ensures |r.attrs| == 0 || r.iterations == g.iterations + fuel
    ensures WellFormed(r)
    decreases fuel
  {
    if |g.attrs| > 0 && fuel > 0 {
      RunStops(step(g), fuel - 1, step, r);
    }
  }

  /** The loop never changes a segment once it exists and only ever removes attractors. */
  lemma {:induction false} RunKeepsOld(g: State, fuel: nat, step: State -> State, r: State)
    requires GoodStep(step) && WellFormed(g) && r == Run(g, fuel, step)
    ensures |r.segs| >= |g.segs| && r.segs[..|g.segs|] == g.segs
    ensures forall p :: p in r.attrs ==> p in g.attrs
    decreases fuel
  {
    if |g.attrs| > 0 && fuel > 0 {
      var h := step(g);
      RunKeepsOld(h, fuel - 1, step, r);
      assert r.segs[..|g.segs|] == r.segs[..|h.segs|][..|g.segs|];
    }
  }

  /**
   * The `unshowMesh` loop after `iter` iterations: the root is untouched, every
   * other segment's frame moves on by `minIter`, and `endFrame` is defined exactly
   * when the bolt has grown at least one segment, in which case it is the latest
   * frame of all.
   */
  lemma UnshowFrames(segs: seq<Line>, iter: nat, minIter: int)
    requires Tree(segs) && ShownUpTo(segs, iter)
    ensures UnshowAll(segs, minIter)[0] == segs[0]
    ensures forall k :: 1 <= k < |segs| ==> UnshowAll(segs, minIter)[k] == segs[k].(frame := segs[k].frame + minIter)
    ensures EndFrame(segs, minIter).Some? <==> |segs| >= 2
    ensures EndFrame(segs, minIter).Some? ==>
      forall k :: 1 <= k < |segs| ==> UnshowAll(segs, minIter)[k].frame <= EndFrame(segs, minIter).value
  {
  }

  /**
   * The loop of `grow` with these draws, from a well-formed bolt (as the
   * constructor leaves it): the bolt stays well formed, at most `fuel` iterations
   * run, it stops only when no attractor is left or the fuel is spent, no segment
   * changes once it exists, and attractors are only removed.
   */
  lemma GrowthWellFormed(g: State, fuel: nat, jitter: nat -> nat -> Vec3, norm: Vec3 -> Vec3)
    requires WellFormed(g)
    ensures var r := Run(g, fuel, Stepper(jitter, norm));
      WellFormed(r) &&
      g.iterations <= r.iterations <= g.iterations + fuel &&
      (|r.attrs| == 0 || r.iterations == g.iterations + fuel) &&
      |r.segs| >= |g.segs| && r.segs[..|g.segs|] == g.segs &&
      forall p :: p in r.attrs ==> p in g.attrs
  {
    var r := Run(g, fuel, Stepper(jitter, norm));
    IterationGood(jitter, norm);
    RunStops(g, fuel, Stepper(jitter, norm), r);
    RunKeepsOld(g, fuel, Stepper(jitter, norm), r);
  }
}
