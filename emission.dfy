/**
 * The emit pass of one growth iteration: walking the segment list backwards, every
 * segment that was pulled averages its direction, is jittered and normalised,
 * appends one child and is reset. `EmitDown` follows the walk step by step;
 * `EmitDownShape` gives its closed form.
 */
module Emission {
  import opened Wrappers
  import opened Vectors
  import opened Segments

  /** The segment after its summed direction is divided by `count`, jittered and normalised. */
  function Averaged(s: Line, jit: Vec3, norm: Vec3 -> Vec3): (r: Line)
    requires s.count > 0
    ensures r == s.(dir := r.dir)
  {
    s.(dir := norm(Add(Div(s.dir, s.count as real), jit)))
  }

  /** The child emitted by the pulled segment at index `i`. */
  function Child(s: Line, i: nat, jitter: nat -> Vec3, norm: Vec3 -> Vec3): (c: Line)
    requires s.count > 0
    ensures c.father == Some(i) && AtRest(c) && !c.shown && c.frame == 0
  {
    Next(Averaged(s, jitter(i), norm), i)
  }

  /** The visit of index `i`: a pulled segment appends its child and is reset. */
  function EmitStep(segs: seq<Line>, i: nat, jitter: nat -> Vec3, norm: Vec3 -> Vec3): (r: seq<Line>)
    requires i < |segs|
    ensures |r| == |segs| + (if segs[i].count > 0 then 1 else 0)
  {
    if segs[i].count > 0 then
      var p := Averaged(segs[i], jitter(i), norm);
      (segs + [Next(p, i)])[i := Reset(p)]
    else
      segs
  }

  /** The visits of indices `k - 1` down to 0, in that order. */
  function EmitDown(segs: seq<Line>, k: nat, jitter: nat -> Vec3, norm: Vec3 -> Vec3): (r: seq<Line>)
    requires k <= |segs|
    ensures |r| >= |segs|
    decreases k
  {
    if k == 0 then segs
    else EmitDown(EmitStep(segs, k - 1, jitter, norm), k - 1, jitter, norm)
  }

  /** The emit pass over every segment that exists when it starts. */
  function Emitted(segs: seq<Line>, jitter: nat -> Vec3, norm: Vec3 -> Vec3): (r: seq<Line>)
    ensures |r| >= |segs|
  {
    EmitDown(segs, |segs|, jitter, norm)
  }

  /** A visited segment: reset if it was pulled, untouched otherwise. */
  function Settle(s: Line): Line
  {
    if s.count > 0 then Reset(s) else s
  }

  /** The children of the pulled segments below index `k`, highest parent first. */
  function Children(segs: seq<Line>, k: nat, jitter: nat -> Vec3, norm: Vec3 -> Vec3): seq<Line>
    requires k <= |segs|
    decreases k
  {
    if k == 0 then []
    else
      (if segs[k - 1].count > 0 then [Child(segs[k - 1], k - 1, jitter, norm)] else []) +
      Children(segs, k - 1, jitter, norm)
  }

  /** The number of pulled segments below index `k`. */
  function Emitters(segs: seq<Line>, k: nat): nat
    requires k <= |segs|
  {
    if k == 0 then 0 else Emitters(segs, k - 1) + (if segs[k - 1].count > 0 then 1 else 0)
  }

  lemma {:induction false} ChildrenOfPrefix(s1: seq<Line>, s2: seq<Line>, k: nat, jitter: nat -> Vec3, norm: Vec3 -> Vec3)
    requires k <= |s1| && k <= |s2| && s1[..k] == s2[..k]
    ensures Children(s1, k, jitter, norm) == Children(s2, k, jitter, norm)
  {
    if k > 0 {
      assert s1[k - 1] == s1[..k][k - 1] == s2[..k][k - 1] == s2[k - 1];
      assert s1[..k - 1] == s1[..k][..k - 1] == s2[..k][..k - 1] == s2[..k - 1];
      ChildrenOfPrefix(s1, s2, k - 1, jitter, norm);
    }
  }

  /**
   * Closed form of the backwards walk over indices below `k`: those segments are
   * settled, the others are untouched, and the children are appended at the end,
   * highest parent index first. Segments appended during the walk are never visited.
   */
  lemma {:induction false} EmitDownShape(segs: seq<Line>, k: nat, jitter: nat -> Vec3, norm: Vec3 -> Vec3)
    requires k <= |segs|
    ensures |EmitDown(segs, k, jitter, norm)| == |segs| + |Children(segs, k, jitter, norm)|
    ensures forall m :: 0 <= m < k ==> EmitDown(segs, k, jitter, norm)[m] == Settle(segs[m])
    ensures forall m :: k <= m < |segs| ==> EmitDown(segs, k, jitter, norm)[m] == segs[m]
    ensures EmitDown(segs, k, jitter, norm)[|segs|..] == Children(segs, k, jitter, norm)
    decreases k
  {
    if k > 0 {
      var i := k - 1;
      var next := EmitStep(segs, i, jitter, norm);
      var r := EmitDown(segs, k, jitter, norm);
      assert r == EmitDown(next, i, jitter, norm);
      EmitDownShape(next, i, jitter, norm);
      assert next[..i] == segs[..i];
      ChildrenOfPrefix(next, segs, i, jitter, norm);
      assert next[i] == Settle(segs[i]) by {
        if segs[i].count > 0 {
          assert next[i] == Reset(Averaged(segs[i], jitter(i), norm));
        }
      }
      forall m | 0 <= m < |segs| && m != i
        ensures next[m] == segs[m]
      {
      }
      if segs[i].count > 0 {
        assert next[|segs|] == Child(segs[i], i, jitter, norm);
        assert r[|segs|] == next[|segs|];
        assert r[|segs|..] == [r[|segs|]] + r[|next|..];
      }
    }
  }

  /** Exactly one child per pulled segment. */
  lemma {:induction false} ChildrenCount(segs: seq<Line>, k: nat, jitter: nat -> Vec3, norm: Vec3 -> Vec3)
    requires k <= |segs|
    ensures |Children(segs, k, jitter, norm)| == Emitters(segs, k)
  {
    if k > 0 {
      ChildrenCount(segs, k - 1, jitter, norm);
    }
  }

  /** Each child's father is a pulled segment below `k`, and the child is the one that segment emits. */
  lemma {:induction false} ChildrenParents(segs: seq<Line>, k: nat, jitter: nat -> Vec3, norm: Vec3 -> Vec3)
    requires k <= |segs|
    ensures forall c :: 0 <= c < |Children(segs, k, jitter, norm)| ==>
      var ch := Children(segs, k, jitter, norm)[c];
      ch.father.Some? && ch.father.value < k && segs[ch.father.value].count > 0 &&
      ch == Child(segs[ch.father.value], ch.father.value, jitter, norm)
  {
    if k > 0 {
      var ch := Children(segs, k, jitter, norm);
      var tail := Children(segs, k - 1, jitter, norm);
      ChildrenParents(segs, k - 1, jitter, norm);
      var h := |ch| - |tail|;
      assert forall c :: h <= c < |ch| ==> ch[c] == tail[c - h];
    }
  }

  /** The children come highest parent index first. */
  lemma {:induction false} ChildrenDescending(segs: seq<Line>, k: nat, jitter: nat -> Vec3, norm: Vec3 -> Vec3)
    requires k <= |segs|
    ensures forall c :: 0 <= c < |Children(segs, k, jitter, norm)| ==> Children(segs, k, jitter, norm)[c].father.Some?
    ensures forall c, d :: 0 <= c < d < |Children(segs, k, jitter, norm)| ==>
      Children(segs, k, jitter, norm)[c].father.value > Children(segs, k, jitter, norm)[d].father.value
  {
    ChildrenParents(segs, k, jitter, norm);
    if k > 0 {
      var ch := Children(segs, k, jitter, norm);
      var tail := Children(segs, k - 1, jitter, norm);
      ChildrenDescending(segs, k - 1, jitter, norm);
      ChildrenParents(segs, k - 1, jitter, norm);
      var h := |ch| - |tail|;
      assert forall c :: h <= c < |ch| ==> ch[c] == tail[c - h];
    }
  }

  /** Every pulled segment below `k` has a child. */
  lemma {:induction false} ChildrenCover(segs: seq<Line>, k: nat, jitter: nat -> Vec3, norm: Vec3 -> Vec3)
    requires k <= |segs|
    ensures forall p: nat :: p < k && segs[p].count > 0 ==>
      exists c :: 0 <= c < |Children(segs, k, jitter, norm)| && Children(segs, k, jitter, norm)[c].father == Some(p)
  {
    if k > 0 {
      var i := k - 1;
      var ch := Children(segs, k, jitter, norm);
      var tail := Children(segs, i, jitter, norm);
      ChildrenCover(segs, i, jitter, norm);
      var h := |ch| - |tail|;
      forall p: nat | p < k && segs[p].count > 0
        ensures exists c :: 0 <= c < |ch| && ch[c].father == Some(p)
      {
        if p == i {
          assert ch == [Child(segs[i], i, jitter, norm)] + tail;
          assert ch[0].father == Some(p);
        } else {
          var c :| 0 <= c < |tail| && tail[c].father == Some(p);
          assert ch[c + h] == tail[c];
          assert 0 <= c + h < |ch| && ch[c + h].father == Some(p);
        }
      }
      assert ch == Children(segs, k, jitter, norm);
    }
  }

  /**
   * The segments the emit pass appends: each is the child of a pulled segment that
   * existed before the pass, fresh (at rest, not shown, frame 0).
   */
  lemma EmittedChildren(segs: seq<Line>, jitter: nat -> Vec3, norm: Vec3 -> Vec3)
    ensures |Emitted(segs, jitter, norm)| >= |segs|
    ensures forall k :: |segs| <= k < |Emitted(segs, jitter, norm)| ==>
      var c := Emitted(segs, jitter, norm)[k];
      c.father.Some? && c.father.value < |segs| && segs[c.father.value].count > 0 &&
      AtRest(c) && !c.shown && c.frame == 0
  {
    var n := |segs|;
    var e := Emitted(segs, jitter, norm);
    var ch := Children(segs, n, jitter, norm);
    EmitDownShape(segs, n, jitter, norm);
    ChildrenParents(segs, n, jitter, norm);
    forall k | n <= k < |e|
      ensures e[k].father.Some? && e[k].father.value < n && segs[e[k].father.value].count > 0
      ensures AtRest(e[k]) && !e[k].shown && e[k].frame == 0
    {
      assert e[k] == e[n..][k - n] == ch[k - n];
    }
  }

  /**
   * After the emit pass every segment is at rest: the visited ones were reset or
   * held no pull, and the appended ones are fresh.
   */
  lemma EmittedAllAtRest(segs: seq<Line>, jitter: nat -> Vec3, norm: Vec3 -> Vec3)
    requires forall k :: 0 <= k < |segs| ==> Consistent(segs[k])
    ensures forall k :: 0 <= k < |Emitted(segs, jitter, norm)| ==> AtRest(Emitted(segs, jitter, norm)[k])
  {
    EmitDownShape(segs, |segs|, jitter, norm);
    EmittedChildren(segs, jitter, norm);
  }
}
