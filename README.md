# Lightning growth: a Dafny model of the space-colonisation core

The Maya plug-in in `Docs/Lightning_script_final_2.py` grows a lightning bolt with
the space-colonisation algorithm of Runions, Lane and Prusinkiewicz (2007).

## How the bolt grows

The bolt starts with a cloud of attractors (`Point`) and a single root segment
(`Line`). Each iteration of `Bolt.grow` runs four passes:

1. **Attraction.** Each attractor scans the segments in list order.
   - A segment closer than `minDist` (5) captures the attractor, which is flagged `reached`.
   - Otherwise, the first closest segment within `[minDist, maxDist]` (maxDist is 100) is pulled towards the attractor: the unit vector towards the attractor is added to the segment's `dir`, and its `count` goes up by one.
2. **Removal.** Reached attractors are removed from the list.
3. **Emit.** The segments are walked backwards. Each pulled segment divides `dir` by `count`, adds a random jitter, normalises `dir`, appends one child segment and resets itself.
4. **Show.** Every new segment is marked shown, with the iteration number as its frame.

After the loop, `unshowMesh` shifts the frame of every non-root segment by `iterations + 20`; the root's frame is left alone.

## How the model is built

The model follows the program's structure:

- **Value entities.** `Attractors.Point` and `Segments.Line` are datatypes. The functions `Segments.Reset`, `ShowMesh` and `UnshowMesh` return the updated record, where `resetFunc`, `showMesh` and `unshowMesh` update it in place. `Segments.Next` returns the new child segment, as `next` does.
- **Passes as functions.** In the modules `Attraction`, `Emission` and `Growth`, each pass is a function of the two lists: `Attracted`/`MarkAll`, `Unreached`, `Emitted`, `ShowAll`. One iteration is `Growth.Iteration`, and the loop is `Growth.Run`.
- **The class.** `Lightning.Bolt` holds `attrList` and `segmList` as sequence fields. One method per pass updates them in place, with the loops of the original. Each method is proved to compute the matching function.
- **The loop.** `Grow` is proved to leave the bolt in the state `Run` describes.

The lemmas prove these properties:

- capture priority, the inclusive range test and the first-minimum tie-break of the scan;
- that a pull touches only the chosen segment;
- that removal is an order-preserving filter;
- the closed form of the backwards emit walk: one child per pulled segment, highest parent first, and children never visited;
- that a bolt in the state the constructor leaves stays well formed, iteration after iteration, and after a whole run (`Growth.GrowthWellFormed`):
  - every non-root segment's father comes before it;
  - every segment is at rest between iterations;
  - the root is never shown;
  - every other segment is shown once, with the frame of the iteration that created it;
  - frames never decrease along the list, and a child's frame is later than its non-root father's.

### Modelling choices

- **Distances.** `distanceTo` is never computed. Distances are compared squared (`DistSq` against `MinDist*MinDist` and `MaxDist*MaxDist`); for non-negative numbers this gives the same outcome as comparing the distances themselves.
- **Normalisation and randomness.** `MVector.normalize` is a function parameter `norm`. The values drawn from `random.uniform` are parameters: the attractor positions `samples` of the constructor, and the jitter `jitter(it)(i)` for segment `i` in iteration `it`.
- **The loop bound.** The `while` loop of `grow` need not terminate, so `Grow` takes a `fuel` bound.
- **Notes on the code.** Some comments in the program read more loosely than the statements they annotate. The model follows the statements:
  - The range test includes both ends: a segment at exactly `minDist` fails both the `d < minDist` test (line 193) and the `d > maxDist` test (line 197), so it reaches the third branch (line 199) and is pulled if it is the first closest segment in range. The comments on `maxDist`/`minDist` (line 154) and on `grow` (line 169) say "in between" these distances, which does not settle the ends.
  - The frame is set when `showMesh` first shows a segment (line 88). Each segment is shown in the iteration that created it, so its frame is the number of that iteration.
  - The comment on line 223 says the division "averages all of the found directions". The code divides `dir` by `count`, and `dir` starts each iteration at `originalDir`, not at zero. So the result is `(originalDir + sum of the pulls) / count`, which is not the mean of the pulls alone (`Attraction.AverageIncludesOriginalDir`).

## Model

| member | source | states |
|---|---|---|
| Attractors.NewPoint | Docs/Lightning_script_final_2.py:14-22 | a new attractor is unreached, sits at the drawn position, and lies within x, z in [-area, area] and y in [0, 40] |
| Segments.NewLine | Docs/Lightning_script_final_2.py:25-40 | a new segment keeps the given position, father and direction as `originalDir`, has length 1, holds no pull (count 0, `dir` equal to `originalDir`), is not shown and has frame 0 |
| Segments.Reset | Docs/Lightning_script_final_2.py:43-49 | after `resetFunc` the segment is at rest again; position, father, length, `originalDir`, `shown` and `frame` are untouched |
| Segments.ResetIdempotent | Docs/Lightning_script_final_2.py:43-49 | resetting twice is the same as resetting once |
| Segments.ResetAtRest | Docs/Lightning_script_final_2.py:43-49 | resetting a segment that holds no pull changes nothing |
| Segments.Next | Docs/Lightning_script_final_2.py:51-59 | the child's father is the parent, its position is the parent's position plus `dir * length`, and its `dir` and `originalDir` are the parent's current `dir`; it has count 0, is not shown and has frame 0 |
| Segments.NextAtRest | Docs/Lightning_script_final_2.py:51-59 | a freshly created child has nothing to reset |
| Segments.Radius | Docs/Lightning_script_final_2.py:78-83 | the cylinder radius factor is always positive; it is 0.1 without falloff, 0.1 - 0.001·iter with falloff while that stays positive, and 0.0001 after that |
| Segments.ShowMesh | Docs/Lightning_script_final_2.py:71-91 | the root, or a segment already shown, is left unchanged; any other segment becomes shown with frame `iter`; position, direction, count and father never change |
| Segments.ShowOnce | Docs/Lightning_script_final_2.py:71-91 | a later `showMesh` keeps the frame the first one set |
| Segments.UnshowMesh | Docs/Lightning_script_final_2.py:100-104 | a non-root segment's frame moves on by `minIter` and the new frame is returned; the root is left unchanged and nothing is returned; no other field changes |
| Attraction.InRange | Docs/Lightning_script_final_2.py:193-199 | the test the third branch of the `if`/`elif` chain reaches: it holds exactly when the attractor is neither captured (`d < minDist`, line 193, compared squared) nor farther than `maxDist`, so both ends of `[minDist, maxDist]` are included |
| Attraction.Choose | Docs/Lightning_script_final_2.py:188-201 | a chosen segment is an index of the list |
| Attraction.ChooseSpec | Docs/Lightning_script_final_2.py:190-201 | the scan captures exactly when some segment is closer than `minDist`; it chooses nothing exactly when no segment is within `maxDist`; otherwise it chooses the first segment at minimal distance among those with `minDist <= d <= maxDist` |
| Attraction.ChooseByPositions | Docs/Lightning_script_final_2.py:190-192 | the scan depends only on the segments' positions, so pulls made earlier in the pass never change a later scan |
| Attraction.Mark | Docs/Lightning_script_final_2.py:193-194 | the attraction pass never moves an attractor |
| Attraction.MarkReached | Docs/Lightning_script_final_2.py:193-196 | after the pass an attractor is reached exactly when it was before or some segment is closer than `minDist` |
| Attraction.MarkAll | Docs/Lightning_script_final_2.py:186-196 | every attractor of the list is flagged independently of the others |
| Attraction.Pulled | Docs/Lightning_script_final_2.py:203-206 | a pull adds one to `count` and changes only `dir`; position, father, length, `originalDir`, `shown` and `frame` are untouched |
| Attraction.AttractStep | Docs/Lightning_script_final_2.py:202-206 | one attractor's pull never adds or removes segments |
| Attraction.Attracted | Docs/Lightning_script_final_2.py:186-206 | the attraction pass never adds or removes segments |
| Attraction.AttractedAt | Docs/Lightning_script_final_2.py:186-206 | after the pass, segment j has gained exactly one pull per attractor that chooses it, scanned against the list as it was when the pass began; no other field changes |
| Attraction.AttractedSamePositions | Docs/Lightning_script_final_2.py:202-206 | the pass keeps every segment's position |
| Attraction.UnchosenUnchanged | Docs/Lightning_script_final_2.py:202-206 | a segment that no attractor chooses comes out of the pass unchanged |
| Attraction.PullOnlyChosen | Docs/Lightning_script_final_2.py:202-206 | a pull adds one to the chosen segment's count and the unit vector towards the attractor to its `dir`; every other segment is untouched |
| Attraction.CapturePriority | Docs/Lightning_script_final_2.py:193-202 | an attractor closer than `minDist` to any segment is flagged reached and pulls no segment, even if an in-range segment came earlier in the scan |
| Attraction.OutOfRangeIgnored | Docs/Lightning_script_final_2.py:197-198 | an attractor farther than `maxDist` from every segment pulls nothing and stays unreached |
| Attraction.AverageIncludesOriginalDir | Docs/Lightning_script_final_2.py:202-206 | for a pulled segment at rest, dividing `dir` by `count` gives (originalDir + the sum of the pulls) / number of pulls |
| Attraction.AttractedConsistent | Docs/Lightning_script_final_2.py:202-206 | a segment that holds no pull after the pass still has its creation direction |
| Attraction.Unreached | Docs/Lightning_script_final_2.py:209-214 | the removal pass never lengthens the list |
| Attraction.UnreachedMembers | Docs/Lightning_script_final_2.py:209-214 | an attractor survives removal exactly when it was in the list and is not reached |
| Attraction.UnreachedAppend | Docs/Lightning_script_final_2.py:209-214 | removal distributes over concatenation, so the survivors keep their relative order |
| Attraction.UnreachedCounts | Docs/Lightning_script_final_2.py:209-214 | every unreached attractor survives as often as it occurs; every reached one is gone |
| Emission.Averaged | Docs/Lightning_script_final_2.py:223-226 | averaging, jitter and normalisation change only `dir`; every other field of the segment is untouched |
| Emission.Child | Docs/Lightning_script_final_2.py:227 | the child `next()` gives a pulled segment at index `i` has father `i`, holds no pull, is not shown and has frame 0 |
| Emission.EmitStep | Docs/Lightning_script_final_2.py:221-228 | visiting a segment appends one segment exactly when the segment was pulled |
| Emission.EmitDown | Docs/Lightning_script_final_2.py:219-229 | the emit walk never shortens the list |
| Emission.Emitted | Docs/Lightning_script_final_2.py:219-229 | the emit pass never shortens the list; its closed form is `Emission.EmitDownShape` with `k` the length of the list |
| Emission.EmitDownShape | Docs/Lightning_script_final_2.py:219-229 | after the backwards walk: the visited segments are reset if pulled and untouched otherwise, the rest are untouched, and the children follow at the end; segments appended during the walk are never visited |
| Emission.ChildrenCount | Docs/Lightning_script_final_2.py:222-227 | exactly one child per pulled segment |
| Emission.ChildrenParents | Docs/Lightning_script_final_2.py:222-227 | each child's father is a pulled segment that existed before the pass, and the child is `next()` of that segment after averaging, jitter and normalisation |
| Emission.ChildrenDescending | Docs/Lightning_script_final_2.py:219-229 | the children are appended in strictly descending order of parent index |
| Emission.ChildrenCover | Docs/Lightning_script_final_2.py:222-227 | every pulled segment has a child |
| Emission.EmittedChildren | Docs/Lightning_script_final_2.py:219-229 | every appended segment's father is a pulled segment that existed before the pass, and the segment is at rest, not shown, with frame 0 |
| Emission.EmittedAllAtRest | Docs/Lightning_script_final_2.py:219-229 | after the emit pass every segment holds no pull and has `dir` equal to `originalDir` |
| Growth.ShowAll | Docs/Lightning_script_final_2.py:233-234 | the `showMesh` loop keeps the list's length |
| Growth.UnshowAll | Docs/Lightning_script_final_2.py:238-240 | the `unshowMesh` loop keeps the list's length |
| Growth.EndFrame | Docs/Lightning_script_final_2.py:238-240 | `endFrame` is what the last `unshowMesh` returned: it is defined exactly when the list is non-empty and its last segment has a father, and it is then that segment's frame plus `minIterations` |
| Growth.Iteration | Docs/Lightning_script_final_2.py:184-234 | the attraction, removal, emit and `showMesh` passes in source order; an iteration adds one to the iteration count, never removes a segment and never adds an attractor |
| Growth.Run | Docs/Lightning_script_final_2.py:183-234 | with no attractor left, or no fuel left, the loop changes nothing |
| Growth.IterationKeepsOld | Docs/Lightning_script_final_2.py:184-234 | an iteration leaves every existing segment exactly as it was, and only appends |
| Growth.IterationNewSegments | Docs/Lightning_script_final_2.py:219-234 | every segment an iteration adds has a father that existed before, is at rest, and is shown with this iteration's number as its frame |
| Growth.IterationAttractors | Docs/Lightning_script_final_2.py:186-214 | the attractors left after an iteration were in the list before, are unreached, and no segment that existed before captures them |
| Growth.IterationWellFormed | Docs/Lightning_script_final_2.py:184-234 | one iteration keeps the bolt well formed: fathers come first, all segments at rest, the root never shown, other segments shown once with frames that never decrease and come after their non-root father's, and no reached attractor left |
| Growth.IterationGood | Docs/Lightning_script_final_2.py:184-234 | an iteration counts itself, keeps the bolt well formed, keeps every existing segment and only drops attractors |
| Growth.RunStops | Docs/Lightning_script_final_2.py:182-184 | the loop runs at most `fuel` iterations, stops only when no attractor is left or the fuel is spent, and leaves the bolt well formed |
| Growth.RunKeepsOld | Docs/Lightning_script_final_2.py:183-234 | the loop never changes a segment once it exists and only ever removes attractors |
| Growth.GrowthWellFormed | Docs/Lightning_script_final_2.py:182-234 | from a well-formed state, the growth loop leaves a well-formed bolt. It runs at most `fuel` iterations and stops early only when no attractor is left. It keeps every segment that existed and only drops attractors |
| Growth.UnshowFrames | Docs/Lightning_script_final_2.py:237-240 | after the `unshowMesh` loop the root is unchanged and every other frame has moved on by `minIterations`; `endFrame` is defined exactly when at least one segment grew, and it is then the latest non-root frame |
| Lightning.ClosestSegment | Docs/Lightning_script_final_2.py:188-201 | the inner loop, with its `record`, `closestSegm` and `break` on capture, computes exactly the scan outcome `Choose` |
| Lightning.Bolt.constructor | Docs/Lightning_script_final_2.py:143-166 | `newAttrNumber` unreached attractors at the drawn positions, in drawing order, and one root at (0, height+40, 0) pointing along (0, -1, 0) with no father; the bolt is well formed at iteration 0 |
| Lightning.Bolt.AttractionPass | Docs/Lightning_script_final_2.py:186-206 | the in-place pass leaves the segment list equal to `Attracted` and the attractor list equal to `MarkAll` of the lists it started from |
| Lightning.Bolt.RemovalPass | Docs/Lightning_script_final_2.py:209-214 | the backwards removal leaves exactly `Unreached` of the old attractor list and the segments untouched |
| Lightning.Bolt.EmitPass | Docs/Lightning_script_final_2.py:219-229 | the backwards walk with in-place average, jitter, normalise, append and reset leaves exactly `Emitted` of the old segment list |
| Lightning.Bolt.ShowPass | Docs/Lightning_script_final_2.py:233-234 | the segment list becomes `ShowAll` of the old one |
| Lightning.Bolt.UnshowPass | Docs/Lightning_script_final_2.py:237-240 | the segment list becomes `UnshowAll` of the old one, and `endFrame` is what the last `unshowMesh` returned |
| Lightning.Bolt.AttractAndRemove | Docs/Lightning_script_final_2.py:186-214 | the attraction pass followed by the removal pass leaves `Attracted` of the old lists as segments and `Unreached` of `MarkAll` as attractors |
| Lightning.Bolt.EmitAndShow | Docs/Lightning_script_final_2.py:219-234 | the emit pass followed by the `showMesh` loop leaves `ShowAll` of `Emitted` of the old segments and the attractors untouched |
| Lightning.Bolt.GrowthIteration | Docs/Lightning_script_final_2.py:184-234 | one loop body takes the bolt to `Iteration` of its state |
| Lightning.Bolt.GrowthLoop | Docs/Lightning_script_final_2.py:182-234 | the `while` loop leaves the bolt in the state `Run` describes; it stops only when no attractor is left or the fuel is spent; with no attractor it runs no iteration |
| Lightning.Bolt.Grow | Docs/Lightning_script_final_2.py:182-240 | `iterations`, the attractor list, the segments after `unshowMesh` with `minIterations = iterations + 20`, and `endFrame` are those of `Run` from the bolt's state at iteration 0; with no attractor the loop body never runs |

## Left out

- Scene output is not modelled. This covers every `maya.cmds` call: cylinders, renaming, moving and keyframes in `showMesh`/`unshowMesh`, the grouping, rotation, scaling and playback after the loop, and rendering.
- `setMaterial` is not modelled: its colour and glow arithmetic only feeds foreign calls. The graphical interface (`createUI`, `actionProc`, `cancelProc`) is not part of this model either.
- Floating-point `MVector`/`MPoint` arithmetic is not modelled: vectors are triples of reals. `distanceTo` is replaced by squared distances, and `normalize` is the parameter `norm`, so no unit-length property is claimed.
- `random.uniform` is not modelled: its draws are parameters. The jitter's range of [-0.5, 0.5] is not needed by any proof and is not stated.
- Segments and attractors are held by value in the two lists, and a father is the index of its parent. No aliasing is modelled.
- `attrList.remove(x)` removes by identity. Each attractor object is appended once, so it is modelled as removal at the current index.
- The thickness multiplier of the cylinder radius is not modelled; it only feeds the scene. `Segments.Radius` models the radius factor that `showMesh` computes.
- Lightning.Bolt.Grow: it stops after `fuel` iterations even when attractors remain, because the original loop need not terminate. An attractor never within `maxDist` of any segment is never removed.
- Growth.Run: it is bounded by `fuel` for the same reason, so "the loop exits only when the list is empty" is proved as "empty, or the fuel is spent".
- The playback call after the loop (line 255) is not modelled. When no segment grows, `endFrame` is `None`, and `endFrame + 15` would then fail in Python. This happens when `newAttrNumber` is 0, or when the first iteration captures every attractor before any segment is pulled. `Growth.UnshowFrames` proves that `endFrame` is `None` exactly when no segment grew. What the program should do in that case is not modelled.
