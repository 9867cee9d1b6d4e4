# Bézier curves, control points and the drag protocol of 3dGraphicsApplets

This project models the core of a small three.js teaching framework. The
framework draws a Bézier curve through draggable control points and keeps the
curve up to date while the points are dragged. The model covers:

- **The math layer** (`Maths`, framework/math.js). The binomial coefficient is
  computed by the source's multiplicative loop and proved equal to Pascal's
  recursive definition. The Bernstein weight `C(n,k)(1-t)^(n-k)t^k` is proved
  to satisfy the endpoint, symmetry, recurrence, partition-of-unity and
  mean-index laws.
- **The curve evaluator** (`BezierEval`). This is the `getPoint` loop shared by
  `BezierCurve` (framework/curves/bezier.js) and `CustomBezierCurve`
  (ts_framework/curves/bezier.ts). It is proved against a pure definition of
  the curve point, together with the library's `getPoints(10)` sampling. The
  lemmas cover endpoint interpolation, linear interpolation for two points,
  axis independence, translation, reversal, the straight default layout and a
  cubic example.
- **The three control-point variants** (`FrameworkControlPoint`,
  `TsControlPoint`, `DraggableControlPoint`). Each is a class whose highlight
  methods assign the three fields of its material. `Highlight` states once the
  laws of any sequence of highlight calls.
- **The two curve objects** (`FrameworkBezier.BezierCurve2DObject`,
  `TsBezier.BezierCurve`). Both are classes holding their control points and
  the sampled polyline (`samples`, the geometry buffer).
- **The scene** (`Scene.Scene`, ts_framework/scene.ts). It keeps existence
  flags, the list of draggable objects and the `drag` listeners in
  registration order. Its handlers are methods: `dragstart`, `drag`, `dragend`
  and `dragging-changed`.

A thrown `Error` is a `Fail` outcome and a NaN result is `None` (`Wrappers`).
three.js vectors are values (`Three.Vector3`), and a material is a class with
the fields the core writes.

## Model

| member | source | states |
|---|---|---|
| Maths.BinomialCoefficient | framework/math.js:1-26 | NaN argument ⇔ NaN result. Otherwise the result is `C(n,k)` as Pascal's rule defines it, through every branch: out of range, the edge shortcuts, and the rounded product loop. The loop invariant keeps the partial product equal to `C(n, i-1)`. |
| Maths.ChooseCases | framework/math.js:8-18 | What each early branch returns is the true coefficient: 0 outside `0..n`, 1 at `k = 0` and `k = n`, `n` at `k = 1` and `k = n-1`. Also `C(n,k) == C(n,n-k)`. |
| Maths.Pascal | framework/math.js:20-23 | Pascal's rule holds for every `k` once `n ≥ 1`. |
| Maths.ChooseSymmetric | framework/math.js:20-25 | `C(n,k) == C(n,n-k)`. |
| Maths.ChooseNearEdges | framework/math.js:16-18 | `C(n,1) == n == C(n,n-1)`, which justifies the shortcut branch. |
| Maths.ChooseAbsorb | framework/math.js:20-23 | `k·C(n,k) == n·C(n-1,k-1)`. |
| Maths.ChooseStep | framework/math.js:21-22 | One loop step is exact: `i·C(n,i) == (n-i+1)·C(n,i-1)`. |
| Maths.DivideStep | framework/math.js:21-22 | Over the reals, multiplying `C(n,i-1)` by `(n-i+1)/i` gives exactly `C(n,i)`. |
| Maths.Bernstein | framework/math.js:28-31 | `bersnstein(n, k, t)`: the weight `C(n,k)·(1-t)^(n-k)·t^k`, 0 for `k` outside `0..n`, with `t` not clamped. It is specified by the lemmas in the following rows, from BernsteinNonNegative to MeanIndex. |
| Maths.BernsteinNonNegative | framework/math.js:28-31 | For `0 ≤ t ≤ 1` no weight is negative. |
| Maths.BernsteinAtZero | framework/math.js:29 | At `t = 0` the weight is 1 when `k = 0` and 0 otherwise. |
| Maths.BernsteinAtOne | framework/math.js:29 | At `t = 1` the weight is 1 when `k = n` and 0 otherwise. |
| Maths.BernsteinSymmetric | framework/math.js:29 | `B(n,k,t) == B(n,n-k,1-t)`. |
| Maths.CoefficientPascal | framework/math.js:29 | Pascal's rule for the real coefficient, `0 < k < n`. |
| Maths.BernsteinPascal | framework/math.js:29 | Pascal's rule splits a weight into two terms sharing its powers. |
| Maths.ScaledLowerSame | framework/math.js:29 | `(1-t)·B(n-1,k,t)` is the first of those terms. |
| Maths.ScaledLowerPrev | framework/math.js:29 | `t·B(n-1,k-1,t)` is the second of those terms. |
| Maths.BernsteinRecurrenceInner | framework/math.js:29-30 | The recurrence of the commented line, for `0 < k < n`. |
| Maths.BernsteinRecurrence | framework/math.js:29-30 | `B(n,k,t) == (1-t)·B(n-1,k,t) + t·B(n-1,k-1,t)` for every `k` and every real `t`. |
| Maths.Weights | framework/math.js:28-30 | The basis of degree `n` has `n+1` weights. |
| Maths.SumPrependZero | framework/math.js:29 | A leading zero weight adds nothing to a sum. |
| Maths.CombinationOfPrefixes | framework/math.js:29-30 | A prefix of an element-wise blend is the blend of the prefixes. |
| Maths.SumOfCombinedSeqs | framework/math.js:29-30 | Summing an element-wise blend `u·p[k] + t·q[k]` blends the sums. |
| Maths.LowerWeightsAtSameIndex | framework/math.js:29 | The lower-degree weights padded to `n+1` entries. |
| Maths.LowerWeightsAtSameIndexSum | framework/math.js:29 | The padding adds nothing to the sum. |
| Maths.LowerWeightsAtPreviousIndex | framework/math.js:29 | The lower-degree weights shifted by one index. |
| Maths.LowerWeightsAtPreviousIndexSum | framework/math.js:29 | The shift adds nothing to the sum. |
| Maths.BernsteinRecurrenceCombined | framework/math.js:29-30 | The recurrence, as a blend with factors `1-t` and `t`. |
| Maths.WeightsAreBlends | framework/math.js:29-30 | Every weight of degree `n` is the `(1-t)`/`t` blend of the padded and the shifted lower weights. |
| Maths.WeightsSumRecurrence | framework/math.js:29-30 | The total weight of degree `n` blends the total of degree `n-1` with itself. |
| Maths.PartitionOfUnity | framework/math.js:28-30 | The weights of any degree sum to exactly 1, for every real `t`. |
| Maths.IndexTimesBernsteinInner | framework/math.js:29 | `k·B(n,k,t) == n·t·B(n-1,k-1,t)` for `1 ≤ k ≤ n`. |
| Maths.IndexTimesBernstein | framework/math.js:29 | The same identity for every `k`. |
| Maths.ChooseAbsorbReal | framework/math.js:29 | `k·C(n,k) == n·C(n-1,k-1)` for the real coefficient, `1 ≤ k ≤ n`. |
| Maths.UpperAbsorbed | framework/math.js:29 | `k·B(n,k,t)` with the coefficient absorbed. |
| Maths.LowerScaled | framework/math.js:29 | `n·t·B(n-1,k-1,t)` takes the same form. |
| Maths.IndexTimesBernsteinCombined | framework/math.js:29 | The same identity, as a blend with factors `0` and `n·t`. |
| Maths.IndexWeightsAreShiftedWeights | framework/math.js:29 | The index-weighted basis is `n·t` times the shifted lower weights. |
| Maths.MeanIndex | framework/math.js:28-30 | `Σ k·B(n,k,t) == n·t` for every real `t`. |
| BezierEval.Coords | framework/curves/bezier.js:71-81 | One axis of the positions, with one entry per position. |
| BezierEval.CurveWeights | framework/curves/bezier.js:72-75 | The evaluator uses the basis of degree `count-1`, one weight per position. |
| BezierEval.Sampling | framework/curves/bezier.js:46-48 | `getPoints(divisions)` yields `divisions+1` evaluations. |
| BezierEval.DotPrefixStep | framework/curves/bezier.js:72-80 | One more index adds one weighted term. |
| BezierEval.AccumulateStep | framework/curves/bezier.js:76-79 | One iteration adds its weighted component to each accumulator. |
| BezierEval.GetPoint | framework/curves/bezier.js:69-82 | The accumulated `(tx, ty, tz)` is exactly `Σ B(count-1,k,t)·P_k`, axis by axis. The TypeScript curve's `getPoint` (ts_framework/curves/bezier.ts, lines 48-61) is the same loop and is modelled by the same member. |
| BezierEval.GetPoints | framework/curves/bezier.js:47 | `getPoints(d)` returns the curve at `j/d` for `j = 0..d`, in order. |
| BezierEval.DotPicksFirst | framework/curves/bezier.js:69-82 | Weights 1 then zeros select the first value. |
| BezierEval.DotOfZeroWeights | framework/curves/bezier.js:69-82 | All-zero weights give 0. |
| BezierEval.DotPicksLast | framework/curves/bezier.js:69-82 | Zeros then a final 1 select the last value. |
| BezierEval.DotOfShifted | framework/curves/bezier.js:69-82 | Shifting every value by `d` adds `d` times the total weight. |
| BezierEval.DotFromFront | framework/curves/bezier.js:69-82 | The sum peeled from the front. |
| BezierEval.DotOfReversed | framework/curves/bezier.js:69-82 | Reversing the values is reversing the weights. |
| BezierEval.CoordinatesAreIndependent | framework/curves/bezier.js:71-81 | An output coordinate depends only on the same coordinate of the positions. |
| BezierEval.StartsAtFirstPosition | framework/curves/bezier.js:69-82 | `getPoint(0)` is the first position. |
| BezierEval.EndsAtLastPosition | framework/curves/bezier.js:69-82 | `getPoint(1)` is the last position. |
| BezierEval.TwoPositionsInterpolateLinearly | ts_framework/curves/bezier.ts:48-61 | With two positions, `getPoint(t) == (1-t)·P0 + t·P1`. |
| BezierEval.LinearWeights | framework/math.js:28-31 | The linear weights are `1-t` and `t`. |
| BezierEval.TranslationMovesCurve | framework/curves/bezier.js:69-82 | Moving all positions by `v` moves every curve point by `v`, for a non-empty curve. |
| BezierEval.ReversedPositionsReverseCurve | framework/curves/bezier.js:69-82 | Reversed positions trace the curve backwards: `t ↦ 1-t`. |
| BezierEval.SamplingHitsEndPositions | framework/curves/bezier.js:42-49 | The first and last of the 11 samples are the end positions. |
| BezierEval.CubicAtHalf | framework/curves/bezier.js:69-82 | The cubic through (0,0,0), (1,0,2), (2,0,3), (3,0,0) is at (1.5, 0, 1.875) when `t = 0.5`. |
| BezierEval.CubicWeightsAtHalf | framework/math.js:28-30 | The cubic weights at `t = 0.5` are 1/8, 3/8, 3/8 and 1/8. |
| BezierEval.DotOfScaledIndices | framework/curves/bezier.js:19-21 | Values growing by `d` per index give `d` times the index-weighted sum. |
| BezierEval.LayoutAxes | framework/curves/bezier.js:19-21 | Each axis of the default layout, blended by weights whose mean index is `s`. |
| BezierEval.InitialLayoutIsUniform | ts_framework/curves/bezier.ts:18-20 | The default layout `(0.2i, 0, 0.5i)` yields a straight curve traversed at constant speed: the point at `t` is the layout at index `(count-1)·t`. |
| Highlight.LastCallDecides | framework/control_point.js:14-24 | After any sequence of highlight calls the look is fixed by the last call alone. |
| Highlight.CallIsIdempotent | ts_framework/control_point.ts:18-28 | Repeating a highlight call changes nothing further. |
| Highlight.EnableThenDisableIsNormal | framework/control_point/control_point.js:24-34 | Start then end always leaves the point not highlighted, whatever came before. |
| FrameworkControlPoint.ControlPoint.constructor | framework/control_point.js:4-12 | Radius as given, 16 segments, a red unhighlighted material, `is2DObject` defaulting to false. |
| FrameworkControlPoint.ControlPoint.ControlPoint2d | framework/control_point.js:27-30 | Default radius 0.2, and `is2DObject` is true. |
| FrameworkControlPoint.ControlPoint.EnableHighlight | framework/control_point.js:14-18 | `needsUpdate`, `transparent` true and `opacity` 0.5, from any prior state. |
| FrameworkControlPoint.ControlPoint.DisableHighlight | framework/control_point.js:20-24 | `opacity` 1, `transparent` and `needsUpdate` false, from any prior state. |
| FrameworkControlPoint.ControlPoint.Get2dPosition | framework/control_point.js:32-34 | `(position.x, position.z)`, read without writing anything. Putting the point's own `y` back between the two gives the position again. ProjectionForgetsOnlyHeight shows that the projection ignores `y`. |
| FrameworkControlPoint.ProjectionForgetsOnlyHeight | framework/control_point.js:32-34 | `get2dPosition` keeps `(x, z)`: it ignores `y`, and with the old `y` it restores the position. |
| TsControlPoint.ControlPoint.constructor | ts_framework/control_point.ts:8-16 | The given `isZAxisFixed` is stored unchanged, with a red unhighlighted material. |
| TsControlPoint.ControlPoint.ControlPoint2d | ts_framework/control_point.ts:31-35 | Default radius 0.2, and `isZAxisFixed` is true. |
| TsControlPoint.ControlPoint.ControlPoint3d | ts_framework/control_point.ts:37-41 | Default radius 0.2, and `isZAxisFixed` is true as well. |
| TsControlPoint.ControlPoint.EnableHighlight | ts_framework/control_point.ts:18-22 | The highlighted look, from any prior state. |
| TsControlPoint.ControlPoint.DisableHighlight | ts_framework/control_point.ts:24-28 | The normal look, from any prior state. |
| TsControlPoint.Positions | ts_framework/curves/bezier.ts:31-33 | The positions of the control points, one per point, in order. |
| DraggableControlPoint.ControlPoint.constructor | framework/control_point/control_point.js:11-22 | Defaults: radius 0.2, 16 segments, red. The material starts unhighlighted. |
| DraggableControlPoint.ControlPoint.OnDragStart | framework/control_point/control_point.js:24-28 | The highlighted look, from any prior state. |
| DraggableControlPoint.ControlPoint.OnDragEnd | framework/control_point/control_point.js:30-34 | The normal look, from any prior state. |
| FrameworkBezier.PositionsOf | framework/curves/bezier.js:43-45 | The positions of the control points, one per point, in order. |
| FrameworkBezier.NewControlPoints | framework/curves/bezier.js:15-18 | `max(count, 0)` fresh, distinct 2D points of radius 0.2, each with a fresh material. |
| FrameworkBezier.PlaceOnInitialLine | framework/curves/bezier.js:19-21 | Given distinct points, point `k` ends at `(0.2k, 0, 0.5k)`. |
| FrameworkBezier.BezierCurve2DObject.constructor | framework/curves/bezier.js:12-28 | `max(degree, 0)` fresh, distinct 2D points. Point `i` is at `(0.2i, 0, 0.5i)`, and the samples are those of that layout. |
| FrameworkBezier.BezierCurve2DObject.SetCursorPointPositions | framework/curves/bezier.js:30-35 | The call passes exactly when there are no more positions than points, and fails otherwise. The first `min(|positions|, count)` points take the new positions and the rest keep theirs. On success the samples are recomputed; on failure they are left as they were. |
| FrameworkBezier.BezierCurve2DObject.AddControlPoint | framework/curves/bezier.js:37-40 | `degree` grows by 1. One fresh 2D point is appended at the origin. It has radius 0.2 and a fresh material, and earlier points are kept. The argument is ignored and the samples stay stale. |
| FrameworkBezier.BezierCurve2DObject.Update | framework/curves/bezier.js:42-49 | The samples become the 11 evaluations of the current positions. Nothing else changes. |
| TsBezier.BezierCurve.constructor | ts_framework/curves/bezier.ts:11-28 | `max(degree, 0)` fresh, distinct axis-locked points with fresh materials at `(0.2i, 0, 0.5i)`, then one recompute. |
| TsBezier.BezierCurve.UpdateCurveObject | ts_framework/curves/bezier.ts:30-37 | The samples become the 11 evaluations of the current positions, in control-point order. Only the samples change. |
| Scene.Scene.constructor | ts_framework/scene.ts:26-28 | All three flags start false, and nothing is draggable yet. |
| Scene.Scene.AddOrthographicMainCamera | ts_framework/scene.ts:118-135 | `hasMainCamera` becomes true, and the new orbit control is enabled. |
| Scene.Scene.AddPerspectiveMainCamera | ts_framework/scene.ts:137-149 | `hasMainCamera` becomes true, and the new orbit control is enabled. |
| Scene.Scene.AddDragControls | ts_framework/scene.ts:69-94 | Fails exactly when there is no camera, and then nothing changes. Otherwise `hasDragControl` is set and the height pin is the only `drag` listener. |
| Scene.Scene.AddTransformControls | ts_framework/scene.ts:97-104 | Fails exactly when there is no camera, and then nothing changes. Otherwise `hasTransformControl` is set. |
| Scene.Scene.DraggingChanged | ts_framework/scene.ts:106-109 | Each event inverts the orbit flag, so two events restore it. |
| Scene.Scene.AddComplexObject | ts_framework/scene.ts:176-187 | The curve's points are appended in order after the earlier ones. A recompute listener is appended, or the call fails when there are no drag controls. |
| Scene.Scene.AddTestBezierCurve | ts_framework/scene.ts:157-167 | A fresh, up-to-date curve of 16 fresh points (with fresh materials) on the default line. Its points are appended to the draggable objects. It passes and becomes one more recomputed curve exactly when there are drag controls; otherwise it fails and the listeners are unchanged. |
| Scene.Scene.DragStart | ts_framework/scene.ts:78-82 | The dragged object is highlighted and orbiting is off. |
| Scene.Scene.DragEnd | ts_framework/scene.ts:84-87 | The object is no longer highlighted and orbiting is on. |
| Scene.Scene.Drag | ts_framework/scene.ts:89-93 | A 2D object ends at `y = 0` with `x` and `z` as dragged; any other object ends where it was dragged. Because the pin listener runs first, every registered curve is resampled from the pinned position. |

## Left out

- Rendering is not modelled: scene-graph `add` calls, geometry and material construction, `rotateX`, lights, grid and axes helpers, the renderer, the cameras' projection and position, the scene's `animate` and `update`. Only the flags, fields and samples these calls leave behind are modelled.
- Scene.Scene.constructor: the container, the background colour and the window size are browser I/O and are not parameters.
- Scene.Scene.AddOrthographicMainCamera: the camera position argument has no effect on any modelled state, so it is dropped. The same holds for Scene.Scene.AddPerspectiveMainCamera.
- Scene.Scene.AddDragControls: a second call replaces the listener list. The earlier `DragControls` object is still attached in the source and keeps its own listeners; the model does not keep it.
- Scene.Scene.Drag: the handler reads `is2DObject`, which the TypeScript control point does not define (it has `isZAxisFixed`). The flag is therefore a parameter. As written, a TypeScript control point would read it as undefined and never be pinned.
- Scene.Scene.DragStart, Scene.Scene.Drag and Scene.Scene.DragEnd: the `dragstart`, `drag` and `dragend` events are assumed to come from the drag controls, so the object is required to be among the draggable objects.
- Scene.Scene.AddComplexObject: the source registers the listener through `this.dragControl`, which is undefined before `addDragControls`. That is the `Fail(NoDragControl)` path, taken after the points were appended, as in the source. The TypeScript `BezierCurve` has no `getControlPoints`, so the model reads its `controlPoints` field.
- TsBezier.BezierCurve.constructor: the source never initialises `controlPoints`, so the constructor throws for every argument. A positive `degree` throws at the first `push`. Otherwise the `forEach` over the list throws. The model starts from an empty list.
- The scene's `dragControlObjects` is never initialised in the source either. The model starts it empty.
- FrameworkBezier.BezierCurve2DObject.SetCursorPointPositions: the source passes a whole vector to `Vector3.set`, which expects three numbers. The model assigns the position instead. The `TypeError` of a position past the last control point is the `Fail(NoSuchControlPoint)` outcome.
- FrameworkBezier.BezierCurve2DObject.constructor: `degree` is an integer. A fractional count such as 2.5 would run the push loop up to the next integer, and that case is not modelled. The same holds for TsBezier.BezierCurve.constructor.
- Scene.Scene.AddTestBezierCurve: ts_framework/scene.ts calls `new BezierCurve(16)` without importing `BezierCurve`. The model assumes the class of ts_framework/curves/bezier.ts.
- Scene.Scene.AddComplexObject: the source first calls `object.getRenderObject()`, which the TypeScript `BezierCurve` does not define either. As written, `addComplexObject(curve)` would throw before pushing anything. The model leaves the render object out and starts at the push loop.
- DraggableControlPoint.ControlPoint.constructor: framework/control_point/control_point.js imports `DraggableMesh` from framework/interfaces/draggable.js, which exports only `Draggable`, so the module as written does not load. The model takes the class as evidently intended: a circle mesh with the two drag callbacks.
- Three.Material: in three.js, `material.needsUpdate` is a write-only setter whose `true` bumps the material's `version`. The model stores it as a boolean that reads back what was last written.
- FrameworkBezier.BezierCurve2DObject.GetControlPoints returns the field without a contract. `getRenderObject` returns the three.js line object and is not modelled.
- Maths.Bernstein: for `k` outside `0..n` the model's weight is 0. The source multiplies a zero coefficient by `Math.pow` with a negative exponent, which gives NaN at `t = 0` or `t = 1`. The evaluator never uses such `k`.
- Maths.BinomialCoefficient: `n` and `k` are integers or NaN. Non-integer and infinite numbers are not modelled.
- Maths.BinomialCoefficient: the loop is evaluated over exact reals, so rounding never changes the result. Floating-point drift is IEEE-754 behaviour and is not modelled; the same applies to curve coordinates and `t`.
- BezierEval.GetPoint: the source's optional `optionalTarget` vector, into which the result is written in place, is not modelled. The method returns a new value instead. No caller in the modelled core passes a target.
- BezierEval.GetPoints: the library's `getPoints` is modelled as its sampling loop, with at least one division. The source always asks for 10.
- The framework's empty `BezierCurve3DObject` class has no behaviour.
