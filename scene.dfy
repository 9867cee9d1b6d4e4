/**
 * The `Scene` of ts_framework/scene.ts, reduced to its existence flags, its
 * list of draggable objects and its event protocol: the handlers of the drag
 * controls (`dragstart`, `drag`, `dragend`), the listeners that recompute
 * registered curves on every `drag`, and the `dragging-changed` handler of
 * the transform controls. A thrown error is a `Fail` outcome.
 */
module Scene {
  import opened Three
  import opened Wrappers
  import opened Highlight
  import opened BezierEval
  import TsControlPoint
  import TsBezier

  type ControlPoint = TsControlPoint.ControlPoint
  type BezierCurve = TsBezier.BezierCurve

  /** Why a scene operation throws. */
  datatype SceneError =
    | NoMainCamera   // a control was requested before any camera exists
    | NoDragControl  // a curve was registered before the drag controls exist

  /** A `drag` listener of the current drag controls, in registration order. */
  datatype DragListener =
    | PinHeight                      // the handler installed by `addDragControls`
    | RecomputeCurve(curve: BezierCurve)  // the handler installed by `addComplexObject`

  /** Whether a curve's polyline reflects its current control-point positions. */
  ghost predicate UpToDate(c: BezierCurve)
    reads c, c.controlPoints
  {
    c.samples == Sampling(Curve(c.Positions()), SampleDivisions)
  }

  class Scene {
    var hasMainCamera: bool
    var hasDragControl: bool
    var hasTransformControl: bool
    /** `cameraOrbitControl.enabled`; false while there is no orbit control. */
    var orbitEnabled: bool
    var dragControlObjects: seq<ControlPoint>
    var dragListeners: seq<DragListener>

    /**
     * Controls exist only once a camera does; the drag listeners exist exactly
     * when the drag controls do, and the height pin is registered first.
     */
    ghost predicate Valid()
      reads this
    {
      && (hasDragControl ==> hasMainCamera)
      && (hasTransformControl ==> hasMainCamera)
      && (hasDragControl <==> dragListeners != [])
      && (dragListeners != [] ==> dragListeners[0] == PinHeight)
      && (forall i :: 1 <= i < |dragListeners| ==> dragListeners[i].RecomputeCurve?)
    }

    /** The curves recomputed on every `drag`. */
    function Curves(): set<BezierCurve>
      reads this
    {
      set i | 0 <= i < |dragListeners| && dragListeners[i].RecomputeCurve? :: dragListeners[i].curve
    }

    /** `new Scene(container)`: no camera, no controls, nothing to drag. */
    constructor ()
      ensures Valid()
      ensures !hasMainCamera && !hasDragControl && !hasTransformControl && !orbitEnabled
      ensures dragControlObjects == [] && dragListeners == []
    {
      hasMainCamera := false;
      hasDragControl := false;
      hasTransformControl := false;
      orbitEnabled := false;
      dragControlObjects := [];
      dragListeners := [];
    }

    /** `addOrthographicMainCamera()`: the camera exists and a new orbit control is enabled. */
    method AddOrthographicMainCamera()
      requires Valid()
      modifies this`hasMainCamera, this`orbitEnabled
      ensures Valid()
      ensures hasMainCamera && orbitEnabled
    {
      hasMainCamera := true;
      orbitEnabled := true;
    }

    /** `addPerspectiveMainCamera()`: the camera exists and a new orbit control is enabled. */
    method AddPerspectiveMainCamera()
      requires Valid()
      modifies this`hasMainCamera, this`orbitEnabled
      ensures Valid()
      ensures hasMainCamera && orbitEnabled
    {
      hasMainCamera := true;
      orbitEnabled := true;
    }

    /**
     * `addDragControls()`: without a camera it throws and nothing changes;
     * otherwise new drag controls carry the single height-pin `drag` listener.
     */
    method AddDragControls() returns (result: Outcome<SceneError>)
      requires Valid()
      modifies this`hasDragControl, this`dragListeners
      ensures Valid()
      ensures result == Fail(NoMainCamera) <==> !hasMainCamera
      ensures !hasMainCamera ==> hasDragControl == old(hasDragControl) && dragListeners == old(dragListeners)
      ensures hasMainCamera ==> result == Pass && hasDragControl && dragListeners == [PinHeight]
    {
      if !hasMainCamera {
        return Fail(NoMainCamera);
      }
      hasDragControl := true;
      dragListeners := [PinHeight];
      return Pass;
    }

    /** `addTransformControls()`: without a camera it throws and nothing changes. */
    method AddTransformControls() returns (result: Outcome<SceneError>)
      requires Valid()
      modifies this`hasTransformControl
      ensures Valid()
      ensures result == Fail(NoMainCamera) <==> !hasMainCamera
      ensures !hasMainCamera ==> hasTransformControl == old(hasTransformControl)
      ensures hasMainCamera ==> result == Pass && hasTransformControl
    {
      if !hasMainCamera {
        return Fail(NoMainCamera);
      }
      hasTransformControl := true;
      return Pass;
    }

    /** The `dragging-changed` handler: the orbit control flips, so two events restore it. */
    method DraggingChanged()
      requires Valid() && hasTransformControl
      modifies this`orbitEnabled
      ensures Valid()
      ensures orbitEnabled == !old(orbitEnabled)
    {
      orbitEnabled := !orbitEnabled;
    }

    /**
     * `addComplexObject(curve)`: the curve's control points join the draggable
     * objects, in order and after the earlier ones; then a recompute listener
     * is registered, which throws when there are no drag controls yet.
     */
    method AddComplexObject(curve: BezierCurve) returns (result: Outcome<SceneError>)
      requires Valid()
      modifies this`dragControlObjects, this`dragListeners
      ensures Valid()
      ensures dragControlObjects == old(dragControlObjects) + curve.controlPoints
      ensures result == Fail(NoDragControl) <==> !hasDragControl
      ensures !hasDragControl ==> dragListeners == old(dragListeners)
      ensures hasDragControl ==> result == Pass && dragListeners == old(dragListeners) + [RecomputeCurve(curve)]
      ensures Curves() == old(Curves()) + (if hasDragControl then {curve} else {})
    {
      var controlPoints := curve.controlPoints;
      for i := 0 to |controlPoints|
        invariant dragControlObjects == old(dragControlObjects) + controlPoints[..i]
        invariant dragListeners == old(dragListeners)
      {
        dragControlObjects := dragControlObjects + [controlPoints[i]];
      }
      assert controlPoints[..|controlPoints|] == controlPoints;
      if !hasDragControl {
        return Fail(NoDragControl);
      }
      dragListeners := dragListeners + [RecomputeCurve(curve)];
      assert dragListeners[|dragListeners| - 1] == RecomputeCurve(curve);
      assert forall j :: 0 <= j < |old(dragListeners)| ==> dragListeners[j] == old(dragListeners)[j];
      return Pass;
    }

    /**
     * `addTestBezierCurve()`: a fresh curve of 16 control points on the default
     * line, registered as `addComplexObject` registers one.
     */
    method AddTestBezierCurve() returns (bezier: BezierCurve, result: Outcome<SceneError>)
      requires Valid()
      modifies this`dragControlObjects, this`dragListeners
      ensures Valid()
      ensures fresh(bezier) && |bezier.controlPoints| == 16 && UpToDate(bezier)
      ensures forall i :: 0 <= i < 16 ==> fresh(bezier.controlPoints[i]) && fresh(bezier.controlPoints[i].material)
      ensures bezier.Positions() == seq(16, InitialPosition)
      ensures dragControlObjects == old(dragControlObjects) + bezier.controlPoints
      ensures result == Fail(NoDragControl) <==> !hasDragControl
      ensures !hasDragControl ==> dragListeners == old(dragListeners)
      ensures hasDragControl ==> result == Pass && dragListeners == old(dragListeners) + [RecomputeCurve(bezier)]
      ensures Curves() == old(Curves()) + (if hasDragControl then {bezier} else {})
    {
      bezier := new TsBezier.BezierCurve(16);
      result := AddComplexObject(bezier);
    }

    /** The `dragstart` handler: the dragged object is highlighted and orbiting stops. */
    method DragStart(obj: ControlPoint)
      requires Valid() && hasDragControl && obj in dragControlObjects
      modifies obj.material, this`orbitEnabled
      ensures LookOf(obj.material) == Highlighted && !orbitEnabled
    {
      obj.EnableHighlight();
      orbitEnabled := false;
    }

    /** The `dragend` handler: the highlight goes and orbiting resumes. */
    method DragEnd(obj: ControlPoint)
      requires Valid() && hasDragControl && obj in dragControlObjects
      modifies obj.material, this`orbitEnabled
      ensures LookOf(obj.material) == Normal && orbitEnabled
    {
      obj.DisableHighlight();
      orbitEnabled := true;
    }

    /**
     * One `drag` event: the drag controls move `obj` to `target`, then every
     * listener runs in registration order. The height pin comes first, so a
     * 2D object ends on the plane `y = 0` with `x` and `z` kept, and every
     * registered curve is resampled from the pinned position.
     * `is2D` is the object's `is2DObject` property as the handler reads it.
     */
    method Drag(obj: ControlPoint, target: Vector3, is2D: bool)
      requires Valid() && hasDragControl && obj in dragControlObjects
      modifies obj, Curves()
      ensures obj.position == if is2D then target.(y := 0.0) else target
      ensures forall c :: c in Curves() ==> UpToDate(c)
    {
      obj.position := target;
      var listeners := dragListeners;
      var i := 0;
      while i < |listeners|
        invariant 0 <= i <= |listeners|
        invariant obj.position == if is2D && i > 0 then target.(y := 0.0) else target
        invariant forall j :: 0 <= j < i && listeners[j].RecomputeCurve? ==> UpToDate(listeners[j].curve)
        modifies obj, Curves()
      {
        match listeners[i] {
          case PinHeight =>
            if is2D {
              obj.position := obj.position.(y := 0.0);
            }
          case RecomputeCurve(curve) =>
            curve.UpdateCurveObject();
        }
        i := i + 1;
      }
    }
  }
}
