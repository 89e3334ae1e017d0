/** `Camera` of src/utils/camera.ts: the 3D camera a scene is drawn through,
    set directly to a pattern or eased towards one over two beats. Each
    method is proved to move the object as the matching function of
    CameraTransition moves its state. */
module Camera {
  import opened Wrappers
  import opened CameraTransition

  class Camera {
    /** `cameraPatterns`, built from the parts not modelled here. */
    const patterns: seq<CameraPattern>
    var initZ: real
    var x: real
    var y: real
    var z: real
    var rotX: real
    var rotY: real
    var rotZ: real
    var transitionStartParams: Option<CameraParams>
    var targetCameraIndex: Option<int>
    var transitionStartBeat: real

    /** The object's fields as a value. */
    function State(): CameraState
      reads this
    {
      CameraState(initZ, CameraParams(x, y, z, rotX, rotY, rotZ), transitionStartParams, targetCameraIndex,
                  transitionStartBeat)
    }

    ghost predicate Valid()
      reads this
    {
      |patterns| == 6
    }

    /** `new Camera(p)`: `initZ` is `(p.height / 2) / tan(30 degrees)`, passed in. */
    constructor (env: PatternEnv, initZ: real)
      ensures Valid() && patterns == CameraPatterns(env) && State() == Initial(initZ)
    {
      patterns := CameraPatterns(env);
      this.initZ := initZ;
      x, y, rotX, rotY, rotZ := 0.0, 0.0, 0.0, 0.0, 0.0;
      transitionStartParams := None;
      targetCameraIndex := Some(0);
      transitionStartBeat := 0.0;
      z := 0.0;
      new;
      z := z - this.initZ;
    }

    /** `setCamera(tex, patternIndex, beat)`; the `drawCamera` call that
        follows is drawing and is not part of this model. A missing pattern
        fails before any field changes. */
    method SetCamera(patternIndex: int, beat: real) returns (outcome: Outcome<CameraError>)
      requires Valid()
      modifies this
      ensures Valid()
      ensures var r := CameraTransition.SetCamera(old(State()), patterns, patternIndex, beat);
        && (r.Failure? ==> outcome == Fail(r.error) && State() == old(State()))
        && (r.Success? ==> outcome == Pass && State() == r.value)
    {
      var index := JsRem(patternIndex, |patterns|);
      var params := ParamsAt(patterns, index, beat);
      if params.None? {
        return Fail(PatternMissing(index));
      }
      SetCameraParameter(params.value);
      outcome := Pass;
    }

    /** `setCameraParameter(params)`. */
    method SetCameraParameter(params: CameraParams)
      modifies this
      ensures State() == CameraTransition.SetCameraParameter(old(State()), params)
    {
      x := params.x;
      y := params.y;
      z := params.z + initZ;
      rotX := params.rotX;
      rotY := params.rotY;
      rotZ := params.rotZ;
    }

    /** `pushCamera(patternIndex, beat)`. */
    method PushCamera(patternIndex: int, beat: real)
      requires Valid()
      modifies this
      ensures State() == CameraTransition.PushCamera(old(State()), patternIndex, beat)
    {
      transitionStartParams := Some(CameraParams(x, y, z - initZ, rotX, rotY, rotZ));
      targetCameraIndex := Some(JsRem(patternIndex, |patterns|));
      transitionStartBeat := beat;
    }

    /** `easeCamera(beat)`; a missing target pattern fails where the source
        throws on reading its parameters. */
    method EaseCamera(beat: real) returns (result: Result<CameraParams, CameraError>)
      modifies this`transitionStartParams
      ensures var e := CameraTransition.EaseCamera(old(State()), patterns, beat);
        result == e.params && State() == e.after
    {
      if targetCameraIndex.None? {
        return Success(CameraParams(0.0, 0.0, 0.0, 0.0, 0.0, 0.0));
      }
      var to := ParamsAt(patterns, targetCameraIndex.value, beat);
      if to.None? {
        return Failure(PatternMissing(targetCameraIndex.value));
      }
      if transitionStartParams.None? {
        return Success(to.value);
      }
      var elapsedBeat := beat - transitionStartBeat;
      var progress := if elapsedBeat / BEAT_PER_TRANSITION <= 1.0 then elapsedBeat / BEAT_PER_TRANSITION else 1.0;
      var from := transitionStartParams.value;
      result := Success(LerpParams(from, to.value, progress));
      if progress >= 1.0 {
        transitionStartParams := None;
      }
    }

    /** `resize(p)`: only the offset changes; the position keeps its old offset. */
    method Resize(newInitZ: real)
      modifies this`initZ
      ensures State() == old(State()).(initZ := newInitZ)
    {
      initZ := newInitZ;
    }
  }
}
