/** The camera of src/utils/camera.ts as a value: its position, the snapshot
    a transition starts from and the pattern it moves towards, with each
    operation as a function on that value. The class in camera.dfy is proved
    to follow these functions. */
module CameraTransition {
  import opened Wrappers
  import MathUtils

  datatype CameraParams = CameraParams(x: real, y: real, z: real, rotX: real, rotY: real, rotZ: real)

  /** A camera pattern: fixed parameters, or parameters that follow the beat. */
  datatype CameraPattern = Fixed(params: CameraParams) | Animated(at: real -> CameraParams)

  /** What the six patterns need that is not part of this model: the value
      of pi, `Math.sin`, and the two patterns built from easing helpers
      (`rotateCameraPattern`, `aboveCameraPattern`). */
  datatype PatternEnv = PatternEnv(pi: real, sin: real -> real,
                                   rotate: real -> CameraParams, above: real -> CameraParams)

  /** `rotateYCameraPattern(beat)`: a slow sway along y, far back on z. */
  function RotateY(env: PatternEnv, beat: real): (p: CameraParams)
    ensures p.(y := 0.0) == CameraParams(0.0, 0.0, -1200.0, 0.0, 0.0, 0.0)
    ensures (forall t :: -1.0 <= env.sin(t) <= 1.0) ==> -100.0 <= p.y <= 100.0
  {
    CameraParams(0.0, env.sin(beat * 0.2) * 100.0, -1200.0, 0.0, 0.0, 0.0)
  }

  /** `cameraPatterns`, in order. */
  function CameraPatterns(env: PatternEnv): (patterns: seq<CameraPattern>)
    ensures |patterns| == 6
  {
    [ Fixed(CameraParams(0.0, 0.0, 350.0, env.pi * 0.5, 0.0, 0.0)),
      Fixed(CameraParams(0.0, -790.0, 0.0, 0.0, 0.0, env.pi * 0.5)),
      Animated(beat => RotateY(env, beat)),
      Fixed(CameraParams(0.0, 0.0, -400.0, env.pi * 0.51, 0.0, 0.0)),
      Animated(env.rotate),
      Animated(env.above) ]
  }

  /** JavaScript's `%` on integers: the remainder takes the sign of the dividend. */
  function JsRem(i: int, n: int): (r: int)
    requires n > 0
    ensures -n < r < n
    ensures i >= 0 ==> r >= 0 && r == i % n
    ensures i < 0 ==> r <= 0
    ensures i == (if i >= 0 then i / n else -((-i) / n)) * n + r
  {
    if i >= 0 then i % n else -((-i) % n)
  }

  /** `cameraPatterns[index]` taken as parameters at `beat`; an index
      outside the list gives no parameters (reading them throws). */
  function ParamsAt(patterns: seq<CameraPattern>, index: int, beat: real): (r: Option<CameraParams>)
    ensures r.Some? <==> 0 <= index < |patterns|
    ensures 0 <= index < |patterns| && patterns[index].Fixed? ==> r == Some(patterns[index].params)
    ensures 0 <= index < |patterns| && patterns[index].Animated? ==> r == Some(patterns[index].at(beat))
  {
    if 0 <= index < |patterns| then
      match patterns[index]
      case Fixed(p) => Some(p)
      case Animated(at) => Some(at(beat))
    else None
  }

  /** `setCamera` or `easeCamera` reached a pattern that does not exist:
      a negative pattern index leaves a negative remainder. */
  datatype CameraError = PatternMissing(index: int)

  /** The fields of a `Camera`. `pos` holds `x, y, z, rotX, rotY, rotZ`, with
      `z` already offset by `initZ`. */
  datatype CameraState = CameraState(
    initZ: real,
    pos: CameraParams,
    transitionStartParams: Option<CameraParams>,
    targetCameraIndex: Option<int>,
    transitionStartBeat: real)

  /** Two beats per transition. */
  const BEAT_PER_TRANSITION: real := 2.0

  /** `new Camera(p)`, with `initZ` the distance that fits the canvas height
      into a 60-degree field of view. */
  function Initial(initZ: real): (s: CameraState)
    ensures s.initZ == initZ && s.pos.z == -initZ
    ensures s.pos.(z := 0.0) == CameraParams(0.0, 0.0, 0.0, 0.0, 0.0, 0.0)
    ensures s.targetCameraIndex == Some(0) && s.transitionStartParams.None? && s.transitionStartBeat == 0.0
  {
    CameraState(initZ, CameraParams(0.0, 0.0, -initZ, 0.0, 0.0, 0.0), None, Some(0), 0.0)
  }

  /** `setCameraParameter(params)`. */
  function SetCameraParameter(s: CameraState, params: CameraParams): (r: CameraState)
    ensures r.pos.z == params.z + s.initZ
    ensures r.pos.(z := params.z) == params
    ensures r.(pos := s.pos) == s
  {
    s.(pos := params.(z := params.z + s.initZ))
  }

  /** `setCamera(tex, patternIndex, beat)`, without the drawing. */
  function SetCamera(s: CameraState, patterns: seq<CameraPattern>, patternIndex: int, beat: real)
    : (r: Result<CameraState, CameraError>)
    requires |patterns| == 6
    ensures r.Success? <==> JsRem(patternIndex, 6) >= 0
    ensures r.Failure? ==> r.error == PatternMissing(JsRem(patternIndex, 6))
    ensures r.Success? ==>
      && Snapshot(r.value) == ParamsAt(patterns, JsRem(patternIndex, 6), beat).value
      && r.value.(pos := s.pos) == s
  {
    var index := JsRem(patternIndex, |patterns|);
    match ParamsAt(patterns, index, beat)
    case None => Failure(PatternMissing(index))
    case Some(params) => Success(SetCameraParameter(s, params))
  }

  /** The current position as parameters, without the `initZ` offset. */
  function Snapshot(s: CameraState): CameraParams {
    s.pos.(z := s.pos.z - s.initZ)
  }

  /** `pushCamera(patternIndex, beat)`. */
  function PushCamera(s: CameraState, patternIndex: int, beat: real): (r: CameraState)
    ensures r.pos == s.pos && r.initZ == s.initZ
  {
    s.(transitionStartParams := Some(Snapshot(s)),
       targetCameraIndex := Some(JsRem(patternIndex, 6)),
       transitionStartBeat := beat)
  }

  /** `Math.min(elapsedBeat / beatPerTransition, 1.0)`. */
  function Progress(beat: real, startBeat: real): (progress: real)
    ensures progress <= 1.0
    ensures progress == 1.0 <==> beat - startBeat >= BEAT_PER_TRANSITION
    ensures beat <= startBeat ==> progress <= 0.0
  {
    MathUtils.Min((beat - startBeat) / BEAT_PER_TRANSITION, 1.0)
  }

  /** Component-wise `lerp`. */
  function LerpParams(from: CameraParams, to: CameraParams, t: real): CameraParams {
    CameraParams(MathUtils.Lerp(from.x, to.x, t), MathUtils.Lerp(from.y, to.y, t), MathUtils.Lerp(from.z, to.z, t),
                 MathUtils.Lerp(from.rotX, to.rotX, t), MathUtils.Lerp(from.rotY, to.rotY, t),
                 MathUtils.Lerp(from.rotZ, to.rotZ, t))
  }

  /** What `easeCamera(beat)` returns, and the camera it leaves. */
  datatype Eased = Eased(params: Result<CameraParams, CameraError>, after: CameraState)

  /** `easeCamera(beat)`. */
  function EaseCamera(s: CameraState, patterns: seq<CameraPattern>, beat: real): (e: Eased)
    ensures e.after.(transitionStartParams := s.transitionStartParams) == s
    ensures e.after.transitionStartParams == s.transitionStartParams || e.after.transitionStartParams.None?
    ensures s.targetCameraIndex.None? ==> e == Eased(Success(CameraParams(0.0, 0.0, 0.0, 0.0, 0.0, 0.0)), s)
    ensures e.params.Failure? <==>
      s.targetCameraIndex.Some? && ParamsAt(patterns, s.targetCameraIndex.value, beat).None?
    ensures e.params.Failure? ==> e.params.error == PatternMissing(s.targetCameraIndex.value) && e.after == s
  {
    match s.targetCameraIndex
    case None => Eased(Success(CameraParams(0.0, 0.0, 0.0, 0.0, 0.0, 0.0)), s)
    case Some(target) =>
      match ParamsAt(patterns, target, beat)
      case None => Eased(Failure(PatternMissing(target)), s)
      case Some(to) =>
        match s.transitionStartParams
        case None => Eased(Success(to), s)
        case Some(from) =>
          var progress := Progress(beat, s.transitionStartBeat);
          Eased(Success(LerpParams(from, to, progress)),
                if progress >= 1.0 then s.(transitionStartParams := None) else s)
  }

  // ---- Properties ----

  /** There are six patterns; an index selects pattern `index % 6`, which
      exists exactly when the index is not negative. */
  lemma PatternIndexWraps(env: PatternEnv, patternIndex: int, beat: real)
    ensures var index := JsRem(patternIndex, 6);
      && (patternIndex >= 0 ==>
            index == patternIndex % 6 && ParamsAt(CameraPatterns(env), index, beat).Some?)
      && ((exists k :: patternIndex == -6 * k) ==> index == 0)
      && (ParamsAt(CameraPatterns(env), index, beat).None? <==> index < 0)
  {
    if exists k :: patternIndex == -6 * k {
      var k :| patternIndex == -6 * k;
      if patternIndex < 0 {
        assert -patternIndex == 6 * k;
        assert (6 * k) % 6 == 0;
      }
    }
  }

  /** `setCamera` moves the camera to pattern `patternIndex % 6` at `beat`:
      the position read back without the offset is that pattern's parameters.
      A negative index that is not a multiple of 6 reaches no pattern and
      changes nothing. */
  lemma SetCameraSelectsPattern(s: CameraState, env: PatternEnv, patternIndex: int, beat: real)
    ensures var r := SetCamera(s, CameraPatterns(env), patternIndex, beat);
      var index := JsRem(patternIndex, 6);
      && (r.Success? <==> index >= 0)
      && (r.Success? ==>
            Snapshot(r.value) == ParamsAt(CameraPatterns(env), index, beat).value
            && r.value.transitionStartParams == s.transitionStartParams
            && r.value.targetCameraIndex == s.targetCameraIndex)
      && (patternIndex >= 0 ==> r.Success?)
  {
  }

  /** A new camera already targets pattern 0 without a transition, so
      `easeCamera` returns pattern 0 rather than the all-zero fallback. */
  lemma InitialEasesToFirstPattern(initZ: real, env: PatternEnv, beat: real)
    ensures EaseCamera(Initial(initZ), CameraPatterns(env), beat)
         == Eased(Success(CameraParams(0.0, 0.0, 350.0, env.pi * 0.5, 0.0, 0.0)), Initial(initZ))
  {
  }

  /** `setCameraParameter(p)` and then `pushCamera` snapshot exactly `p`,
      because the snapshot takes the `initZ` offset back off. */
  lemma PushAfterSetSnapshotsParams(s: CameraState, params: CameraParams, patternIndex: int, beat: real)
    ensures var r := PushCamera(SetCameraParameter(s, params), patternIndex, beat);
      && r.transitionStartParams == Some(params)
      && r.targetCameraIndex == Some(JsRem(patternIndex, 6))
      && r.transitionStartBeat == beat
  {
  }

  /** Without a transition, `easeCamera` returns the target pattern itself
      and changes nothing. */
  lemma EaseWithoutSnapshotIsTarget(s: CameraState, patterns: seq<CameraPattern>, beat: real)
    requires s.transitionStartParams.None? && s.targetCameraIndex.Some?
    ensures var e := EaseCamera(s, patterns, beat);
      && e.after == s
      && (match ParamsAt(patterns, s.targetCameraIndex.value, beat)
          case Some(to) => e.params == Success(to)
          case None => e.params == Failure(PatternMissing(s.targetCameraIndex.value)))
  {
  }

  /** Two beats after the start the transition has arrived: the result is
      the target, and the snapshot is cleared, so every later call returns
      the target directly. */
  lemma EaseCompletesAfterTwoBeats(s: CameraState, patterns: seq<CameraPattern>, beat: real, later: real)
    requires s.transitionStartParams.Some? && s.targetCameraIndex.Some?
    requires ParamsAt(patterns, s.targetCameraIndex.value, beat).Some?
    requires beat - s.transitionStartBeat >= BEAT_PER_TRANSITION
    ensures var e := EaseCamera(s, patterns, beat);
      && e.params == Success(ParamsAt(patterns, s.targetCameraIndex.value, beat).value)
      && e.after.transitionStartParams.None?
      && ParamsAt(patterns, s.targetCameraIndex.value, later).Some?
      && EaseCamera(e.after, patterns, later)
           == Eased(Success(ParamsAt(patterns, s.targetCameraIndex.value, later).value), e.after)
  {
  }

  /** Up to and including the start beat the result is the snapshot, since
      the progress is clamped at 0, and the transition stays open. */
  lemma EaseAtStartIsSnapshot(s: CameraState, patterns: seq<CameraPattern>, beat: real)
    requires s.transitionStartParams.Some? && s.targetCameraIndex.Some?
    requires ParamsAt(patterns, s.targetCameraIndex.value, beat).Some?
    requires beat <= s.transitionStartBeat
    ensures var e := EaseCamera(s, patterns, beat);
      e.params == Success(s.transitionStartParams.value) && e.after == s
  {
  }

  /** During a transition every coordinate lies between its start and target values. */
  lemma EaseStaysBetween(s: CameraState, patterns: seq<CameraPattern>, beat: real)
    requires s.transitionStartParams.Some? && s.targetCameraIndex.Some?
    requires ParamsAt(patterns, s.targetCameraIndex.value, beat).Some?
    ensures var e := EaseCamera(s, patterns, beat);
      var from := s.transitionStartParams.value;
      var to := ParamsAt(patterns, s.targetCameraIndex.value, beat).value;
      && e.params.Success?
      && MathUtils.Min(from.x, to.x) <= e.params.value.x <= MathUtils.Max(from.x, to.x)
      && MathUtils.Min(from.y, to.y) <= e.params.value.y <= MathUtils.Max(from.y, to.y)
      && MathUtils.Min(from.z, to.z) <= e.params.value.z <= MathUtils.Max(from.z, to.z)
      && MathUtils.Min(from.rotX, to.rotX) <= e.params.value.rotX <= MathUtils.Max(from.rotX, to.rotX)
      && MathUtils.Min(from.rotY, to.rotY) <= e.params.value.rotY <= MathUtils.Max(from.rotY, to.rotY)
      && MathUtils.Min(from.rotZ, to.rotZ) <= e.params.value.rotZ <= MathUtils.Max(from.rotZ, to.rotZ)
  {
  }
}
