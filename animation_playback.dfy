/** The state of `ImageAnimation` (src/scenes/image/ImageAnimation.ts) as a
    value, with each operation as a function on it. The class in
    image_animation.dfy is proved to follow these functions step by step. */
module AnimationPlayback {
  import opened Wrappers
  import opened ImageSlots
  import CellKeys

  /** `images[a][f]` is frame slot `f` of animation `a`; a hole is a frame that failed to load. */
  datatype AnimationState = AnimationState(
    images: seq<seq<Option<Image>>>,
    currentAnimationIndex: int,
    currentFrameIndex: int,
    frameRate: real,
    lastFrameTime: real,
    isLoaded: bool)

  /** The current animation always exists once there is one, and both
      indices stay non-negative. */
  predicate Valid(s: AnimationState) {
    && s.currentAnimationIndex >= 0
    && s.currentFrameIndex >= 0
    && (if s.images == [] then s.currentAnimationIndex == 0 else s.currentAnimationIndex < |s.images|)
  }

  /** `new ImageAnimation(frameRate)`. */
  function Initial(frameRate: real): (s: AnimationState)
    ensures Valid(s) && !s.isLoaded && s.images == []
    ensures s.currentAnimationIndex == 0 && s.currentFrameIndex == 0
  {
    AnimationState([], 0, 0, frameRate, 0.0, false)
  }

  /** `${basePath}/${anim}/${frame}.png`, both numbers counted from 1. */
  function FramePath(basePath: string, anim: nat, frame: nat): (path: string)
    ensures |path| > |basePath| + 4
    ensures path[..|basePath| + 1] == basePath + "/" && path[|path| - 4..] == ".png"
  {
    basePath + "/" + CellKeys.NatToDecimal(anim) + "/" + CellKeys.NatToDecimal(frame) + ".png"
  }

  /** Whether the load of frame slot `j` of animation slot `anim` succeeds,
      `load` saying which paths load. */
  function FrameLoads(load: string -> Option<Image>, basePath: string, anim: nat): int -> Option<Image> {
    j => if j >= 0 then load(FramePath(basePath, anim + 1, j + 1)) else None
  }

  /** The `images` array once every load `load(p, basePath, animationCount,
      framesPerAnimation)` started has settled: slots below `animationCount`
      are replaced by fresh arrays, the others are kept. */
  function LoadedImages(images: seq<seq<Option<Image>>>, load: string -> Option<Image>, basePath: string,
                        animationCount: int, framesPerAnimation: int): (loaded: seq<seq<Option<Image>>>)
    ensures |loaded| == if animationCount > |images| then animationCount else |images|
    ensures forall a :: 0 <= a < |loaded| && a >= animationCount ==> loaded[a] == images[a]
  {
    var n := if animationCount > |images| then animationCount else |images|;
    seq(n, a requires 0 <= a < n =>
      if a < animationCount then Filled(framesPerAnimation, FrameLoads(load, basePath, a)) else images[a])
  }

  /** Loading one more animation slot replaces or appends that slot. */
  lemma LoadedImagesStep(images: seq<seq<Option<Image>>>, load: string -> Option<Image>, basePath: string,
                         k: nat, framesPerAnimation: int)
    ensures var before := LoadedImages(images, load, basePath, k, framesPerAnimation);
      var slots := Filled(framesPerAnimation, FrameLoads(load, basePath, k));
      LoadedImages(images, load, basePath, k + 1, framesPerAnimation)
        == if k < |before| then before[k := slots] else before + [slots]
  {
  }

  /** `load(...)` after its promises have all settled. */
  function Load(s: AnimationState, load: string -> Option<Image>, basePath: string,
                animationCount: int, framesPerAnimation: int): (r: AnimationState)
    requires Valid(s)
    ensures Valid(r) && r.isLoaded
  {
    s.(images := LoadedImages(s.images, load, basePath, animationCount, framesPerAnimation), isLoaded := true)
  }

  /** `currentTime - lastFrameTime >= 1000 / frameRate`. A zero frame rate
      makes the duration infinite in JavaScript, so a frame is never due. */
  function FrameDue(now: real, last: real, frameRate: real): (due: bool)
    ensures frameRate == 0.0 ==> !due
    ensures frameRate > 0.0 && now - last >= 1000.0 / frameRate ==> due
    ensures frameRate > 0.0 && now - last < 1000.0 / frameRate ==> !due
  {
    frameRate != 0.0 && now - last >= 1000.0 / frameRate
  }

  /** One step of the frame counter over an animation of `length` frames:
      reaching the length wraps back to frame 0. */
  function Advance(frame: int, length: nat): (next: int)
    ensures next == 0 || next == frame + 1
    ensures frame >= 0 ==> 0 <= next && (next < length || next == 0)
    ensures frame + 1 < length ==> next == frame + 1
    ensures frame + 1 >= length ==> next == 0
  {
    if frame + 1 >= length then 0 else frame + 1
  }

  /** `update(p)` at time `now`. */
  function Update(s: AnimationState, now: real): (r: AnimationState)
    requires Valid(s)
    ensures Valid(r)
  {
    if !s.isLoaded || s.images == [] then s
    else if FrameDue(now, s.lastFrameTime, s.frameRate) then
      s.(lastFrameTime := now,
         currentFrameIndex := Advance(s.currentFrameIndex, |s.images[s.currentAnimationIndex]|))
    else s
  }

  /** `getCurrentFrame()`: no frame before loading, for an empty animation,
      past its end or at a hole. */
  function CurrentFrame(s: AnimationState): (frame: Option<Image>)
    ensures frame.Some? ==>
      && s.isLoaded && 0 <= s.currentAnimationIndex < |s.images|
      && 0 <= s.currentFrameIndex < |s.images[s.currentAnimationIndex]|
      && frame == s.images[s.currentAnimationIndex][s.currentFrameIndex]
    ensures !s.isLoaded ==> frame.None?
  {
    if !s.isLoaded || s.images == [] then None
    else if !(0 <= s.currentAnimationIndex < |s.images|) then None
    else if s.images[s.currentAnimationIndex] == [] then None
    else Get(s.images[s.currentAnimationIndex], s.currentFrameIndex)
  }

  /** `setAnimationIndex(index)`. */
  function SetAnimationIndex(s: AnimationState, index: int): (r: AnimationState)
    requires Valid(s)
    ensures Valid(r)
  {
    if 0 <= index < |s.images| then s.(currentAnimationIndex := index, currentFrameIndex := 0) else s
  }

  /** `setFrameRate(fps)`. */
  function SetFrameRate(s: AnimationState, fps: real): (r: AnimationState)
    ensures r.frameRate == fps
  {
    s.(frameRate := fps)
  }

  /** `k` frame steps starting from `frame`. */
  function AdvanceTimes(frame: int, length: nat, k: nat): int {
    if k == 0 then frame else Advance(AdvanceTimes(frame, length, k - 1), length)
  }

  // ---- Properties ----

  /** Before loading, or with no animations, `update` changes nothing. */
  lemma UpdateIdleUntilReady(s: AnimationState, now: real)
    requires Valid(s) && (!s.isLoaded || s.images == [])
    ensures Update(s, now) == s && CurrentFrame(s).None?
  {
  }

  /** The frame moves, and the frame time is taken, exactly when a frame is
      due; nothing else changes. */
  lemma UpdateStepsOnlyWhenDue(s: AnimationState, now: real)
    requires Valid(s) && s.isLoaded && s.images != []
    ensures var r := Update(s, now);
      && r.images == s.images && r.currentAnimationIndex == s.currentAnimationIndex
      && r.frameRate == s.frameRate && r.isLoaded == s.isLoaded
      && (FrameDue(now, s.lastFrameTime, s.frameRate) ==>
            r.lastFrameTime == now
            && r.currentFrameIndex == Advance(s.currentFrameIndex, |s.images[s.currentAnimationIndex]|))
      && (!FrameDue(now, s.lastFrameTime, s.frameRate) ==> r == s)
  {
  }

  /** A frame is due once `1000 / frameRate` milliseconds have passed; with
      a zero rate it never is. */
  lemma FrameDueAfterFrameDuration(now: real, last: real, frameRate: real)
    ensures frameRate > 0.0 ==> (FrameDue(now, last, frameRate) <==> (now - last) * frameRate >= 1000.0)
    ensures frameRate == 0.0 ==> !FrameDue(now, last, frameRate)
  {
    if frameRate > 0.0 {
      var d := 1000.0 / frameRate;
      assert d * frameRate == 1000.0;
      if now - last >= d {
        assert (now - last) * frameRate >= d * frameRate;
      }
      if (now - last) * frameRate >= 1000.0 {
        assert (now - last) * frameRate >= d * frameRate;
      }
    }
  }

  /** After a step the frame is inside the animation (frame 0 for an empty one). */
  lemma AdvanceStaysInAnimation(frame: int, length: nat)
    requires frame >= 0
    ensures var f := Advance(frame, length);
      0 <= f && (f < length || (length == 0 && f == 0))
  {
  }

  /** `a` steps and then `b` more are `a + b` steps. */
  lemma {:induction false} AdvanceTimesAdds(frame: int, length: nat, a: nat, b: nat)
    ensures AdvanceTimes(frame, length, a + b) == AdvanceTimes(AdvanceTimes(frame, length, a), length, b)
  {
    if b > 0 {
      AdvanceTimesAdds(frame, length, a, b - 1);
    }
  }

  /** Played from frame 0, the counter shows frames 0, 1, ... in turn up to the last one. */
  lemma {:induction false} AdvanceTimesCountsUp(length: nat, k: nat)
    requires k < length
    ensures AdvanceTimes(0, length, k) == k
  {
    if k > 0 {
      AdvanceTimesCountsUp(length, k - 1);
    }
  }

  /** Played from frame 0, the counter loops: after `q` full rounds and `r`
      more steps it shows frame `r`. */
  lemma {:induction false} AdvanceTimesLoops(length: nat, q: nat, r: nat)
    requires r < length
    ensures AdvanceTimes(0, length, q * length + r) == r
  {
    if q == 0 {
      AdvanceTimesCountsUp(length, r);
    } else {
      var rest := (q - 1) * length + r;
      assert q * length + r == length + rest;
      AdvanceTimesAdds(0, length, length, rest);
      AdvanceTimesCountsUp(length, length - 1);
      assert AdvanceTimes(0, length, length) == 0;
      AdvanceTimesLoops(length, q - 1, r);
    }
  }

  /** `setAnimationIndex` accepts exactly the indices of loaded animations,
      and then restarts the frame; `getAnimationIndex` reads the index back. */
  lemma SetAnimationIndexAcceptsLoadedIndices(s: AnimationState, index: int)
    requires Valid(s)
    ensures var r := SetAnimationIndex(s, index);
      && (0 <= index < |s.images| ==> r.currentAnimationIndex == index && r.currentFrameIndex == 0)
      && (!(0 <= index < |s.images|) ==> r == s)
      && r.images == s.images && r.frameRate == s.frameRate && r.lastFrameTime == s.lastFrameTime
  {
  }

  /** The frame rate only changes how often frames are due: the frame on
      show, the loaded images and the position stay as they were. */
  lemma SetFrameRateKeepsPlayback(s: AnimationState, fps: real)
    ensures SetFrameRate(s, fps) == s.(frameRate := fps)
    ensures var r := SetFrameRate(s, fps);
      && r.images == s.images && CurrentFrame(r) == CurrentFrame(s) && r.isLoaded == s.isLoaded
      && r.currentAnimationIndex == s.currentAnimationIndex && r.currentFrameIndex == s.currentFrameIndex
      && r.lastFrameTime == s.lastFrameTime
  {
  }

  /** `getCurrentFrame()` yields a stored image exactly when the current
      animation has one in the current slot. */
  lemma CurrentFrameIsStoredSlot(s: AnimationState)
    requires Valid(s)
    ensures CurrentFrame(s).Some? <==>
      s.isLoaded && s.images != [] && 0 <= s.currentFrameIndex < |s.images[s.currentAnimationIndex]|
      && s.images[s.currentAnimationIndex][s.currentFrameIndex].Some?
    ensures CurrentFrame(s).Some? ==> CurrentFrame(s) == s.images[s.currentAnimationIndex][s.currentFrameIndex]
  {
  }

  /** After loading, animation slot `a` holds what the loads of its frame
      paths produced, and the other slots are kept. */
  lemma {:induction false} LoadedImagesReadBack(images: seq<seq<Option<Image>>>, load: string -> Option<Image>,
                                                basePath: string, animationCount: int, framesPerAnimation: int,
                                                a: int, f: int)
    requires 0 <= a
    ensures var r := LoadedImages(images, load, basePath, animationCount, framesPerAnimation);
      && |r| == (if animationCount > |images| then animationCount else |images|)
      && (a < animationCount ==>
            Get(r[a], f) == if 0 <= f < framesPerAnimation then load(FramePath(basePath, a + 1, f + 1)) else None)
      && (animationCount <= a < |images| ==> r[a] == images[a])
  {
    if a < animationCount {
      FilledReadsBack(framesPerAnimation, FrameLoads(load, basePath, a), f);
    }
  }

  /** Loading and then choosing animation `a` shows the first frame file of
      that animation, when it loaded. */
  lemma LoadThenChooseShowsFirstFrame(s: AnimationState, load: string -> Option<Image>, basePath: string,
                                      animationCount: int, framesPerAnimation: int, a: int)
    requires Valid(s) && 0 <= a < animationCount && framesPerAnimation > 0
    ensures var r := SetAnimationIndex(Load(s, load, basePath, animationCount, framesPerAnimation), a);
      CurrentFrame(r) == load(FramePath(basePath, a + 1, 1))
  {
    var l := Load(s, load, basePath, animationCount, framesPerAnimation);
    LoadedImagesReadBack(s.images, load, basePath, animationCount, framesPerAnimation, a, 0);
    var slots := l.images[a];
    if slots == [] {
      assert Get(slots, 0).None?;
    }
  }
}
