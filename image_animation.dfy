/** `ImageAnimation` of src/scenes/image/ImageAnimation.ts: numbered frame
    images played back like a GIF. Each method is proved to move the object
    as the matching function of AnimationPlayback moves its state. */
module ImageAnimation {
  import opened Wrappers
  import opened ImageSlots
  import opened AnimationPlayback

  class ImageAnimation {
    var images: seq<seq<Option<Image>>>
    var currentAnimationIndex: int
    var currentFrameIndex: int
    var frameRate: real
    var lastFrameTime: real
    var isLoaded: bool

    /** The object's fields as a value. */
    function State(): AnimationState
      reads this
    {
      AnimationState(images, currentAnimationIndex, currentFrameIndex, frameRate, lastFrameTime, isLoaded)
    }

    ghost predicate Valid()
      reads this
    {
      AnimationPlayback.Valid(State())
    }

    /** `new ImageAnimation(frameRate)`; the source's default rate is 30. The
        effect texture sizes are not part of this model. */
    constructor (frameRate: real)
      ensures Valid() && State() == Initial(frameRate)
    {
      images := [];
      currentAnimationIndex := 0;
      currentFrameIndex := 0;
      this.frameRate := frameRate;
      lastFrameTime := 0.0;
      isLoaded := false;
    }

    /** `load(p, basePath, animationCount, framesPerAnimation)` once its loads
        have settled. */
    method Load(load: string -> Option<Image>, basePath: string, animationCount: int, framesPerAnimation: int)
      requires Valid()
      modifies this
      ensures Valid() && State() == AnimationPlayback.Load(old(State()), load, basePath, animationCount, framesPerAnimation)
    {
      LoadImages(load, basePath, animationCount, framesPerAnimation);
      isLoaded := true;
    }

    /** The loading loop of `load`: slot `animIndex - 1` gets a fresh array
        for each `animIndex` in 1 .. animationCount, filled by that
        animation's loads. */
    method LoadImages(load: string -> Option<Image>, basePath: string, animationCount: int, framesPerAnimation: int)
      modifies this`images
      ensures images == LoadedImages(old(images), load, basePath, animationCount, framesPerAnimation)
    {
      ghost var before := images;
      var animIndex := 1;
      while animIndex <= animationCount
        invariant 1 <= animIndex <= (if animationCount >= 1 then animationCount + 1 else 1)
        invariant images == LoadedImages(before, load, basePath, animIndex - 1, framesPerAnimation)
      {
        var slots := Fill(framesPerAnimation, FrameLoads(load, basePath, animIndex - 1));
        LoadedImagesStep(before, load, basePath, animIndex - 1, framesPerAnimation);
        if animIndex - 1 < |images| {
          images := images[animIndex - 1 := slots];
        } else {
          images := images + [slots];
        }
        animIndex := animIndex + 1;
      }
    }

    /** `update(p)`, with `p.millis()` passed in as `currentTime`; the shader
        effect it refreshes is not part of this model. */
    method Update(currentTime: real)
      requires Valid()
      modifies this
      ensures Valid() && State() == AnimationPlayback.Update(old(State()), currentTime)
    {
      if !isLoaded || |images| == 0 {
        return;
      }
      if FrameDue(currentTime, lastFrameTime, frameRate) {
        lastFrameTime := currentTime;
        currentFrameIndex := currentFrameIndex + 1;
        if currentAnimationIndex < |images| && currentFrameIndex >= |images[currentAnimationIndex]| {
          currentFrameIndex := 0;
        }
      }
    }

    /** `getCurrentFrame()`, with `null` as `None`. */
    function GetCurrentFrame(): (frame: Option<Image>)
      requires Valid()
      reads this
      ensures frame == CurrentFrame(State())
      ensures frame.Some? ==> isLoaded && frame == images[currentAnimationIndex][currentFrameIndex]
    {
      if !isLoaded || |images| == 0 then None
      else if images[currentAnimationIndex] == [] then None
      else Get(images[currentAnimationIndex], currentFrameIndex)
    }

    /** `setAnimationIndex(index)`. */
    method SetAnimationIndex(index: int)
      requires Valid()
      modifies this
      ensures Valid() && State() == AnimationPlayback.SetAnimationIndex(old(State()), index)
    {
      if index >= 0 && index < |images| {
        currentAnimationIndex := index;
        currentFrameIndex := 0;
      }
    }

    /** `getAnimationIndex()`: the last index `setAnimationIndex` accepted, 0 at first. */
    function GetAnimationIndex(): (index: int)
      requires Valid()
      reads this
      ensures 0 <= index && (images != [] ==> index < |images|)
      ensures index == State().currentAnimationIndex
    {
      currentAnimationIndex
    }

    /** `setFrameRate(fps)`. */
    method SetFrameRate(fps: real)
      requires Valid()
      modifies this
      ensures Valid() && State() == AnimationPlayback.SetFrameRate(old(State()), fps)
    {
      frameRate := fps;
    }

    /** `isReady()`. */
    function IsReady(): (ready: bool)
      reads this
      ensures ready <==> State().isLoaded
    {
      isLoaded
    }
  }
}
