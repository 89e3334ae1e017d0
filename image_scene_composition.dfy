/** `SceneComposition` of src/scenes/image/SceneComposition.ts: named modes
    that pair an image source (a still from the gallery, or an animation)
    with an overlay, and the setter calls a mode change sends to the image
    and overlay collaborators. */
module ImageSceneComposition {
  import opened Wrappers
  import opened ImageSlots
  import AnimationPlayback
  import MathUtils
  import opened Sequences

  datatype ImageSource = StaticImage | Animation

  datatype OverlayType = NoOverlay | ShaderPattern | P5Object

  /** A composition mode; each `?` field of the source is an `Option`. */
  datatype CompositionMode = CompositionMode(
    name: string,
    imageSource: ImageSource,
    imageCategory: Option<string>,
    imageIndex: Option<int>,
    animationIndex: Option<int>,
    overlayType: OverlayType,
    patternType: Option<int>,
    maskType: Option<int>,
    overlaySize: Option<real>,
    imageSize: Option<real>)

  /** A setter call on a collaborator: the gallery's `setCategory` and
      `setImageIndex`, the animation's `setAnimationIndex`, the overlay
      pattern's `setPatternType` and `setMaskType`. */
  datatype Command =
    | SetCategory(category: string)
    | SetImageIndex(index: int)
    | SetAnimationIndex(index: int)
    | SetPatternType(patternType: int)
    | SetMaskType(maskType: int)

  /** The mode the constructor starts from, before the presets are installed. */
  const DEFAULT_MODE := CompositionMode("default", Animation, None, None, Some(0), ShaderPattern,
                                        Some(2), Some(1), Some(0.4), Some(0.8))

  /** The four presets `registerDefaultModes` installs, in order. */
  const PRESETS: seq<CompositionMode> := [
    CompositionMode("hand_with_circle", Animation, None, None, Some(0), P5Object, None, None, Some(0.4), Some(0.8)),
    CompositionMode("animal_with_grid", StaticImage, Some("animal"), Some(0), None, P5Object, None, None, Some(0.5), Some(0.6)),
    CompositionMode("human_simple", StaticImage, Some("human"), Some(0), None, P5Object, None, None, None, Some(0.7)),
    CompositionMode("hand_with_p5", Animation, None, None, Some(1), P5Object, None, None, Some(0.3), Some(0.8))
  ]

  /** `applyMode()`: the setter calls, in the order they are made: those of
      the image source, then those of the overlay. */
  function ApplyMode(mode: CompositionMode): (cmds: seq<Command>)
    ensures |cmds| <= 4
    ensures forall i, j :: 0 <= i < j < |cmds| && IsOverlayCommand(cmds[i]) ==> IsOverlayCommand(cmds[j])
  {
    ImageCommands(mode) + OverlayCommands(mode)
  }

  /** A setter call on the overlay pattern rather than on an image source. */
  predicate IsOverlayCommand(cmd: Command) {
    cmd.SetPatternType? || cmd.SetMaskType?
  }

  /** The image-source half of `applyMode()`. A category is only forwarded
      when it is a non-empty string, because the source tests it for
      truthiness; the indices are forwarded whenever they are defined. */
  function ImageCommands(mode: CompositionMode): seq<Command> {
    match mode.imageSource
    case StaticImage =>
      (if mode.imageCategory.Some? && mode.imageCategory.value != "" then [SetCategory(mode.imageCategory.value)] else [])
      + (if mode.imageIndex.Some? then [SetImageIndex(mode.imageIndex.value)] else [])
    case Animation =>
      if mode.animationIndex.Some? then [SetAnimationIndex(mode.animationIndex.value)] else []
  }

  /** The overlay half of `applyMode()`: only a shader overlay is configured. */
  function OverlayCommands(mode: CompositionMode): seq<Command> {
    if mode.overlayType == ShaderPattern then
      (if mode.patternType.Some? then [SetPatternType(mode.patternType.value)] else [])
      + (if mode.maskType.Some? then [SetMaskType(mode.maskType.value)] else [])
    else []
  }

  /** Each image setter is called exactly when its field is defined and
      belongs to the mode's image source. */
  lemma ImageCommandsForwardDefinedFields(mode: CompositionMode, cmd: Command)
    ensures |ImageCommands(mode)| <= 2
    ensures cmd in ImageCommands(mode) <==> match cmd
      case SetCategory(c) => mode.imageSource == StaticImage && mode.imageCategory == Some(c) && c != ""
      case SetImageIndex(i) => mode.imageSource == StaticImage && mode.imageIndex == Some(i)
      case SetAnimationIndex(i) => mode.imageSource == Animation && mode.animationIndex == Some(i)
      case _ => false
  {
  }

  /** Each overlay setter is called exactly when its field is defined and the
      overlay is a shader pattern. */
  lemma OverlayCommandsForwardDefinedFields(mode: CompositionMode, cmd: Command)
    ensures |OverlayCommands(mode)| <= 2
    ensures cmd in OverlayCommands(mode) <==> match cmd
      case SetPatternType(t) => mode.overlayType == ShaderPattern && mode.patternType == Some(t)
      case SetMaskType(t) => mode.overlayType == ShaderPattern && mode.maskType == Some(t)
      case _ => false
  {
  }

  /** `applyMode()` sends a setter exactly when its field is defined and
      belongs to the mode's image source or overlay, image setters first. */
  lemma ApplyModeForwardsDefinedFields(mode: CompositionMode, cmd: Command)
    ensures |ApplyMode(mode)| <= 4
    ensures cmd in ApplyMode(mode) <==> match cmd
      case SetCategory(c) => mode.imageSource == StaticImage && mode.imageCategory == Some(c) && c != ""
      case SetImageIndex(i) => mode.imageSource == StaticImage && mode.imageIndex == Some(i)
      case SetAnimationIndex(i) => mode.imageSource == Animation && mode.animationIndex == Some(i)
      case SetPatternType(t) => mode.overlayType == ShaderPattern && mode.patternType == Some(t)
      case SetMaskType(t) => mode.overlayType == ShaderPattern && mode.maskType == Some(t)
  {
    ImageCommandsForwardDefinedFields(mode, cmd);
    OverlayCommandsForwardDefinedFields(mode, cmd);
  }

  /** `x || fallback` for an optional number: a missing or zero size falls
      back to the default. */
  function SizeOr(size: Option<real>, fallback: real): real {
    if size.None? || size.value == 0.0 then fallback else size.value
  }

  /** What `draw` puts on screen for the overlay. */
  datatype OverlayDraw =
    | NoOverlayDrawn
    | PatternDrawn(width: real, height: real)
    | CircleDrawn(diameter: real)

  /** What `draw` puts on screen: the image layer's size, and the overlay
      (the shader pattern's size, or the stroked circle `drawP5Overlay`
      draws), all centred on the given point. */
  datatype DrawPlan = DrawPlan(imageWidth: real, imageHeight: real, overlay: OverlayDraw)

  /** `draw(p, centerX, centerY, baseWidth, baseHeight)` as the sizes it draws at. */
  function Plan(mode: CompositionMode, baseWidth: real, baseHeight: real): (plan: DrawPlan)
    ensures plan.imageWidth == baseWidth * SizeOr(mode.imageSize, 0.8)
    ensures plan.imageHeight == baseHeight * SizeOr(mode.imageSize, 0.8)
    ensures plan.overlay.NoOverlayDrawn? <==> mode.overlayType == NoOverlay
    ensures plan.overlay.PatternDrawn? <==> mode.overlayType == ShaderPattern
    ensures plan.overlay.CircleDrawn? <==> mode.overlayType == P5Object
    ensures plan.overlay.PatternDrawn? ==>
      plan.overlay.width == baseWidth * SizeOr(mode.overlaySize, 0.4)
      && plan.overlay.height == baseHeight * SizeOr(mode.overlaySize, 0.4)
    ensures plan.overlay.CircleDrawn? ==>
      plan.overlay.diameter == MathUtils.Min(baseWidth * SizeOr(mode.overlaySize, 0.4),
                                             baseHeight * SizeOr(mode.overlaySize, 0.4)) * 0.8
  {
    var imageSize := SizeOr(mode.imageSize, 0.8);
    var overlaySize := SizeOr(mode.overlaySize, 0.4);
    var w := baseWidth * overlaySize;
    var h := baseHeight * overlaySize;
    DrawPlan(baseWidth * imageSize, baseHeight * imageSize,
             match mode.overlayType
             case ShaderPattern => PatternDrawn(w, h)
             case P5Object => CircleDrawn(MathUtils.Min(w, h) * 0.8)
             case NoOverlay => NoOverlayDrawn)
  }

  /** The image is drawn at 0.8 of the base size and the overlay at 0.4
      unless the mode gives a non-zero size; the circle overlay fits inside
      the overlay's box. */
  lemma PlanUsesSizeDefaults(mode: CompositionMode, baseWidth: real, baseHeight: real)
    requires baseWidth >= 0.0 && baseHeight >= 0.0
    ensures var plan := Plan(mode, baseWidth, baseHeight);
      && ((mode.imageSize.None? || mode.imageSize == Some(0.0)) ==>
            plan.imageWidth == baseWidth * 0.8 && plan.imageHeight == baseHeight * 0.8)
      && ((mode.imageSize.Some? && mode.imageSize.value != 0.0) ==>
            plan.imageWidth == baseWidth * mode.imageSize.value)
      && (plan.overlay.NoOverlayDrawn? <==> mode.overlayType == NoOverlay)
      && (plan.overlay.PatternDrawn? ==>
            plan.overlay.width == baseWidth * SizeOr(mode.overlaySize, 0.4)
            && ((mode.overlaySize.None? || mode.overlaySize == Some(0.0)) ==> plan.overlay.width == baseWidth * 0.4))
      && (plan.overlay.CircleDrawn? && SizeOr(mode.overlaySize, 0.4) >= 0.0 ==>
            0.0 <= plan.overlay.diameter <= baseWidth * SizeOr(mode.overlaySize, 0.4)
            && plan.overlay.diameter <= baseHeight * SizeOr(mode.overlaySize, 0.4))
  {
    var s := SizeOr(mode.overlaySize, 0.4);
    if s >= 0.0 {
      MathUtils.ProductNonNegative(baseWidth, s);
      MathUtils.ProductNonNegative(baseHeight, s);
    }
  }

  /** The presets have four different names. */
  lemma PresetNamesDistinct()
    ensures forall i, j :: 0 <= i < j < |PRESETS| ==> PRESETS[i].name != PRESETS[j].name
  {
    forall i, j | 0 <= i < j < |PRESETS|
      ensures PRESETS[i].name != PRESETS[j].name
    {
      assert |PRESETS[i].name| != |PRESETS[j].name| || PRESETS[i].name[1] != PRESETS[j].name[1];
    }
  }

  class SceneComposition {
    var modes: map<string, CompositionMode>
    /** The order in which mode names were first registered (the key order of the source's `Map`). */
    var order: seq<string>
    var currentMode: CompositionMode
    /** Every setter call sent to the collaborators so far, oldest first. */
    var sent: seq<Command>

    /** The key order lists every registered name once, and each mode is
        stored under its own name. */
    ghost predicate Registry()
      reads this
    {
      && Distinct(order)
      && (forall name :: name in modes <==> name in order)
      && (forall name :: name in modes ==> modes[name].name == name)
    }

    /** Once constructed, the current mode is always a registered one. */
    ghost predicate Valid()
      reads this
    {
      Registry() && currentMode.name in modes
    }

    /** The image, layer and pattern collaborators are not part of this model;
        their setter calls are recorded in `sent`. */
    constructor ()
      ensures Valid()
      ensures order == [PRESETS[0].name, PRESETS[1].name, PRESETS[2].name, PRESETS[3].name]
      ensures forall i :: 0 <= i < |PRESETS| ==> modes[PRESETS[i].name] == PRESETS[i]
      ensures currentMode == PRESETS[0] && sent == [SetAnimationIndex(0)]
    {
      modes := map[];
      order := [];
      currentMode := DEFAULT_MODE;
      sent := [];
      new;
      RegisterDefaultModes();
    }

    /** `registerDefaultModes()`: the four presets, then `setMode("hand_with_circle")`. */
    method RegisterDefaultModes()
      requires modes == map[] && order == [] && sent == []
      modifies this
      ensures Valid()
      ensures order == [PRESETS[0].name, PRESETS[1].name, PRESETS[2].name, PRESETS[3].name]
      ensures forall i :: 0 <= i < |PRESETS| ==> modes[PRESETS[i].name] == PRESETS[i]
      ensures currentMode == PRESETS[0] && sent == [SetAnimationIndex(0)]
    {
      RegisterPresets();
      assert PRESETS[0].name == "hand_with_circle" && "hand_with_circle" in modes;
      SetMode("hand_with_circle");
    }

    /** The four `registerMode` calls of `registerDefaultModes()`. */
    method RegisterPresets()
      requires modes == map[] && order == []
      modifies this`modes, this`order
      ensures Registry()
      ensures order == [PRESETS[0].name, PRESETS[1].name, PRESETS[2].name, PRESETS[3].name]
      ensures modes == map[PRESETS[0].name := PRESETS[0], PRESETS[1].name := PRESETS[1],
                           PRESETS[2].name := PRESETS[2], PRESETS[3].name := PRESETS[3]]
    {
      PresetNamesDistinct();
      RegisterFour(PRESETS[0], PRESETS[1], PRESETS[2], PRESETS[3]);
    }

    /** Four `registerMode` calls with different names into an empty registry. */
    method RegisterFour(p0: CompositionMode, p1: CompositionMode, p2: CompositionMode, p3: CompositionMode)
      requires modes == map[] && order == []
      requires p1.name != p0.name
      requires p2.name != p0.name && p2.name != p1.name
      requires p3.name != p0.name && p3.name != p1.name && p3.name != p2.name
      modifies this`modes, this`order
      ensures Registry()
      ensures order == [p0.name, p1.name, p2.name, p3.name]
      ensures modes == map[p0.name := p0, p1.name := p1, p2.name := p2, p3.name := p3]
    {
      RegisterMode(p0);
      assert p1.name !in modes;
      RegisterMode(p1);
      assert p2.name !in modes;
      RegisterMode(p2);
      assert p3.name !in modes;
      RegisterMode(p3);
    }

    /** `registerMode(mode)`: stores the mode under its name, replacing an
        earlier mode of that name, which keeps its place in the order. */
    method RegisterMode(mode: CompositionMode)
      requires Registry()
      modifies this`modes, this`order
      ensures Registry()
      ensures modes == old(modes)[mode.name := mode]
      ensures mode.name in old(modes) ==> order == old(order)
      ensures mode.name !in old(modes) ==> order == old(order) + [mode.name]
    {
      if mode.name !in modes {
        order := order + [mode.name];
      }
      modes := modes[mode.name := mode];
    }

    /** `setMode(modeName)`: an unregistered name changes nothing and sends
        nothing; a registered one becomes current and its setters are sent. */
    method SetMode(modeName: string)
      requires Registry()
      modifies this`currentMode, this`sent
      ensures Registry() && (old(Valid()) || modeName in modes ==> Valid())
      ensures modeName !in modes ==> currentMode == old(currentMode) && sent == old(sent)
      ensures modeName in modes ==> currentMode == modes[modeName] && sent == old(sent) + ApplyMode(modes[modeName])
    {
      if modeName in modes {
        currentMode := modes[modeName];
        sent := sent + ApplyMode(currentMode);
      }
    }

    /** `getCurrentImage()`: the gallery's current image for a still, the
        animation's current frame for an animation. The gallery's current
        image is passed in, because the gallery class has no such query. */
    function GetCurrentImage(galleryImage: Option<Image>, animation: AnimationPlayback.AnimationState): (r: Option<Image>)
      reads this
      ensures currentMode.imageSource == StaticImage ==> r == galleryImage
      ensures currentMode.imageSource == Animation ==> r == AnimationPlayback.CurrentFrame(animation)
    {
      match currentMode.imageSource
      case StaticImage => galleryImage
      case Animation => AnimationPlayback.CurrentFrame(animation)
    }

    /** The part of `update(p)` that moves the animation: it is stepped only
        while the current mode shows an animation. */
    function UpdateAnimation(animation: AnimationPlayback.AnimationState, now: real): (r: AnimationPlayback.AnimationState)
      requires AnimationPlayback.Valid(animation)
      reads this
      ensures AnimationPlayback.Valid(r)
      ensures currentMode.imageSource == StaticImage ==> r == animation
      ensures currentMode.imageSource == Animation ==> r == AnimationPlayback.Update(animation, now)
    {
      if currentMode.imageSource == Animation then AnimationPlayback.Update(animation, now) else animation
    }

    /** `draw(...)`: the image at the mode's image size (0.8 when missing or
        zero), and the overlay its type calls for at the mode's overlay size
        (0.4 when missing or zero): the shader pattern's box, or a circle of
        0.8 times the box's smaller side. */
    function Draw(baseWidth: real, baseHeight: real): (plan: DrawPlan)
      reads this
      ensures plan.imageWidth == baseWidth * SizeOr(currentMode.imageSize, 0.8)
      ensures plan.imageHeight == baseHeight * SizeOr(currentMode.imageSize, 0.8)
      ensures plan.overlay.NoOverlayDrawn? <==> currentMode.overlayType == NoOverlay
      ensures plan.overlay.PatternDrawn? <==> currentMode.overlayType == ShaderPattern
      ensures plan.overlay.CircleDrawn? <==> currentMode.overlayType == P5Object
      ensures plan.overlay.PatternDrawn? ==>
        plan.overlay == PatternDrawn(baseWidth * SizeOr(currentMode.overlaySize, 0.4),
                                     baseHeight * SizeOr(currentMode.overlaySize, 0.4))
      ensures plan.overlay.CircleDrawn? ==>
        plan.overlay.diameter == MathUtils.Min(baseWidth * SizeOr(currentMode.overlaySize, 0.4),
                                               baseHeight * SizeOr(currentMode.overlaySize, 0.4)) * 0.8
    {
      Plan(currentMode, baseWidth, baseHeight)
    }

    /** `getCurrentMode()`: always a registered mode's name. */
    function GetCurrentMode(): (mode: CompositionMode)
      requires Valid()
      reads this
      ensures mode == currentMode && mode.name in GetModeNames()
    {
      currentMode
    }

    /** `getModeNames()`: every registered name once, in registration order. */
    function GetModeNames(): (names: seq<string>)
      requires Valid()
      reads this
      ensures names == order
      ensures Distinct(names) && forall name :: name in names <==> name in modes
    {
      order
    }
  }
}
