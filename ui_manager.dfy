/** `UIManager` of src/core/uiManager.ts: the off-screen texture the text
    overlay is drawn into, and the choice of overlay drawer. */
module UiManager {
  import opened Wrappers

  /** The overlay drawers; there is one, `UIDraw01`. What it draws is not
      part of this model. */
  datatype Drawer = UIDraw01

  const UI_DRAWERS: seq<Drawer> := [UIDraw01]

  /** The off-screen texture, by its size. */
  datatype Texture = Texture(width: real, height: real)

  /** The error `getTexture`, `resize` and `draw` throw before `init`. */
  datatype UiError = TextureNotInitialized

  /** A value passed to `normalizePatternIndex`: missing (or not a number),
      a finite number, or NaN or an infinity. */
  datatype PatternInput = Undefined | Finite(value: real) | NonFinite

  /** `normalizePatternIndex(value)` for a list of `count` drawers: the value
      floored and clamped to [0, count - 1], and 0 for anything that is not a
      finite number. */
  function NormalizePatternIndex(value: PatternInput, count: nat): (index: int)
    ensures count >= 1 ==> 0 <= index < count
    ensures !value.Finite? ==> index == 0
  {
    match value
    case Finite(v) =>
      var clamped := if v.Floor >= 0 then v.Floor else 0;
      if count - 1 <= clamped then count - 1 else clamped
    case _ => 0
  }

  /** The result is always a drawer's index; input that is not a finite
      number gives the first one. */
  lemma NormalizedIndexIsADrawer(value: PatternInput, count: nat)
    requires count >= 1
    ensures 0 <= NormalizePatternIndex(value, count) < count
    ensures !value.Finite? ==> NormalizePatternIndex(value, count) == 0
  {
  }

  /** An integer index in range is returned unchanged; any other number is
      floored and then moved to the nearest end of the range. */
  lemma NormalizedIndexFloorsAndClamps(v: real, count: nat)
    requires count >= 1
    ensures var r := NormalizePatternIndex(Finite(v), count);
      && (0 <= v.Floor < count ==> r == v.Floor)
      && (v < 0.0 ==> r == 0)
      && (v.Floor >= count ==> r == count - 1)
      && (v == (v.Floor as real) && 0.0 <= v < count as real ==> r as real == v)
  {
  }

  /** With the one drawer of the source, every input normalises to 0. */
  lemma NormalizedIndexWithOneDrawer(value: PatternInput)
    ensures NormalizePatternIndex(value, |UI_DRAWERS|) == 0
  {
  }

  /** `UIDRAWERS[index] ?? UIDRAWERS[0]`: an index with no drawer falls back to the first. */
  function DrawerAt(index: int): (d: Drawer)
    ensures 0 <= index < |UI_DRAWERS| ==> d == UI_DRAWERS[index]
    ensures !(0 <= index < |UI_DRAWERS|) ==> d == UI_DRAWERS[0]
  {
    if 0 <= index < |UI_DRAWERS| then UI_DRAWERS[index] else UI_DRAWERS[0]
  }

  /** One call of a drawer: into which texture, at which beat. */
  datatype DrawCall = DrawCall(drawer: Drawer, texture: Texture, beat: real)

  class UIManager {
    var renderTexture: Option<Texture>
    var activePatternIndex: int

    constructor ()
      ensures renderTexture.None? && activePatternIndex == 0
    {
      renderTexture := None;
      activePatternIndex := 0;
    }

    /** `init(p)`: a texture the size of the canvas. */
    method Init(width: real, height: real)
      modifies this`renderTexture
      ensures renderTexture == Some(Texture(width, height))
    {
      renderTexture := Some(Texture(width, height));
    }

    /** `getTexture()`: fails until `init` has run. */
    function GetTexture(): (r: Result<Texture, UiError>)
      reads this
      ensures r.Failure? <==> renderTexture.None?
      ensures r.Failure? ==> r.error == TextureNotInitialized
      ensures r.Success? ==> Some(r.value) == renderTexture
    {
      match renderTexture
      case None => Failure(TextureNotInitialized)
      case Some(texture) => Success(texture)
    }

    /** `resize(p)`: fails until `init` has run, and otherwise gives the
        texture the canvas size. */
    method Resize(width: real, height: real) returns (outcome: Outcome<UiError>)
      modifies this`renderTexture
      ensures outcome.Fail? <==> old(renderTexture).None?
      ensures outcome.Fail? ==> outcome.error == TextureNotInitialized && renderTexture == old(renderTexture)
      ensures outcome.Pass? ==> renderTexture == Some(Texture(width, height))
    {
      if renderTexture.None? {
        return Fail(TextureNotInitialized);
      }
      renderTexture := Some(Texture(width, height));
      outcome := Pass;
    }

    /** `update(p)`: does nothing. */
    method Update()
      ensures unchanged(this)
    {
    }

    /** `draw(p, font)` at `millis` milliseconds: fails until `init` has
        run, and otherwise calls the active drawer, or the first one, on
        the texture with the beat taken as `millis / 500`. */
    function Draw(millis: real): (r: Result<DrawCall, UiError>)
      reads this
      ensures r.Failure? <==> renderTexture.None?
      ensures r.Success? ==> r.value.texture == renderTexture.value && r.value.beat * 500.0 == millis
      ensures r.Success? ==> r.value.drawer == DrawerAt(activePatternIndex) && r.value.drawer in UI_DRAWERS
    {
      match renderTexture
      case None => Failure(TextureNotInitialized)
      case Some(texture) => Success(DrawCall(DrawerAt(activePatternIndex), texture, millis / 500.0))
    }
  }
}
