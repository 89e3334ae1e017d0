/** `SceneComposition` of src/scenes/SceneComposition.ts: the fixed list of
    mode names and the current mode, which is handed to the renderer and the
    overlays on every frame. */
module SceneComposition {
  import opened Sequences

  /** The mode names the constructor installs, in order. */
  const MODE_NAMES: seq<string> :=
    ["hand_1", "hand_2", "hand_3", "hand_4", "hand_5", "animal", "human", "life", "noface"]

  /** `Array.prototype.indexOf`: the first position of `x`, or -1. */
  function IndexOf(names: seq<string>, x: string): (r: int)
    ensures r == -1 <==> x !in names
    ensures r != -1 ==> 0 <= r < |names| && names[r] == x && forall j :: 0 <= j < r ==> names[j] != x
  {
    if names == [] then -1
    else if names[0] == x then 0
    else
      var rest := IndexOf(names[1..], x);
      if rest == -1 then -1 else rest + 1
  }

  /** In a list without repeats, `indexOf` undoes indexing. */
  lemma IndexOfDistinct(names: seq<string>, i: int)
    requires Distinct(names) && 0 <= i < |names|
    ensures IndexOf(names, names[i]) == i
  {
  }

  lemma ModeNamesDistinct()
    ensures Distinct(MODE_NAMES) && |MODE_NAMES| == 9
  {
    assert Distinct(MODE_NAMES) by {
      forall i, j | 0 <= i < j < |MODE_NAMES|
        ensures MODE_NAMES[i] != MODE_NAMES[j]
      {
        assert MODE_NAMES[i][|MODE_NAMES[i]| - 1] != MODE_NAMES[j][|MODE_NAMES[j]| - 1]
            || MODE_NAMES[i][0] != MODE_NAMES[j][0]
            || |MODE_NAMES[i]| != |MODE_NAMES[j]|
            || MODE_NAMES[i][1] != MODE_NAMES[j][1];
      }
    }
  }

  class SceneComposition {
    const modeNames: seq<string>
    var currentModeName: string

    /** The current mode is always one of the listed names. */
    ghost predicate Valid()
      reads this
    {
      modeNames == MODE_NAMES && currentModeName in modeNames
    }

    /** The renderer, pattern and overlay collaborators are not part of this model. */
    constructor ()
      ensures Valid() && currentModeName == "hand_1"
    {
      modeNames := MODE_NAMES;
      currentModeName := MODE_NAMES[0];
    }

    /** `setMode(modeName)`: switches only to a listed name. */
    method SetMode(modeName: string)
      requires Valid()
      modifies this
      ensures Valid()
      ensures currentModeName == if modeName in modeNames then modeName else old(currentModeName)
    {
      if modeName in modeNames {
        currentModeName := modeName;
      }
    }

    /** `setModeByIndex(index)`: switches only for an index in range, and the
        index then reads back. */
    method SetModeByIndex(index: int)
      requires Valid()
      modifies this
      ensures Valid()
      ensures currentModeName == if 0 <= index < |modeNames| then modeNames[index] else old(currentModeName)
      ensures 0 <= index < |modeNames| ==> GetCurrentModeIndex() == index
    {
      if index >= 0 && index < |modeNames| {
        currentModeName := modeNames[index];
        ModeNamesDistinct();
        IndexOfDistinct(modeNames, index);
      }
    }

    /** `getCurrentModeName()`: always one of the listed names. */
    function GetCurrentModeName(): (name: string)
      requires Valid()
      reads this
      ensures name == currentModeName && name in MODE_NAMES
    {
      currentModeName
    }

    /** `getCurrentModeIndex()`: never -1, because the current name is listed. */
    function GetCurrentModeIndex(): (r: int)
      requires Valid()
      reads this
      ensures 0 <= r < GetModeCount() && modeNames[r] == currentModeName
    {
      IndexOf(modeNames, currentModeName)
    }

    /** `getModeNames()`: a copy; a sequence value cannot be changed through it. */
    function GetModeNames(): (names: seq<string>)
      requires Valid()
      reads this
      ensures names == MODE_NAMES
    {
      modeNames
    }

    /** `getModeCount()`. */
    function GetModeCount(): (n: nat)
      requires Valid()
      reads this
      ensures n == 9
    {
      ModeNamesDistinct();
      |modeNames|
    }
  }
}
