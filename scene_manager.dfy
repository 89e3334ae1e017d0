/** `SceneManagerClass` of src/scenes/SceneManager.ts: the scene list and the
    id-to-index map that `register` keeps in step with it. */
module SceneManager {
  import opened Wrappers

  /** A scene definition. Its two optional draw callbacks are reduced to
      whether they are present. */
  datatype SceneDefinition = SceneDefinition(id: string, name: string, drawsImage: bool, drawsOverlay: bool)

  /** The id-to-index map that registering `scenes` in order builds: each id
      maps to the position of its last registration. */
  function IndexMap(scenes: seq<SceneDefinition>): (m: map<string, nat>)
    ensures forall id :: id in m ==> m[id] < |scenes|
  {
    if scenes == [] then map[]
    else
      var n := |scenes| - 1;
      IndexMap(scenes[..n])[scenes[n].id := n]
  }

  /** An id is in the map exactly when some scene has it, and it maps to the
      last position holding it. */
  lemma {:induction false} IndexMapIsLastPosition(scenes: seq<SceneDefinition>, id: string)
    ensures id in IndexMap(scenes) <==> exists i :: 0 <= i < |scenes| && scenes[i].id == id
    ensures id in IndexMap(scenes) ==>
      var i := IndexMap(scenes)[id];
      scenes[i].id == id && forall j :: i < j < |scenes| ==> scenes[j].id != id
  {
    if scenes != [] {
      var n := |scenes| - 1;
      IndexMapIsLastPosition(scenes[..n], id);
      if scenes[n].id != id {
        if exists i :: 0 <= i < |scenes| && scenes[i].id == id {
          var i :| 0 <= i < |scenes| && scenes[i].id == id;
          assert scenes[..n][i] == scenes[i];
        }
        if id in IndexMap(scenes[..n]) {
          var i := IndexMap(scenes[..n])[id];
          assert scenes[..n][i] == scenes[i];
        }
      }
    }
  }

  class SceneManagerClass {
    var scenes: seq<SceneDefinition>
    var sceneMap: map<string, nat>

    /** `sceneMap` is always the map that registering `scenes` in order builds. */
    ghost predicate Valid()
      reads this
    {
      sceneMap == IndexMap(scenes)
    }

    constructor ()
      ensures Valid() && scenes == []
    {
      scenes := [];
      sceneMap := map[];
    }

    /** `register(scene)`: records the scene's index under its id, then appends it. */
    method Register(scene: SceneDefinition)
      requires Valid()
      modifies this
      ensures Valid()
      ensures scenes == old(scenes) + [scene]
      ensures sceneMap == old(sceneMap)[scene.id := |old(scenes)|]
    {
      sceneMap := sceneMap[scene.id := |scenes|];
      scenes := scenes + [scene];
      assert scenes[..|scenes| - 1] == old(scenes);
    }

    /** `registerAll(scenes)`: `register` on each element, in order. */
    method RegisterAll(newScenes: seq<SceneDefinition>)
      requires Valid()
      modifies this
      ensures Valid()
      ensures scenes == old(scenes) + newScenes
    {
      for i := 0 to |newScenes|
        invariant Valid()
        invariant scenes == old(scenes) + newScenes[..i]
      {
        Register(newScenes[i]);
        assert newScenes[..i + 1] == newScenes[..i] + [newScenes[i]];
      }
      assert newScenes[..|newScenes|] == newScenes;
    }

    /** `getScene(index)`: undefined outside [0, sceneCount). */
    function GetScene(index: int): (r: Option<SceneDefinition>)
      reads this
      ensures r.Some? <==> 0 <= index < |scenes|
      ensures r.Some? ==> r.value == scenes[index]
    {
      if 0 <= index < |scenes| then Some(scenes[index]) else None
    }

    /** `getIndexById(id)`: the index of the latest registration with that id, or -1. */
    function GetIndexById(id: string): (r: int)
      requires Valid()
      reads this
      ensures r == -1 <==> forall i :: 0 <= i < |scenes| ==> scenes[i].id != id
      ensures r != -1 ==> 0 <= r < |scenes| && scenes[r].id == id
                          && forall j :: r < j < |scenes| ==> scenes[j].id != id
    {
      IndexMapIsLastPosition(scenes, id);
      if id in sceneMap then sceneMap[id] else -1
    }

    /** `getSceneById(id)`: the latest scene registered with that id, if any. */
    function GetSceneById(id: string): (r: Option<SceneDefinition>)
      requires Valid()
      reads this
      ensures r == GetScene(GetIndexById(id))
      ensures r.Some? ==> r.value.id == id
      ensures r.None? <==> forall i :: 0 <= i < |scenes| ==> scenes[i].id != id
    {
      IndexMapIsLastPosition(scenes, id);
      if id in sceneMap then Some(scenes[sceneMap[id]]) else None
    }

    /** `sceneCount` and `getSceneCount()`. */
    function SceneCount(): (n: nat)
      reads this
      ensures n == |scenes|
      ensures GetScene(n).None? && (n > 0 ==> GetScene(n - 1) == Some(scenes[n - 1]))
    {
      |scenes|
    }

    /** `getAllSceneIds()`: the ids in registration order. */
    function GetAllSceneIds(): (ids: seq<string>)
      reads this
      ensures |ids| == |scenes|
      ensures forall i :: 0 <= i < |ids| ==> ids[i] == scenes[i].id
    {
      seq(|scenes|, i requires 0 <= i < |scenes| reads this => scenes[i].id)
    }

    /** `getAllScenes()`. */
    function GetAllScenes(): (all: seq<SceneDefinition>)
      reads this
      ensures |all| == SceneCount() && forall i :: 0 <= i < |all| ==> GetScene(i) == Some(all[i])
    {
      scenes
    }
  }

  /** After `register(scene)`, the scene is the last one and its id leads to it. */
  lemma RegisterThenLookUp(scenes: seq<SceneDefinition>, scene: SceneDefinition)
    ensures var after := scenes + [scene];
      && scene.id in IndexMap(after)
      && IndexMap(after)[scene.id] == |scenes|
      && after[IndexMap(after)[scene.id]] == scene
  {
    var after := scenes + [scene];
    assert after[..|after| - 1] == scenes;
  }

  /** Registering further scenes none of which has `id` leaves `id`'s index alone. */
  lemma {:induction false} IndexMapOfConcat(a: seq<SceneDefinition>, b: seq<SceneDefinition>, id: string)
    requires id in IndexMap(a) && forall j :: 0 <= j < |b| ==> b[j].id != id
    ensures id in IndexMap(a + b) && IndexMap(a + b)[id] == IndexMap(a)[id]
  {
    IndexMapIsLastPosition(a, id);
    IndexMapIsLastPosition(a + b, id);
    var i := IndexMap(a)[id];
    assert (a + b)[i] == a[i];
    assert forall j :: i < j < |a| ==> (a + b)[j] == a[j];
    assert forall j :: |a| <= j < |a + b| ==> (a + b)[j] == b[j - |a|];
  }
}
