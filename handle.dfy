/** The scene handles of the loaded models, and the lookup of a model's handle by path. */
module Handle {
  import opened Wrappers

  /** A handle to a loaded scene, with the asset path it was loaded from (as text), if any. */
  datatype SceneHandle = SceneHandle(id: nat, path: Option<string>)

  /** A handle to a glTF asset of the models folder. */
  datatype GltfHandle = GltfHandle(id: nat)

  /** No handle before position `k` has the path `name`. */
  predicate NoMatchBefore(handles: seq<SceneHandle>, name: string, k: nat) {
    forall j :: 0 <= j < k && j < |handles| ==> handles[j].path != Some(name)
  }

  /**
   * What `get_model_handle` needs in order not to panic: the list is not
   * empty, and every handle the search looks at has a path (all handles up
   * to the first match, or every handle when none matches).
   */
  predicate Searchable(handles: seq<SceneHandle>, name: string) {
    |handles| > 0 &&
    forall i :: 0 <= i < |handles| && NoMatchBefore(handles, name, i) ==> handles[i].path.Some?
  }

  /** The position of the first handle whose path is `name`, or `|handles|` if there is none. */
  function FirstMatch(handles: seq<SceneHandle>, name: string): (k: nat)
    ensures k <= |handles|
    ensures NoMatchBefore(handles, name, k)
    ensures k < |handles| ==> handles[k].path == Some(name)
  {
    if handles == [] then 0
    else if handles[0].path == Some(name) then 0
    else 1 + FirstMatch(handles[1..], name)
  }

  /** The handle `get_model_handle` answers: the first one with path `name`, else the first one. */
  function ModelHandle(handles: seq<SceneHandle>, name: string): (h: SceneHandle)
    requires |handles| > 0
    ensures h in handles
    ensures (exists i :: 0 <= i < |handles| && handles[i].path == Some(name)) ==> h.path == Some(name)
    ensures h.path != Some(name) ==> h == handles[0]
  {
    var k := FirstMatch(handles, name);
    if k < |handles| then handles[k] else handles[0]
  }

  /** `get_model_handle`: a linear search that returns early on the first match. */
  method GetModelHandle(name: string, handles: seq<SceneHandle>) returns (h: SceneHandle)
    requires Searchable(handles, name)
    ensures h == ModelHandle(handles, name)
  {
    var i := 0;
    while i < |handles|
      invariant 0 <= i <= |handles|
      invariant NoMatchBefore(handles, name, i)
      invariant i <= FirstMatch(handles, name)
    {
      if handles[i].path.value == name {
        return handles[i];
      }
      i := i + 1;
    }
    return handles[0];
  }

  /**
   * The scene lists of the folder's glTF assets, concatenated in folder
   * order; an asset that has not finished loading contributes nothing.
   */
  function LoadedScenes(folder: seq<GltfHandle>, loaded: map<GltfHandle, seq<SceneHandle>>): seq<SceneHandle>
  {
    if folder == [] then []
    else
      var last := folder[|folder| - 1];
      LoadedScenes(folder[..|folder| - 1], loaded) + (if last in loaded then loaded[last] else [])
  }

  /** A handle is collected exactly when it is a scene of some loaded asset of the folder. */
  lemma {:induction false} LoadedScenesMembers(folder: seq<GltfHandle>, loaded: map<GltfHandle, seq<SceneHandle>>, h: SceneHandle)
    ensures h in LoadedScenes(folder, loaded) <==>
      exists i :: 0 <= i < |folder| && folder[i] in loaded && h in loaded[folder[i]]
  {
    if folder != [] {
      var init := folder[..|folder| - 1];
      LoadedScenesMembers(init, loaded, h);
      if h in LoadedScenes(folder, loaded) && h !in LoadedScenes(init, loaded) {
        assert folder[|folder| - 1] in loaded && h in loaded[folder[|folder| - 1]];
      }
      if exists i :: 0 <= i < |folder| && folder[i] in loaded && h in loaded[folder[i]] {
        var i :| 0 <= i < |folder| && folder[i] in loaded && h in loaded[folder[i]];
        if i < |folder| - 1 {
          assert init[i] == folder[i];
        }
      }
    }
  }

  /** `load_models_early`: accumulates the scene lists, one loaded asset at a time. */
  method LoadModelsEarly(folder: seq<GltfHandle>, loaded: map<GltfHandle, seq<SceneHandle>>)
    returns (handles: seq<SceneHandle>)
    ensures handles == LoadedScenes(folder, loaded)
  {
    handles := [];
    for i := 0 to |folder|
      invariant handles == LoadedScenes(folder[..i], loaded)
    {
      assert folder[..i + 1][..i] == folder[..i];
      if folder[i] in loaded {
        handles := handles + loaded[folder[i]];
      }
    }
    assert folder[..|folder|] == folder;
  }
}
