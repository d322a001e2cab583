/** The model catalogue, the template cache and the current model selection. */
module ModelLoader {
  import opened Wrappers
  import opened Strings

  /** A node of a loaded scene graph, reduced to the flags the core reads or writes. */
  datatype Node = Node(isMesh: bool, castShadow: bool, receiveShadow: bool, visible: bool,
                       children: seq<Node>)

  /** A catalogue entry describing one model file. */
  datatype ModelEntry = ModelEntry(name: string, filename: string, path: string,
                                   thumbnail: Option<string>)

  const ModelsDirectory: string := "/src/assets/models/"

  /** The model files the catalogue lists. */
  const BundledModelFiles: seq<string> :=
    ["chair.glb", "table.glb", "sofa.glb", "bed.glb", "desk.glb", "lamp.glb", "bookshelf.glb",
     "wardrobe.glb"]

  /** The display name: the first ".glb" removed, then hyphens and underscores turned into spaces. */
  function DisplayName(filename: string): string
  {
    SeparatorsToSpaces(ReplaceFirst(filename, ".glb", ""))
  }

  function Describe(filename: string): ModelEntry
  {
    ModelEntry(DisplayName(filename), filename, ModelsDirectory + filename, None)
  }

  /** The catalogue built from a listing of file names. */
  function Catalogue(files: seq<string>): seq<ModelEntry>
  {
    seq(|files|, i requires 0 <= i < |files| => Describe(files[i]))
  }

  /** Every entry of the catalogue describes the file at the same position of the listing. */
  lemma CatalogueEntries(files: seq<string>)
    ensures |Catalogue(files)| == |files|
    ensures forall i :: 0 <= i < |files| ==>
      Catalogue(files)[i].filename == files[i]
      && Catalogue(files)[i].path == ModelsDirectory + files[i]
      && Catalogue(files)[i].thumbnail.None?
      && Catalogue(files)[i].name == DisplayName(files[i])
  {
  }

  /** A display name never contains a hyphen or an underscore. */
  lemma DisplayNameHasNoSeparators(filename: string)
    ensures forall i :: 0 <= i < |DisplayName(filename)| ==> !IsSeparator(DisplayName(filename)[i])
  {
  }

  /** For "stem.glb" whose stem holds no ".glb", the name is the stem with separators spaced out. */
  lemma DisplayNameOfGlbFile(stem: string)
    requires forall j :: 0 <= j ==> !OccursAt(stem, ".glb", j)
    ensures DisplayName(stem + ".glb") == SeparatorsToSpaces(stem)
  {
    var s := stem + ".glb";
    forall j | 0 <= j < |stem|
      ensures !OccursAt(s, ".glb", j)
    {
      if j + 4 <= |stem| {
        assert s[j..j + 4] == stem[j..j + 4] && !OccursAt(stem, ".glb", j);
      } else {
        var k := |stem| - j;
        assert 1 <= k <= 3 && s[|stem|] == '.';
        if j + 4 <= |s| {
          assert s[j..j + 4][k] == s[|stem|];
          assert ".glb"[k] != '.';
        }
      }
    }
    assert OccursAt(s, ".glb", |stem|) by {
      assert s[|stem|..|stem| + 4] == ".glb";
    }
    assert IndexOf(s, ".glb") == Some(|stem|);
    assert s[..|stem|] == stem;
    assert s[|stem| + 4..] == "";
    assert ReplaceFirst(s, ".glb", "") == stem;
  }

  /** A plain stem (no dot, no separator) followed by ".glb" is displayed as the stem itself. */
  lemma PlainGlbName(stem: string)
    requires forall i :: 0 <= i < |stem| ==> stem[i] != '.' && !IsSeparator(stem[i])
    ensures DisplayName(stem + ".glb") == stem
  {
    forall j | 0 <= j
      ensures !OccursAt(stem, ".glb", j)
    {
      if j + 4 <= |stem| {
        assert stem[j..j + 4][0] == stem[j];
      }
    }
    DisplayNameOfGlbFile(stem);
    assert SeparatorsToSpaces(stem) == stem;
  }

  /** The catalogue lists one entry per bundled file; the first describes the chair. */
  lemma BundledCatalogueStart()
    ensures |Catalogue(BundledModelFiles)| == 8
    ensures Catalogue(BundledModelFiles)[0]
            == ModelEntry("chair", "chair.glb", ModelsDirectory + "chair.glb", None)
  {
    assert BundledModelFiles[0] == "chair" + ".glb";
    PlainGlbName("chair");
  }

  /** Only the first ".glb" is removed. */
  lemma DisplayNameRemovesFirstGlbOnly()
    ensures DisplayName("a.glb.glb") == "a.glb"
  {
    var s := "a.glb.glb";
    assert s[0..4][0] == 'a';
    assert !OccursAt(s, ".glb", 0);
    assert OccursAt(s, ".glb", 1);
    assert IndexOf(s, ".glb") == Some(1);
    assert ReplaceFirst(s, ".glb", "") == "a.glb";
  }

  /** Marks every mesh of the tree as casting and receiving shadows; nothing else changes. */
  function WithShadows(n: Node): Node
  {
    Node(n.isMesh, n.isMesh || n.castShadow, n.isMesh || n.receiveShadow, n.visible,
         seq(|n.children|, i requires 0 <= i < |n.children| => WithShadows(n.children[i])))
  }

  /** Every mesh in the tree casts and receives shadows. */
  predicate ShadowsOn(n: Node)
  {
    (n.isMesh ==> n.castShadow && n.receiveShadow)
    && forall i :: 0 <= i < |n.children| ==> ShadowsOn(n.children[i])
  }

  /** `b` is `a` with, at most, shadow flags raised on meshes: same shape, same non-mesh nodes. */
  predicate OnlyShadowsRaised(a: Node, b: Node)
  {
    a.isMesh == b.isMesh && a.visible == b.visible
    && (!a.isMesh ==> b.castShadow == a.castShadow && b.receiveShadow == a.receiveShadow)
    && |a.children| == |b.children|
    && forall i :: 0 <= i < |a.children| ==> OnlyShadowsRaised(a.children[i], b.children[i])
  }

  lemma {:induction false} WithShadowsMarksMeshes(n: Node)
    ensures ShadowsOn(WithShadows(n))
    ensures OnlyShadowsRaised(n, WithShadows(n))
  {
    var r := WithShadows(n);
    forall i | 0 <= i < |n.children|
      ensures ShadowsOn(r.children[i]) && OnlyShadowsRaised(n.children[i], r.children[i])
    {
      WithShadowsMarksMeshes(n.children[i]);
    }
  }

  /** A tree whose meshes already cast and receive shadows is left as it is. */
  lemma {:induction false} WithShadowsFixesShadowed(n: Node)
    requires ShadowsOn(n)
    ensures WithShadows(n) == n
  {
    var r := WithShadows(n);
    forall i | 0 <= i < |n.children|
      ensures r.children[i] == n.children[i]
    {
      WithShadowsFixesShadowed(n.children[i]);
    }
    assert r.children == n.children;
  }

  lemma WithShadowsIdempotent(n: Node)
    ensures WithShadows(WithShadows(n)) == WithShadows(n)
  {
    WithShadowsMarksMeshes(n);
    WithShadowsFixesShadowed(WithShadows(n));
  }

  /** The selection after selecting `m`: cleared when the current one has `m`'s file name. */
  function Toggled(current: Option<ModelEntry>, m: ModelEntry): (r: Option<ModelEntry>)
    ensures r.None? <==> current.Some? && current.value.filename == m.filename
    ensures r.Some? ==> r.value == m
  {
    if current.Some? && current.value.filename == m.filename then None else Some(m)
  }

  /** Selecting the same model twice returns to where it started, up to which entry is held. */
  lemma ToggledTwice(current: Option<ModelEntry>, m: ModelEntry)
    ensures Toggled(Toggled(current, m), m)
            == (if current.Some? && current.value.filename == m.filename then Some(m) else None)
  {
  }

  /** The state of the composable: its reactive values, the template cache and a log of the
      paths handed to the external GLTF loader. */
  class Loader {
    var availableModels: seq<ModelEntry>
    var isLoadingModels: bool
    /** Every value assigned to `isLoadingModels`, in order. */
    ghost var loadingHistory: seq<bool>
    var selectedModel: Option<ModelEntry>
    var loadedModels: map<string, Node>
    var loaderRequests: seq<string>

    /** Every cached template has been prepared for shadows. */
    ghost predicate Valid()
      reads this
    {
      forall p :: p in loadedModels ==> ShadowsOn(loadedModels[p])
    }

    constructor ()
      ensures Valid()
      ensures availableModels == [] && !isLoadingModels && loadingHistory == []
      ensures selectedModel == None && loadedModels == map[] && loaderRequests == []
    {
      availableModels := [];
      isLoadingModels := false;
      loadingHistory := [];
      selectedModel := None;
      loadedModels := map[];
      loaderRequests := [];
    }

    /** Lists the model files; `listing` is the listing's outcome. The catalogue is replaced only
        on success, and the loading flag is raised during the listing and lowered after it. */
    method LoadAvailableModels(listing: Result<seq<string>>)
      requires Valid()
      modifies this
      ensures Valid()
      ensures listing.Ok? ==> availableModels == Catalogue(listing.value)
      ensures listing.Err? ==> availableModels == old(availableModels)
      ensures !isLoadingModels && loadingHistory == old(loadingHistory) + [true, false]
      ensures selectedModel == old(selectedModel) && loadedModels == old(loadedModels)
      ensures loaderRequests == old(loaderRequests)
    {
      isLoadingModels := true;
      loadingHistory := loadingHistory + [true];
      if listing.Ok? {
        availableModels := Catalogue(listing.value);
      }
      isLoadingModels := false;
      loadingHistory := loadingHistory + [false];
    }

    /** Returns a clone of the template for `modelPath`. A cached template is returned without
        consulting the loader. Otherwise the loader is asked, and `outcome` is what it delivers:
        a scene graph, which is prepared for shadows and cached, or a failure, which leaves the
        cache as it was. */
    method LoadModel(modelPath: string, outcome: Result<Node>) returns (r: Result<Node>)
      requires Valid()
      modifies this
      ensures Valid()
      ensures r.Ok? ==> ShadowsOn(r.value)
      ensures modelPath in old(loadedModels) ==>
        r == Ok(old(loadedModels)[modelPath]) && loadedModels == old(loadedModels)
        && loaderRequests == old(loaderRequests)
      ensures modelPath !in old(loadedModels) ==> loaderRequests == old(loaderRequests) + [modelPath]
      ensures modelPath !in old(loadedModels) && outcome.Ok? ==>
        r == Ok(WithShadows(outcome.value))
        && loadedModels == old(loadedModels)[modelPath := WithShadows(outcome.value)]
      ensures modelPath !in old(loadedModels) && outcome.Err? ==>
        r == Err(outcome.cause) && loadedModels == old(loadedModels)
      ensures availableModels == old(availableModels) && isLoadingModels == old(isLoadingModels)
      ensures selectedModel == old(selectedModel) && loadingHistory == old(loadingHistory)
    {
      if modelPath in loadedModels {
        return Ok(loadedModels[modelPath]);
      }
      loaderRequests := loaderRequests + [modelPath];
      match outcome {
        case Ok(scene) =>
          var model := WithShadows(scene);
          WithShadowsMarksMeshes(scene);
          loadedModels := loadedModels[modelPath := model];
          r := Ok(model);
        case Err(cause) =>
          r := Err(cause);
      }
    }

    method SelectModel(m: ModelEntry)
      modifies this
      ensures selectedModel == Toggled(old(selectedModel), m)
      ensures availableModels == old(availableModels) && isLoadingModels == old(isLoadingModels)
      ensures loadedModels == old(loadedModels) && loaderRequests == old(loaderRequests)
      ensures loadingHistory == old(loadingHistory)
    {
      selectedModel := if selectedModel.Some? && selectedModel.value.filename == m.filename
                       then None else Some(m);
    }

    method ClearSelection()
      modifies this
      ensures selectedModel == None
      ensures availableModels == old(availableModels) && isLoadingModels == old(isLoadingModels)
      ensures loadedModels == old(loadedModels) && loaderRequests == old(loaderRequests)
      ensures loadingHistory == old(loadingHistory)
    {
      selectedModel := None;
    }
  }
}
