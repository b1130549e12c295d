/** The prefab maker window (MapEdFabMakerWindow): for every model below a
    source folder it saves a prefab at the same place below a destination
    folder, creating the folders that are missing on the way. The asset
    database is a set of folder paths; what loading, instantiating and
    saving a model do is given with each model. */
module FabMaker {

  import opened Options
  import opened Paths

  // ---------------------------------------------------------------------------
  // The asset database's folders and CheckPath

  /** The folders the asset database knows, and the folders CreateFolder has
      made so far, in order, as full paths. */
  class FolderStore {
    var folders: set<string>
    var created: seq<string>

    constructor (folders: set<string>)
      ensures this.folders == folders && created == []
    {
      this.folders := folders;
      created := [];
    }

    /** AssetDatabase.IsValidFolder. */
    predicate IsValidFolder(path: string)
      reads this
    {
      path in folders
    }

    /** AssetDatabase.CreateFolder: the folder name inside parent exists
        afterwards. */
    method CreateFolder(parent: string, name: string)
      modifies this
      ensures folders == old(folders) + {parent + "/" + name}
      ensures created == old(created) + [parent + "/" + name]
    {
      folders := folders + {parent + "/" + name};
      created := created + [parent + "/" + name];
    }
  }

  /** The folder CheckPath has reached after piece i of the path: "Assets"
      followed by pieces 1 to i, each after a '/'. Piece 0 is taken to be
      "Assets" and is never looked at. */
  function CheckedPath(parts: seq<string>, i: nat): string
    requires i < |parts|
  {
    if i == 0 then "Assets" else CheckedPath(parts, i - 1) + "/" + parts[i]
  }

  /** The folders CheckPath visits before piece n: CheckedPath(parts, i)
      for 1 <= i < n. */
  function Prefixes(parts: seq<string>, n: nat): set<string>
    requires n <= |parts|
  {
    if n <= 1 then {} else Prefixes(parts, n - 1) + {CheckedPath(parts, n - 1)}
  }

  /** The folders among those that existing lacks, in the order CheckPath
      visits them. */
  function Missing(parts: seq<string>, existing: set<string>, n: nat): seq<string>
    requires n <= |parts|
  {
    if n <= 1 then []
    else
      var p := CheckedPath(parts, n - 1);
      Missing(parts, existing, n - 1) + (if p in existing then [] else [p])
  }

  /** Each visited folder lies inside every folder visited before it. */
  lemma {:induction false} CheckedPathInside(parts: seq<string>, i: nat, j: nat)
    requires i < j < |parts|
    ensures StartsWith(CheckedPath(parts, j), CheckedPath(parts, i) + "/")
  {
    var p := CheckedPath(parts, i) + "/";
    if j == i + 1 {
      assert CheckedPath(parts, j) == p + parts[j];
      assert (p + parts[j])[..|p|] == p;
    } else {
      CheckedPathInside(parts, i, j - 1);
      var q := CheckedPath(parts, j - 1);
      var tail := "/" + parts[j];
      assert CheckedPath(parts, j) == q + tail;
      assert (q + tail)[..|p|] == q[..|p|];
    }
  }

  /** A folder is visited before piece n iff it is CheckedPath(parts, i)
      for some 1 <= i < n. */
  lemma {:induction false} PrefixesMembers(parts: seq<string>, n: nat, x: string)
    requires n <= |parts|
    ensures x in Prefixes(parts, n) <==> exists i :: 1 <= i < n && x == CheckedPath(parts, i)
  {
    if n > 1 {
      PrefixesMembers(parts, n - 1, x);
      if x == CheckedPath(parts, n - 1) {
        assert 1 <= n - 1 < n && x == CheckedPath(parts, n - 1);
      }
    }
  }

  /** Every folder visited before piece n is shorter than the one reached
      at piece j >= n; in particular CheckPath never visits a folder twice. */
  lemma {:induction false} PrefixesShorter(parts: seq<string>, n: nat, j: nat)
    requires n <= j < |parts|
    ensures forall x :: x in Prefixes(parts, n) ==> |x| < |CheckedPath(parts, j)|
  {
    if n > 1 {
      PrefixesShorter(parts, n - 1, j);
      CheckedPathInside(parts, n - 1, j);
    }
  }

  /** The folders CheckPath creates are exactly the visited ones that did
      not exist. */
  lemma {:induction false} MissingMembers(parts: seq<string>, existing: set<string>, n: nat, x: string)
    requires n <= |parts|
    ensures x in Missing(parts, existing, n) <==> x in Prefixes(parts, n) && x !in existing
  {
    if n > 1 {
      MissingMembers(parts, existing, n - 1, x);
    }
  }

  /** The folders are created in order of increasing length, so none is
      created twice. */
  lemma {:induction false} MissingIncreasing(parts: seq<string>, existing: set<string>, n: nat)
    requires n <= |parts|
    ensures var m := Missing(parts, existing, n);
      forall a, b :: 0 <= a < b < |m| ==> |m[a]| < |m[b]|
  {
    if n > 1 {
      MissingIncreasing(parts, existing, n - 1);
      var front := Missing(parts, existing, n - 1);
      PrefixesShorter(parts, n - 1, n - 1);
      forall a | 0 <= a < |front|
        ensures |front[a]| < |CheckedPath(parts, n - 1)|
      {
        MissingMembers(parts, existing, n - 1, front[a]);
      }
    }
  }

  /** Once the visited folders all exist, CheckPath creates nothing. */
  lemma {:induction false} MissingNone(parts: seq<string>, existing: set<string>, n: nat)
    requires n <= |parts| && Prefixes(parts, n) <= existing
    ensures Missing(parts, existing, n) == []
  {
    if n > 1 {
      MissingNone(parts, existing, n - 1);
    }
  }

  /** CheckPath is idempotent: a second call with the same path creates
      nothing and leaves the folders as the first call left them. */
  lemma CheckPathIdempotent(parts: seq<string>, existing: set<string>)
    ensures var after := existing + Prefixes(parts, |parts|);
      Missing(parts, after, |parts|) == [] && after + Prefixes(parts, |parts|) == after
  {
    MissingNone(parts, existing + Prefixes(parts, |parts|), |parts|);
  }

  /** Folder m[k] is the one reached at piece i, and its parent, the one
      reached at piece i - 1, is "Assets", existed, or is among m[..k]. */
  predicate ParentFirst(parts: seq<string>, existing: set<string>, m: seq<string>, n: nat, k: nat, i: int)
    requires n <= |parts| && k < |m|
  {
    1 <= i < n && m[k] == CheckedPath(parts, i)
    && (i == 1 || CheckedPath(parts, i - 1) in existing || CheckedPath(parts, i - 1) in m[..k])
  }

  /** Parents come first: every folder CheckPath creates is created inside
      "Assets", inside a folder that existed before the call, or inside
      one the call created earlier. */
  lemma {:induction false} MissingParentsFirst(parts: seq<string>, existing: set<string>, n: nat, k: nat)
    requires n <= |parts| && k < |Missing(parts, existing, n)|
    ensures exists i :: ParentFirst(parts, existing, Missing(parts, existing, n), n, k, i)
  {
    var m := Missing(parts, existing, n);
    var front := Missing(parts, existing, n - 1);
    assert m[..|front|] == front;
    if k < |front| {
      MissingParentsFirst(parts, existing, n - 1, k);
      var i :| ParentFirst(parts, existing, front, n - 1, k, i);
      assert m[k] == front[k] && m[..k] == front[..k];
      assert ParentFirst(parts, existing, m, n, k, i);
    } else {
      var i := n - 1;
      assert m[k] == CheckedPath(parts, i) && m[..k] == front;
      if i > 1 && CheckedPath(parts, i - 1) !in existing {
        assert CheckedPath(parts, i - 1) in Prefixes(parts, n - 1);
        MissingMembers(parts, existing, n - 1, CheckedPath(parts, i - 1));
        assert CheckedPath(parts, i - 1) in m[..k];
      }
      assert ParentFirst(parts, existing, m, n, k, i);
    }
  }

  /** With "Assets" as first piece, the folder reached at piece i is the
      first i + 1 pieces joined by '/'. */
  lemma {:induction false} CheckedPathJoin(parts: seq<string>, i: nat)
    requires i < |parts| && parts[0] == "Assets"
    ensures CheckedPath(parts, i) == Join(parts[..i + 1], '/')
  {
    if i > 0 {
      CheckedPathJoin(parts, i - 1);
      assert parts[..i + 1] == parts[..i] + [parts[i]];
      JoinSnoc(parts[..i], parts[i], '/');
    }
  }

  /** A path below "Assets" exists once CheckPath has run on it. */
  lemma CheckPathReachesPath(existing: set<string>, path: string)
    requires var parts := Split(path, '/'); parts[0] == "Assets" && |parts| >= 2
    ensures var parts := Split(path, '/'); path in existing + Prefixes(parts, |parts|)
  {
    var parts := Split(path, '/');
    JoinSplit(path, '/');
    CheckedPathJoin(parts, |parts| - 1);
    assert parts[..|parts|] == parts;
    PrefixesMembers(parts, |parts|, path);
  }

  /** CheckPath: walks the pieces of path after the first, creating each
      folder along the way that does not exist yet. */
  method CheckPath(store: FolderStore, path: string)
    modifies store
    ensures var parts := Split(path, '/');
      store.folders == old(store.folders) + Prefixes(parts, |parts|)
      && store.created == old(store.created) + Missing(parts, old(store.folders), |parts|)
  {
    var folders := Split(path, '/');
    var checkedPath := "Assets";
    for i := 1 to |folders|
      invariant checkedPath == CheckedPath(folders, i - 1)
      invariant store.folders == old(store.folders) + Prefixes(folders, i)
      invariant store.created == old(store.created) + Missing(folders, old(store.folders), i)
    {
      PrefixesShorter(folders, i, i);
      if !store.IsValidFolder(checkedPath + "/" + folders[i]) {
        store.CreateFolder(checkedPath, folders[i]);
      }
      checkedPath := checkedPath + "/" + folders[i];
    }
  }

  // ---------------------------------------------------------------------------
  // From a model path to a prefab path

  /** The folder and the file name a prefab is saved under. */
  datatype Location = Location(dir: string, file: string)

  function PrefabPath(loc: Location): string
  {
    loc.dir + "/" + loc.file
  }

  /** Where Process saves the prefab of the model at modelPath: the model's
      path after the source root's length, put after the destination root;
      the file is that path's stem with ".prefab", the folder is its
      directory with backslashes turned into slashes. None when the model
      path is shorter than the source root: Substring then throws, and the
      exception is caught and logged. */
  function PrefabLocation(srcRoot: string, dstRoot: string, modelPath: string): (r: Option<Location>)
    ensures r.None? <==> |modelPath| < |srcRoot|
    ensures r.Some? ==> EndsWith(r.value.file, ".prefab") && '\\' !in r.value.dir
  {
    if |modelPath| < |srcRoot| then None
    else
      var prefabPath := dstRoot + modelPath[|srcRoot|..];
      Some(Location(Replace(GetDirectoryName(prefabPath), '\\', '/'),
                    GetFileNameWithoutExtension(prefabPath) + ".prefab"))
  }

  /** For a model at srcRoot + rest, with a separator in rest, the prefab
      keeps the model's place below the destination root and the model's
      stem. */
  lemma PrefabMapping(srcRoot: string, dstRoot: string, rest: string)
    requires LastSep(rest) >= 0 && '\\' !in dstRoot
    ensures PrefabLocation(srcRoot, dstRoot, srcRoot + rest)
      == Some(Location(dstRoot + Replace(GetDirectoryName(rest), '\\', '/'),
                       GetFileNameWithoutExtension(srcRoot + rest) + ".prefab"))
  {
    assert (srcRoot + rest)[|srcRoot|..] == rest;
    PathConcat(dstRoot, rest);
    PathConcat(srcRoot, rest);
    ReplaceConcat(dstRoot, GetDirectoryName(rest), '\\', '/');
    ReplaceAbsent(dstRoot, '\\', '/');
  }

  // ---------------------------------------------------------------------------
  // Process

  /** One model found below the source root: its path, whether it loads,
      whether its instance is a game object, and whether saving the prefab
      succeeds. */
  datatype Model = Model(path: string, loads: bool, isGameObject: bool, saves: bool)

  /** What Process reports for one model. */
  datatype Outcome =
    | LoadFailed(modelPath: string)
    | PathFailed(modelPath: string)
    | InstanceFailed(prefabPath: string, modelPath: string)
    | SaveFailed(prefabPath: string, modelPath: string)
    | Saved(prefabPath: string)

  /** The folder Process hands to CheckPath for a model, if it gets that far. */
  function CheckedFolder(srcRoot: string, dstRoot: string, m: Model): Option<string>
  {
    if !m.loads then None
    else match PrefabLocation(srcRoot, dstRoot, m.path)
      case None => None
      case Some(loc) => Some(loc.dir)
  }

  function OutcomeOf(srcRoot: string, dstRoot: string, m: Model): Outcome
  {
    if !m.loads then LoadFailed(m.path)
    else match PrefabLocation(srcRoot, dstRoot, m.path)
      case None => PathFailed(m.path)
      case Some(loc) =>
        if !m.isGameObject then InstanceFailed(PrefabPath(loc), m.path)
        else if !m.saves then SaveFailed(PrefabPath(loc), m.path)
        else Saved(PrefabPath(loc))
  }

  /** A prefab is saved iff the model loads, its path is at least as long
      as the source root, its instance is a game object and saving works;
      it is then saved at the path PrefabLocation gives. */
  lemma SavedExactly(srcRoot: string, dstRoot: string, m: Model)
    ensures OutcomeOf(srcRoot, dstRoot, m).Saved?
      <==> m.loads && |m.path| >= |srcRoot| && m.isGameObject && m.saves
    ensures OutcomeOf(srcRoot, dstRoot, m).Saved? ==>
      var loc := PrefabLocation(srcRoot, dstRoot, m.path).value;
      OutcomeOf(srcRoot, dstRoot, m).prefabPath == PrefabPath(loc)
      && CheckedFolder(srcRoot, dstRoot, m) == Some(loc.dir)
  {
  }

  /** The folders CheckPath visits for one model. */
  function FoldersAdded(srcRoot: string, dstRoot: string, m: Model): set<string>
  {
    match CheckedFolder(srcRoot, dstRoot, m)
      case None => {}
      case Some(dir) => Prefixes(Split(dir, '/'), |Split(dir, '/')|)
  }

  /** The folders CheckPath creates for one model, given those that exist. */
  function CreatedFor(existing: set<string>, srcRoot: string, dstRoot: string, m: Model): seq<string>
  {
    match CheckedFolder(srcRoot, dstRoot, m)
      case None => []
      case Some(dir) => Missing(Split(dir, '/'), existing, |Split(dir, '/')|)
  }

  /** The folders after CheckPath has run for each of the models in turn. */
  function FoldersAfter(existing: set<string>, srcRoot: string, dstRoot: string, ms: seq<Model>): set<string>
  {
    if |ms| == 0 then existing
    else FoldersAfter(existing, srcRoot, dstRoot, ms[..|ms| - 1]) + FoldersAdded(srcRoot, dstRoot, Last(ms))
  }

  /** The folders those CheckPath calls create, in order. */
  function CreatedAfter(existing: set<string>, srcRoot: string, dstRoot: string, ms: seq<Model>): seq<string>
  {
    if |ms| == 0 then []
    else
      var front := ms[..|ms| - 1];
      CreatedAfter(existing, srcRoot, dstRoot, front)
        + CreatedFor(FoldersAfter(existing, srcRoot, dstRoot, front), srcRoot, dstRoot, Last(ms))
  }

  /** Processing one more model. */
  lemma AfterStep(existing: set<string>, srcRoot: string, dstRoot: string, ms: seq<Model>, k: nat)
    requires k < |ms|
    ensures var before := FoldersAfter(existing, srcRoot, dstRoot, ms[..k]);
      FoldersAfter(existing, srcRoot, dstRoot, ms[..k + 1]) == before + FoldersAdded(srcRoot, dstRoot, ms[k])
      && CreatedAfter(existing, srcRoot, dstRoot, ms[..k + 1])
         == CreatedAfter(existing, srcRoot, dstRoot, ms[..k]) + CreatedFor(before, srcRoot, dstRoot, ms[k])
  {
    var upto := ms[..k + 1];
    assert upto[..k] == ms[..k] && Last(upto) == ms[k];
  }

  /** Processing never removes a folder. */
  lemma {:induction false} FoldersAfterGrows(existing: set<string>, srcRoot: string, dstRoot: string, ms: seq<Model>)
    ensures existing <= FoldersAfter(existing, srcRoot, dstRoot, ms)
  {
    if |ms| > 0 {
      FoldersAfterGrows(existing, srcRoot, dstRoot, ms[..|ms| - 1]);
    }
  }

  /** When model k's prefab is to be saved, its folder exists (for a folder
      below "Assets"), and it still does once every model is processed. */
  lemma PrefabFolderExists(existing: set<string>, srcRoot: string, dstRoot: string, ms: seq<Model>, k: nat, dir: string)
    requires k < |ms| && CheckedFolder(srcRoot, dstRoot, ms[k]) == Some(dir)
    requires Split(dir, '/')[0] == "Assets" && |Split(dir, '/')| >= 2
    ensures dir in FoldersAfter(existing, srcRoot, dstRoot, ms[..k + 1])
    ensures dir in FoldersAfter(existing, srcRoot, dstRoot, ms)
  {
    AfterStep(existing, srcRoot, dstRoot, ms, k);
    CheckPathReachesPath(FoldersAfter(existing, srcRoot, dstRoot, ms[..k]), dir);
    assert FoldersAdded(srcRoot, dstRoot, ms[k]) == Prefixes(Split(dir, '/'), |Split(dir, '/')|);
    FoldersAfterLater(existing, srcRoot, dstRoot, ms, k + 1);
  }

  /** The folders after the first n models are among those after all. */
  lemma {:induction false} FoldersAfterLater(existing: set<string>, srcRoot: string, dstRoot: string, ms: seq<Model>, n: nat)
    requires n <= |ms|
    ensures FoldersAfter(existing, srcRoot, dstRoot, ms[..n]) <= FoldersAfter(existing, srcRoot, dstRoot, ms)
  {
    if n < |ms| {
      var front := ms[..|ms| - 1];
      assert front[..n] == ms[..n];
      FoldersAfterLater(existing, srcRoot, dstRoot, front, n);
    } else {
      assert ms[..n] == ms;
    }
  }

  /** One iteration of Process's loop. */
  method MakePrefab(store: FolderStore, srcRoot: string, dstRoot: string, m: Model) returns (o: Outcome)
    modifies store
    ensures o == OutcomeOf(srcRoot, dstRoot, m)
    ensures store.folders == old(store.folders) + FoldersAdded(srcRoot, dstRoot, m)
    ensures store.created == old(store.created) + CreatedFor(old(store.folders), srcRoot, dstRoot, m)
  {
    if !m.loads {
      assert CheckedFolder(srcRoot, dstRoot, m).None?;
      return LoadFailed(m.path);
    }
    if |m.path| < |srcRoot| {
      assert CheckedFolder(srcRoot, dstRoot, m).None?;
      return PathFailed(m.path);
    }
    var prefabPath := dstRoot + m.path[|srcRoot|..];
    var prefabFile := GetFileNameWithoutExtension(prefabPath) + ".prefab";
    prefabPath := Replace(GetDirectoryName(prefabPath), '\\', '/');
    CheckPath(store, prefabPath);
    prefabPath := prefabPath + "/" + prefabFile;
    if !m.isGameObject {
      return InstanceFailed(prefabPath, m.path);
    }
    if !m.saves {
      return SaveFailed(prefabPath, m.path);
    }
    return Saved(prefabPath);
  }

  /** The k-th iteration of Process's loop, from what the first k made. */
  method ProcessNext(store: FolderStore, srcRoot: string, dstRoot: string, models: seq<Model>, k: nat,
                     ghost folders0: set<string>, ghost created0: seq<string>, done: seq<Outcome>) returns (outcomes: seq<Outcome>)
    requires k < |models| && |done| == k
    requires forall i :: 0 <= i < k ==> done[i] == OutcomeOf(srcRoot, dstRoot, models[i])
    requires store.folders == FoldersAfter(folders0, srcRoot, dstRoot, models[..k])
    requires store.created == created0 + CreatedAfter(folders0, srcRoot, dstRoot, models[..k])
    modifies store
    ensures |outcomes| == k + 1
    ensures forall i :: 0 <= i < k + 1 ==> outcomes[i] == OutcomeOf(srcRoot, dstRoot, models[i])
    ensures store.folders == FoldersAfter(folders0, srcRoot, dstRoot, models[..k + 1])
    ensures store.created == created0 + CreatedAfter(folders0, srcRoot, dstRoot, models[..k + 1])
  {
    AfterStep(folders0, srcRoot, dstRoot, models, k);
    ghost var made := CreatedAfter(folders0, srcRoot, dstRoot, models[..k]);
    ghost var more := CreatedFor(store.folders, srcRoot, dstRoot, models[k]);
    var o := MakePrefab(store, srcRoot, dstRoot, models[k]);
    outcomes := done + [o];
    AppendAssoc(created0, made, more);
    OutcomesSnoc(srcRoot, dstRoot, models, k, done, o);
  }

  lemma OutcomesSnoc(srcRoot: string, dstRoot: string, models: seq<Model>, k: nat, done: seq<Outcome>, o: Outcome)
    requires k < |models| && |done| == k
    requires forall i :: 0 <= i < k ==> done[i] == OutcomeOf(srcRoot, dstRoot, models[i])
    requires o == OutcomeOf(srcRoot, dstRoot, models[k])
    ensures forall i :: 0 <= i < k + 1 ==> (done + [o])[i] == OutcomeOf(srcRoot, dstRoot, models[i])
  {
    forall i | 0 <= i < k + 1
      ensures (done + [o])[i] == OutcomeOf(srcRoot, dstRoot, models[i])
    {
      if i < k {
        assert (done + [o])[i] == done[i];
      }
    }
  }

  /** Process: makes a prefab of every model found below the source root,
      in order, reporting each model's outcome. */
  method Process(store: FolderStore, srcRoot: string, dstRoot: string, models: seq<Model>) returns (outcomes: seq<Outcome>)
    modifies store
    ensures |outcomes| == |models|
    ensures forall i :: 0 <= i < |models| ==> outcomes[i] == OutcomeOf(srcRoot, dstRoot, models[i])
    ensures store.folders == FoldersAfter(old(store.folders), srcRoot, dstRoot, models)
    ensures store.created == old(store.created) + CreatedAfter(old(store.folders), srcRoot, dstRoot, models)
  {
    outcomes := [];
    for k := 0 to |models|
      invariant |outcomes| == k
      invariant forall i :: 0 <= i < k ==> outcomes[i] == OutcomeOf(srcRoot, dstRoot, models[i])
      invariant store.folders == FoldersAfter(old(store.folders), srcRoot, dstRoot, models[..k])
      invariant store.created == old(store.created) + CreatedAfter(old(store.folders), srcRoot, dstRoot, models[..k])
    {
      outcomes := ProcessNext(store, srcRoot, dstRoot, models, k, old(store.folders), old(store.created), outcomes);
    }
    assert models[..|models|] == models;
  }

  // ---------------------------------------------------------------------------
  // The window

  /** An interpolated string shows null as nothing. */
  function RootText(root: Option<string>): string
  {
    if root.Some? then root.value else ""
  }

  /** The folder panel returned a path inside the project's data folder. */
  predicate Chosen(dataPath: string, path: Option<string>)
  {
    path.Some? && path.value != "" && StartsWith(path.value, dataPath)
  }

  /** The guard of the Process button. */
  predicate CanProcess(srcRoot: Option<string>, dstRoot: Option<string>)
  {
    !IsNullOrWhiteSpace(srcRoot) && !IsNullOrWhiteSpace(dstRoot)
  }

  /** A root chosen through the folder panel is never blank, so once both
      roots are chosen the Process button runs. */
  lemma ChosenRootsCanProcess(dataPath: string, src: Option<string>, dst: Option<string>)
    requires Chosen(dataPath, src) && Chosen(dataPath, dst)
    ensures CanProcess(Some(FullPathToRelativePath(dataPath, src.value)),
                       Some(FullPathToRelativePath(dataPath, dst.value)))
  {
    var s := FullPathToRelativePath(dataPath, src.value);
    var d := FullPathToRelativePath(dataPath, dst.value);
    assert s[0] == 'A' && !IsWhiteSpace(s[0]);
    assert d[0] == 'A' && !IsWhiteSpace(d[0]);
  }

  /** The labels as the window builds them when it is enabled: the text
      interpolates the label field itself, which is null at that point,
      instead of the root. */
  function EnabledLabelAsWritten(prefix: string, field: Option<string>): (r: string)
    ensures |prefix| <= |r| && r[..|prefix|] == prefix
    ensures field.None? ==> r == prefix
  {
    prefix + RootText(field)
  }

  /** A root kept from an earlier session is not shown by the label built
      as written. */
  lemma EnabledLabelHidesRoot()
    ensures EnabledLabelAsWritten("Models: ", None) != "Models: " + RootText(Some("Assets/Models"))
  {
    assert |EnabledLabelAsWritten("Models: ", None)| == 8;
  }

  /** The labels as intended: each shows its root. */
  function EnabledLabel(prefix: string, root: Option<string>): (r: string)
    ensures StartsWith(r, prefix) && r[|prefix|..] == RootText(root)
  {
    prefix + RootText(root)
  }

  class FabMakerWindow {
    const dataPath: string
    var srcRoot: Option<string>
    var dstRoot: Option<string>
    var srcLabel: string
    var dstLabel: string

    /** Each label shows its root. */
    predicate LabelsShowRoots()
      reads this
    {
      srcLabel == EnabledLabel("Models: ", srcRoot) && dstLabel == EnabledLabel("Prefabs: ", dstRoot)
    }

    /** The window enabled with the roots kept from an earlier session
        (None when none was chosen), its labels built as intended, with
        EnabledLabel: the source builds them with EnabledLabelAsWritten. */
    constructor (dataPath: string, srcRoot: Option<string>, dstRoot: Option<string>)
      ensures this.dataPath == dataPath && this.srcRoot == srcRoot && this.dstRoot == dstRoot
      ensures LabelsShowRoots()
    {
      this.dataPath := dataPath;
      this.srcRoot := srcRoot;
      this.dstRoot := dstRoot;
      srcLabel := EnabledLabel("Models: ", srcRoot);
      dstLabel := EnabledLabel("Prefabs: ", dstRoot);
    }

    /** The source button, given what the folder panel returned: a path
        inside the data folder becomes the source root, as a path relative
        to the project; anything else changes nothing. */
    method OnSrcButtonClicked(path: Option<string>)
      modifies this
      ensures Chosen(dataPath, path) ==> srcRoot == Some(FullPathToRelativePath(dataPath, path.value))
      ensures !Chosen(dataPath, path) ==> srcRoot == old(srcRoot) && srcLabel == old(srcLabel)
      ensures dstRoot == old(dstRoot) && dstLabel == old(dstLabel)
      ensures old(LabelsShowRoots()) ==> LabelsShowRoots()
    {
      if path.Some? && path.value != "" && StartsWith(path.value, dataPath) {
        srcRoot := Some(FullPathToRelativePath(dataPath, path.value));
        srcLabel := "Models: " + srcRoot.value;
      }
    }

    /** The destination button, likewise for the destination root. */
    method OnDstButtonClicked(path: Option<string>)
      modifies this
      ensures Chosen(dataPath, path) ==> dstRoot == Some(FullPathToRelativePath(dataPath, path.value))
      ensures !Chosen(dataPath, path) ==> dstRoot == old(dstRoot) && dstLabel == old(dstLabel)
      ensures srcRoot == old(srcRoot) && srcLabel == old(srcLabel)
      ensures old(LabelsShowRoots()) ==> LabelsShowRoots()
    {
      if path.Some? && path.value != "" && StartsWith(path.value, dataPath) {
        dstRoot := Some(FullPathToRelativePath(dataPath, path.value));
        dstLabel := "Prefabs: " + dstRoot.value;
      }
    }

    /** The Process button: does nothing unless both roots are set and not
        blank; otherwise processes the models found below the source root. */
    method OnPrcButtonClicked(store: FolderStore, models: seq<Model>) returns (outcomes: seq<Outcome>)
      modifies store
      ensures !CanProcess(srcRoot, dstRoot) ==>
        outcomes == [] && store.folders == old(store.folders) && store.created == old(store.created)
      ensures CanProcess(srcRoot, dstRoot) ==>
        |outcomes| == |models|
        && (forall i :: 0 <= i < |models| ==> outcomes[i] == OutcomeOf(srcRoot.value, dstRoot.value, models[i]))
        && store.folders == FoldersAfter(old(store.folders), srcRoot.value, dstRoot.value, models)
        && store.created == old(store.created) + CreatedAfter(old(store.folders), srcRoot.value, dstRoot.value, models)
    {
      if IsNullOrWhiteSpace(srcRoot) || IsNullOrWhiteSpace(dstRoot) {
        return [];
      }
      outcomes := Process(store, srcRoot.value, dstRoot.value, models);
    }
  }
}
