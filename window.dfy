/** The main editor window (MapEdWindow): a dropdown of the prefab folders
    below a chosen root, and a grouped view of thumbnail tiles, one group
    per folder, whose thumbnails the icon generator fills in as they are
    made. The asset database is a folder tree, a search from folder to
    asset guids and a map from guid to asset path. */
module Window {

  import opened Options
  import opened Paths
  import opened Thumbs
  import opened GroupedView
  import opened Settings

  // ---------------------------------------------------------------------------
  // The folder tree

  /** A folder of the asset database and its subfolders, in the order
      AssetDatabase.GetSubFolders lists them. */
  datatype Folder = Folder(path: string, children: seq<Folder>)

  /** Pre-order listing of the folders below the first k subfolders of n:
      each subfolder, then everything below it. */
  function Walk(n: Folder, k: nat): seq<string>
    requires k <= |n.children|
    decreases n, k
  {
    if k == 0 then []
    else
      var c := n.children[k - 1];
      Walk(n, k - 1) + [c.path] + Walk(c, |c.children|)
  }

  /** Every folder below n, in pre-order; n itself is not listed. */
  function Descendants(n: Folder): seq<string>
  {
    Walk(n, |n.children|)
  }

  /** s is a folder strictly below n. */
  predicate Below(n: Folder, s: Folder)
    decreases n
  {
    exists i :: 0 <= i < |n.children| && (n.children[i] == s || Below(n.children[i], s))
  }

  /** Subfolder paths extend their parent's path by '/' and a name, and
      every path has a non-empty segment. */
  predicate WellFormed(n: Folder)
    decreases n
  {
    HasSegment(n.path)
    && forall i :: 0 <= i < |n.children| ==>
         StartsWith(n.children[i].path, n.path + "/") && WellFormed(n.children[i])
  }

  /** x occurs as a contiguous block of y. */
  ghost predicate Infix(x: seq<string>, y: seq<string>)
  {
    exists a :: InfixAt(x, y, a)
  }

  predicate InfixAt(x: seq<string>, y: seq<string>, a: int)
  {
    0 <= a && a + |x| <= |y| && y[a..a + |x|] == x
  }

  lemma InfixConcat(x: seq<string>, y: seq<string>, pre: seq<string>, post: seq<string>)
    requires Infix(x, y)
    ensures Infix(x, pre + y + post)
  {
    var a :| InfixAt(x, y, a);
    var z := pre + y + post;
    assert |z| == |pre| + |y| + |post|;
    assert z[|pre| + a..|pre| + a + |x|] == y[a..a + |x|];
    assert InfixAt(x, z, |pre| + a);
  }

  lemma WalkPrefix(n: Folder, k: nat, m: nat)
    requires k <= m <= |n.children|
    ensures |Walk(n, k)| <= |Walk(n, m)| && Walk(n, m)[..|Walk(n, k)|] == Walk(n, k)
    decreases m
  {
    if k < m {
      WalkPrefix(n, k, m - 1);
    }
  }

  /** Pre-order: every folder below n appears in n's listing immediately
      followed by everything below it, so a parent always comes before its
      children. */
  lemma {:induction false} SubtreeBlock(n: Folder, s: Folder)
    requires Below(n, s)
    ensures Infix([s.path] + Descendants(s), Descendants(n))
    decreases n
  {
    var i :| 0 <= i < |n.children| && (n.children[i] == s || Below(n.children[i], s));
    var c := n.children[i];
    var before := Walk(n, i);
    var block := [c.path] + Descendants(c);
    AppendAssoc(before, [c.path], Descendants(c));
    WalkPrefix(n, i + 1, |n.children|);
    var after := Descendants(n)[|Walk(n, i + 1)|..];
    assert Descendants(n) == Descendants(n)[..|Walk(n, i + 1)|] + after;
    assert Descendants(n) == before + block + after;
    if c == s {
      assert block[0..|block|] == block;
      assert InfixAt(block, block, 0);
    } else {
      SubtreeBlock(c, s);
      InfixConcat([s.path] + Descendants(s), Descendants(c), [c.path], []);
      assert [c.path] + Descendants(c) + [] == block;
    }
    InfixConcat([s.path] + Descendants(s), block, before, after);
  }

  /** A path is listed below n iff some folder below n has it. */
  lemma {:induction false} DescendantsMembers(n: Folder, p: string)
    ensures p in Descendants(n) <==> exists s :: Below(n, s) && s.path == p
    decreases n
  {
    WalkMembers(n, |n.children|, p);
  }

  lemma {:induction false} WalkMembers(n: Folder, k: nat, p: string)
    requires k <= |n.children|
    ensures p in Walk(n, k) <==> exists i, s :: 0 <= i < k && (n.children[i] == s || Below(n.children[i], s)) && s.path == p
    decreases n, k
  {
    if k > 0 {
      var c := n.children[k - 1];
      WalkMembers(n, k - 1, p);
      DescendantsMembers(c, p);
      if p in Walk(n, k) {
        if p !in Walk(n, k - 1) {
          if p == c.path {
            assert 0 <= k - 1 < k && n.children[k - 1] == c && c.path == p;
          } else {
            assert p in Descendants(c);
            var s :| Below(c, s) && s.path == p;
            assert 0 <= k - 1 < k && Below(n.children[k - 1], s) && s.path == p;
          }
        }
      } else {
        forall i, s | 0 <= i < k && (n.children[i] == s || Below(n.children[i], s))
          ensures s.path != p
        {
          if i == k - 1 {
            if n.children[i] != s {
              assert Below(c, s);
            }
          }
        }
      }
    }
  }

  /** In a well-formed tree every folder listed below n lies inside n. */
  lemma {:induction false} DescendantsInside(n: Folder)
    requires WellFormed(n)
    ensures forall p :: p in Descendants(n) ==> StartsWith(p, n.path + "/") && HasSegment(p)
    decreases n
  {
    WalkInside(n, |n.children|);
    assert (n.path + "/")[..|n.path|] == n.path;
    HasSegmentExtends(n.path + "/", n.path);
    forall p | p in Descendants(n)
      ensures HasSegment(p)
    {
      HasSegmentExtends(p, n.path + "/");
    }
  }

  lemma HasSegmentExtends(p: string, q: string)
    requires StartsWith(p, q) && HasSegment(q)
    ensures HasSegment(p)
  {
    var i :| 0 <= i < |q| && q[i] != '/';
    assert p[..|q|][i] == p[i];
  }

  lemma {:induction false} WalkInside(n: Folder, k: nat)
    requires WellFormed(n) && k <= |n.children|
    ensures forall p :: p in Walk(n, k) ==> StartsWith(p, n.path + "/")
    decreases n, k
  {
    if k > 0 {
      var c := n.children[k - 1];
      WalkInside(n, k - 1);
      DescendantsInside(c);
      forall p | p in Descendants(c)
        ensures StartsWith(p, n.path + "/")
      {
        StartsWithTrans(p, c.path + "/", n.path + "/");
      }
    }
  }

  lemma StartsWithTrans(a: string, b: string, c: string)
    requires StartsWith(a, b) && StartsWith(b, c)
    ensures StartsWith(a, c)
  {
    assert a[..|c|] == b[..|b|][..|c|];
  }

  /** The first folder in pre-order with the given path among the first k
      subfolders of n and what lies below them. */
  function FindIn(n: Folder, path: string, k: nat): (r: Option<Folder>)
    requires k <= |n.children|
    ensures r.Some? ==> r.value.path == path
    decreases n, k
  {
    if k == 0 then None
    else
      match FindIn(n, path, k - 1)
        case Some(f) => Some(f)
        case None =>
          var c := n.children[k - 1];
          if c.path == path then Some(c) else FindIn(c, path, |c.children|)
  }

  /** The folder AssetDatabase.GetSubFolders looks at for a path: the
      tree's folder with that path, or an empty folder when there is none. */
  function FolderAt(db: Folder, path: string): (r: Folder)
    ensures r.path == path
  {
    if db.path == path then db
    else match FindIn(db, path, |db.children|)
      case Some(f) => f
      case None => Folder(path, [])
  }

  lemma {:induction false} FindInWellFormed(n: Folder, path: string, k: nat)
    requires WellFormed(n) && k <= |n.children| && HasSegment(path)
    ensures FindIn(n, path, k).Some? ==> WellFormed(FindIn(n, path, k).value)
    decreases n, k
  {
    if k > 0 {
      FindInWellFormed(n, path, k - 1);
      var c := n.children[k - 1];
      FindInWellFormed(c, path, |c.children|);
    }
  }

  /** The folder for a path in a well-formed tree is well formed. */
  lemma FolderAtWellFormed(db: Folder, path: string)
    requires WellFormed(db) && HasSegment(path)
    ensures WellFormed(FolderAt(db, path))
  {
    FindInWellFormed(db, path, |db.children|);
  }

  /** The list of folders GetPrefabFolders returns: the folder itself when
      asked for, then every folder below it in pre-order. */
  function PrefabFolders(n: Folder, includeRoot: bool): seq<string>
  {
    (if includeRoot then [n.path] else []) + Descendants(n)
  }

  /** In a well-formed tree the folder itself heads the list iff it was
      asked for, and appears nowhere else. */
  lemma RootFirstIff(n: Folder, includeRoot: bool)
    requires WellFormed(n)
    ensures var r := PrefabFolders(n, includeRoot);
      (|r| > 0 && r[0] == n.path) <==> includeRoot
    ensures n.path !in Descendants(n)
  {
    DescendantsInside(n);
    var r := PrefabFolders(n, includeRoot);
    if !includeRoot && |r| > 0 {
      assert r[0] in Descendants(n);
    }
  }

  /** A folder list in the making, appended to in place. */
  class FolderList {
    var items: seq<string>

    constructor ()
      ensures items == []
    {
      items := [];
    }

    method Add(p: string)
      modifies this
      ensures items == old(items) + [p]
    {
      items := items + [p];
    }
  }

  /** GetSubFoldersRecursively: appends each subfolder, then what lies
      below it, in the order the database lists them. */
  method GetSubFoldersRecursively(node: Folder, list: FolderList)
    modifies list
    ensures list.items == old(list.items) + Descendants(node)
    decreases node
  {
    var paths := node.children;
    for i := 0 to |paths|
      invariant list.items == old(list.items) + Walk(node, i)
    {
      var p := paths[i];
      ghost var before := list.items;
      list.Add(p.path);
      GetSubFoldersRecursively(p, list);
      AppendAssoc(old(list.items), Walk(node, i), [p.path]);
      AppendAssoc(old(list.items), Walk(node, i) + [p.path], Descendants(p));
    }
  }

  /** GetPrefabFolders. */
  method GetPrefabFolders(node: Folder, includeRoot: bool) returns (res: seq<string>)
    ensures res == PrefabFolders(node, includeRoot)
  {
    var list := new FolderList();
    if includeRoot {
      list.Add(node.path);
    }
    GetSubFoldersRecursively(node, list);
    res := list.items;
  }

  // ---------------------------------------------------------------------------
  // The guids to generate thumbnails for

  /** acc followed by the elements of xs it does not hold yet, each at its
      first occurrence. */
  function AddNew(acc: seq<string>, xs: seq<string>): seq<string>
  {
    if |xs| == 0 then acc
    else
      var a := AddNew(acc, xs[..|xs| - 1]);
      if Last(xs) in a then a else a + [Last(xs)]
  }

  function Dedup(xs: seq<string>): seq<string>
  {
    AddNew([], xs)
  }

  lemma AddNewSnoc(acc: seq<string>, xs: seq<string>, x: string)
    ensures AddNew(acc, xs + [x]) == if x in AddNew(acc, xs) then AddNew(acc, xs) else AddNew(acc, xs) + [x]
  {
    assert (xs + [x])[..|xs|] == xs;
  }

  predicate Distinct(xs: seq<string>)
  {
    forall i, j :: 0 <= i < j < |xs| ==> xs[i] != xs[j]
  }

  /** AddNew keeps what acc holds and adds exactly the elements of xs. */
  lemma {:induction false} AddNewMembers(acc: seq<string>, xs: seq<string>, x: string)
    ensures x in AddNew(acc, xs) <==> x in acc || x in xs
  {
    if |xs| > 0 {
      var front := xs[..|xs| - 1];
      AddNewMembers(acc, front, x);
      assert xs == front + [Last(xs)];
    }
  }

  lemma {:induction false} AddNewDistinct(acc: seq<string>, xs: seq<string>)
    requires Distinct(acc)
    ensures Distinct(AddNew(acc, xs))
  {
    if |xs| > 0 {
      AddNewDistinct(acc, xs[..|xs| - 1]);
    }
  }

  lemma {:induction false} AddNewPrefix(acc: seq<string>, xs: seq<string>)
    ensures |acc| <= |AddNew(acc, xs)| && AddNew(acc, xs)[..|acc|] == acc
  {
    if |xs| > 0 {
      AddNewPrefix(acc, xs[..|xs| - 1]);
    }
  }

  /** Adding two lists in turn is adding them joined. */
  lemma {:induction false} AddNewAppend(acc: seq<string>, xs: seq<string>, ys: seq<string>)
    ensures AddNew(AddNew(acc, xs), ys) == AddNew(acc, xs + ys)
  {
    if |ys| == 0 {
      assert xs + ys == xs;
    } else {
      var front := ys[..|ys| - 1];
      AddNewAppend(acc, xs, front);
      assert (xs + ys)[..|xs + ys| - 1] == xs + front;
    }
  }

  /** The index of the first occurrence of x in xs. */
  function FirstIndex(xs: seq<string>, x: string): (r: nat)
    requires x in xs
    ensures r < |xs| && xs[r] == x && x !in xs[..r]
  {
    if xs[0] == x then 0
    else
      assert x in xs[1..];
      var r := 1 + FirstIndex(xs[1..], x);
      assert xs[1..][..r - 1] == xs[1..r];
      r
  }

  lemma FirstIndexPrefix(xs: seq<string>, ys: seq<string>, x: string)
    requires x in xs
    ensures FirstIndex(xs + ys, x) == FirstIndex(xs, x)
  {
    var j := FirstIndex(xs, x);
    assert (xs + ys)[j] == x;
    assert (xs + ys)[..j] == xs[..j];
  }

  /** Dedup lists every guid found, once, in the order of first sight. */
  lemma {:induction false} DedupSpec(xs: seq<string>)
    ensures Distinct(Dedup(xs))
    ensures forall x :: x in Dedup(xs) <==> x in xs
    ensures forall i, j :: 0 <= i < j < |Dedup(xs)| ==>
      FirstIndex(xs, Dedup(xs)[i]) < FirstIndex(xs, Dedup(xs)[j])
  {
    AddNewDistinct([], xs);
    forall x
      ensures x in Dedup(xs) <==> x in xs
    {
      AddNewMembers([], xs, x);
    }
    if |xs| > 0 {
      var front := xs[..|xs| - 1];
      DedupSpec(front);
      var d := Dedup(front);
      assert xs == front + [Last(xs)];
      forall i | 0 <= i < |d|
        ensures FirstIndex(xs, d[i]) == FirstIndex(front, d[i])
      {
        FirstIndexPrefix(front, [Last(xs)], d[i]);
      }
      if Last(xs) !in d {
        assert Last(xs) !in front;
        assert FirstIndex(xs, Last(xs)) == |xs| - 1;
      }
    }
  }

  // ---------------------------------------------------------------------------
  // The folders dropdown

  /** A dropdown entry: an action with its name and the folder index its
      callback passes on (-1 for "All Prefabs"), or a separator. */
  datatype MenuItem = Action(name: string, index: int) | Separator

  const AllPrefabs := "All Prefabs"
  const ChooseFolder := "Choose folder ->"

  /** The entries for the first n folders, each named by its path without
      the root and the '/' after it. */
  function FolderEntries(root: string, folders: seq<string>, n: nat): seq<MenuItem>
    requires n <= |folders|
    requires forall i :: 0 <= i < |folders| ==> StartsWith(folders[i], root + "/")
  {
    if n == 0 then []
    else FolderEntries(root, folders, n - 1) + [Action(folders[n - 1][|root| + 1..], n - 1)]
  }

  /** The dropdown after a rebuild: "All Prefabs", a separator, then one
      entry per folder in order; each folder's entry carries its index, and
      root, '/' and the entry's name give back the folder's path. */
  lemma {:induction false} FolderEntriesSpec(root: string, folders: seq<string>, n: nat)
    requires n <= |folders|
    requires forall i :: 0 <= i < |folders| ==> StartsWith(folders[i], root + "/")
    ensures |FolderEntries(root, folders, n)| == n
    ensures forall i :: 0 <= i < n ==>
      FolderEntries(root, folders, n)[i].Action? && FolderEntries(root, folders, n)[i].index == i
      && root + "/" + FolderEntries(root, folders, n)[i].name == folders[i]
  {
    if n > 0 {
      FolderEntriesSpec(root, folders, n - 1);
      var f := folders[n - 1];
      assert f[..|root| + 1] == root + "/";
      assert f == f[..|root| + 1] + f[|root| + 1..];
    }
  }

  /** The dropdown's text for the selected index. */
  function ActiveLabel(idx: int, folders: seq<string>, root: string): string
    requires forall i :: 0 <= i < |folders| ==> HasSegment(folders[i])
  {
    if idx < 0 || idx >= |folders| then (if root == "" then ChooseFolder else AllPrefabs)
    else GetLastDirInPath(folders[idx])
  }

  /** The folder whose thumbnails the selected index shows ("" for none). */
  function ActiveFolder(idx: int, folders: seq<string>, root: string): string
  {
    if idx < 0 || idx >= |folders| then root else folders[idx]
  }

  /** The dropdown names what it shows: a folder entry is labelled with the
      last directory of the folder shown; otherwise the root's thumbnails are
      shown under "All Prefabs", or nothing under "Choose folder ->". */
  lemma ActiveLabelNamesFolder(idx: int, folders: seq<string>, root: string)
    requires forall i :: 0 <= i < |folders| ==> HasSegment(folders[i])
    ensures 0 <= idx < |folders| ==>
      ActiveLabel(idx, folders, root) == GetLastDirInPath(ActiveFolder(idx, folders, root))
      && '/' !in ActiveLabel(idx, folders, root) && ActiveLabel(idx, folders, root) != ""
    ensures !(0 <= idx < |folders|) ==>
      ActiveFolder(idx, folders, root) == root
      && (ActiveLabel(idx, folders, root) == ChooseFolder <==> root == "")
  {
    if 0 <= idx < |folders| {
      LastDirShape(folders[idx]);
    }
  }

  // ---------------------------------------------------------------------------
  // The thumbnails list

  const IconWarning := "\U{EA03}"
  const IconCollapse := "\U{EA04}"
  const IconExpand := "\U{EA05}"
  const IconLoading := "\U{EA06}"
  const ThumbsFolderName := "/Library/plyMapEdThumbs/"

  /** Every guid the search finds in the given folders, folder by folder. */
  function AllFound(find: string -> seq<string>, folders: seq<string>): seq<string>
  {
    if |folders| == 0 then [] else AllFound(find, folders[..|folders| - 1]) + find(Last(folders))
  }

  /** The guids gathered from the first k folders, each kept once. */
  function GatheredGuids(find: string -> seq<string>, folders: seq<string>, k: nat): seq<string>
    requires k <= |folders|
  {
    if k == 0 then [] else AddNew(GatheredGuids(find, folders, k - 1), find(folders[k - 1]))
  }

  /** Gathering folder by folder is de-duplicating everything found. */
  lemma {:induction false} GatheredGuidsDedup(find: string -> seq<string>, folders: seq<string>, k: nat)
    requires k <= |folders|
    ensures GatheredGuids(find, folders, k) == Dedup(AllFound(find, folders[..k]))
  {
    if k > 0 {
      GatheredGuidsDedup(find, folders, k - 1);
      assert folders[..k][..k - 1] == folders[..k - 1];
      AddNewAppend([], AllFound(find, folders[..k - 1]), find(folders[k - 1]));
    }
  }

  /** The folders whose tiles are shown for path: the folders below it in
      pre-order, headed by path itself unless path is the root, and path
      alone when that list is empty. */
  function ShownFolders(db: Folder, root: string, path: string): seq<string>
  {
    var f := PrefabFolders(FolderAt(db, path), root != path);
    if |f| == 0 then [path] else f
  }

  /** There is always a group to show; each shown folder is path or inside
      it; path heads the groups iff it is not the root or has no subfolders. */
  lemma ShownFoldersSpec(db: Folder, root: string, path: string)
    requires WellFormed(db) && HasSegment(path)
    ensures var r := ShownFolders(db, root, path);
      |r| >= 1
      && (forall i :: 0 <= i < |r| ==> HasSegment(r[i]) && (r[i] == path || StartsWith(r[i], path + "/")))
      && (r[0] == path <==> (root != path || Descendants(FolderAt(db, path)) == []))
  {
    var n := FolderAt(db, path);
    FolderAtWellFormed(db, path);
    DescendantsInside(n);
    RootFirstIff(n, root != path);
  }

  /** What LoadThumbs hands the icon generator. */
  datatype IconRequest = IconRequest(thumbsRoot: string, guids: seq<string>, force: bool,
                                     useLight: bool, lightIntensity: real)

  /** The window's own fields, together. */
  datatype WindowState = WindowState(prefabsRootPath: string, prefabFolders: seq<string>,
                                     dropdownText: string, menu: seq<MenuItem>, collapseText: string,
                                     thumbItems: Option<seq<ThumbItem>>, lastRequest: Option<IconRequest>)

  predicate RootOk(path: string)
  {
    path == "" || HasSegment(path)
  }

  /** A tile just made for guid: labelled with its asset's file name,
      showing the loading glyph, sized and owned as the view's tiles are. */
  ghost predicate ItemFor(it: ThumbItem, guid: string, text: string, size: int, autoDestroy: bool)
    reads it
  {
    it.Valid() && it.userData == guid && it.labelText == text && it.labelVisible
    && it.status == Some(IconLoading) && it.thumb == None
    && it.loadIcon == IconLoading && it.errorIcon == IconWarning
    && it.size == size && it.autoDestroyUnusedThumbImage == autoDestroy
  }

  /** The tile labels for guids: each asset's file name without extension. */
  function Labels(assetPath: string -> string, guids: seq<string>): (r: seq<string>)
    ensures |r| == |guids|
  {
    if |guids| == 0 then [] else Labels(assetPath, guids[..|guids| - 1]) + [GetFileNameWithoutExtension(assetPath(Last(guids)))]
  }

  /** Each tile is labelled with its own asset's file name. */
  lemma {:induction false} LabelsSpec(assetPath: string -> string, guids: seq<string>, j: int)
    requires 0 <= j < |guids|
    ensures Labels(assetPath, guids)[j] == GetFileNameWithoutExtension(assetPath(guids[j]))
  {
    if j < |guids| - 1 {
      LabelsSpec(assetPath, guids[..|guids| - 1], j);
    }
  }

  /** A new loading tile for guid, appended to group. */
  method AddTile(view: GroupedItemsView, group: Foldout, guid: string, text: string)
    modifies group
    ensures group.text == old(group.text) && group.value == old(group.value)
    ensures |group.items| == |old(group.items)| + 1 && group.items[..|old(group.items)|] == old(group.items)
    ensures fresh(Last(group.items))
    ensures ItemFor(Last(group.items), guid, text, view.itemSize, view.autoDestroyUnusedThumbImage)
  {
    var item := new ThumbItem(Some(text), IconLoading, IconWarning);
    item.userData := guid;
    view.AddItemToGroup(group, item);
    assert group.items[..|old(group.items)|] == old(group.items);
  }

  /** The inner loop of PopulateThumbsList that makes the tiles: a loading
      tile per guid, with its label, appended to group. */
  method FillGroup(view: GroupedItemsView, group: Foldout, guids: seq<string>, labels: seq<string>)
    requires group.items == [] && |labels| == |guids|
    modifies group
    ensures group.text == old(group.text) && group.value == old(group.value)
    ensures |group.items| == |guids|
    ensures forall j :: 0 <= j < |guids| ==> fresh(group.items[j])
    ensures forall j :: 0 <= j < |guids| ==>
      ItemFor(group.items[j], guids[j], labels[j], view.itemSize, view.autoDestroyUnusedThumbImage)
  {
    for j := 0 to |guids|
      invariant group.text == old(group.text) && group.value == old(group.value)
      invariant |group.items| == j
      invariant forall jj :: 0 <= jj < j ==> fresh(group.items[jj])
      invariant forall jj :: 0 <= jj < j ==>
        ItemFor(group.items[jj], guids[jj], labels[jj], view.itemSize, view.autoDestroyUnusedThumbImage)
    {
      AddTile(view, group, guids[j], labels[j]);
    }
  }

  /** The other half of that inner loop: each guid not in acc yet is added. */
  method AddNewGuids(acc: seq<string>, guids: seq<string>) returns (res: seq<string>)
    ensures res == AddNew(acc, guids)
  {
    res := acc;
    for j := 0 to |guids|
      invariant res == AddNew(acc, guids[..j])
    {
      var guid := guids[j];
      assert guids[..j + 1] == guids[..j] + [guid];
      AddNewSnoc(acc, guids[..j], guid);
      if guid !in res {
        res := res + [guid];
      }
    }
    assert guids[..|guids|] == guids;
  }

  /** The guids found in the folders, in a pass of their own: each once,
      in the order first found. */
  method GatherGuids(find: string -> seq<string>, folders: seq<string>) returns (guids: seq<string>)
    ensures guids == Dedup(AllFound(find, folders))
  {
    guids := [];
    for k := 0 to |folders|
      invariant guids == GatheredGuids(find, folders, k)
    {
      guids := AddNewGuids(guids, find(folders[k]));
    }
    GatheredGuidsDedup(find, folders, |folders|);
    assert folders[..|folders|] == folders;
  }

  // ---------------------------------------------------------------------------
  // Thumbnails from the generator

  /** What ShowThumb(true, texture) leaves on a tile: the texture and no
      status, or, without a texture, no thumbnail and the error glyph. */
  ghost predicate ThumbShown(it: ThumbItem, texture: Option<Texture>)
    reads it
  {
    if texture.Some? then it.thumb == texture && it.status == None
    else it.thumb == None && it.status == Some(it.errorIcon)
  }

  /** The loop of OnThumbGenerated: every tile whose guid is guid gets the
      texture (all of them, since one asset can be listed in several
      groups); the others keep their whole state. A tile listed n times is
      shown the texture n times. */
  method DeliverThumb(items: seq<ThumbItem>, guid: string, texture: Option<Texture>)
    requires forall it :: it in items ==> it.Valid()
    modifies items
    ensures forall it :: it in items ==> it.Valid() && it.Unchanged(old(it.Snapshot()))
    ensures forall it :: it in items && it.userData == guid ==> ThumbShown(it, texture)
    ensures forall it :: it in items && it.userData != guid ==> it.State() == old(it.State())
    ensures forall it :: it in items ==>
      it.State() == old(it.State()).ShownTimes(texture, if it.userData == guid then multiset(items)[it] else 0)
    ensures forall it :: it in items && it.userData == guid && multiset(items)[it] == 1 ==>
      it.State() == old(it.State()).Shown(texture)
  {
    ShowGuidTiles(items, guid, texture);
    forall it | it in items && it.userData == guid
      ensures ThumbShown(it, texture) && it.Unchanged(old(it.Snapshot()))
      ensures multiset(items)[it] == 1 ==> it.State() == old(it.State()).Shown(texture)
    {
      ShownAgain(old(it.State()), texture, multiset(items)[it]);
    }
  }

  /** How many times x occurs in xs. */
  function Occurrences<T(==)>(xs: seq<T>, x: T): (n: nat)
    ensures n == multiset(xs)[x]
  {
    if |xs| == 0 then 0
    else
      assert xs == xs[..|xs| - 1] + [xs[|xs| - 1]];
      Occurrences(xs[..|xs| - 1], x) + (if xs[|xs| - 1] == x then 1 else 0)
  }

  /** The loop itself: each visit of a tile of the guid shows the texture
      once more, and the other tiles keep their state. */
  method ShowGuidTiles(items: seq<ThumbItem>, guid: string, texture: Option<Texture>)
    requires forall it :: it in items ==> it.Valid()
    modifies items
    ensures forall it :: it in items ==> it.Valid() && it.userData == old(it.userData)
    ensures forall it :: it in items && it.userData != guid ==> it.State() == old(it.State())
    ensures forall it :: it in items && it.userData == guid ==>
      it.State() == old(it.State()).ShownTimes(texture, Occurrences(items, it))
  {
    for k := 0 to |items|
      invariant forall it :: it in items ==> it.Valid() && it.userData == old(it.userData)
      invariant forall it :: it in items && it.userData != guid ==> it.State() == old(it.State())
      invariant forall it :: it in items && it.userData == guid ==>
        it.State() == old(it.State()).ShownTimes(texture, Occurrences(items[..k], it))
    {
      var item := items[k];
      assert items[..k + 1][..k] == items[..k];
      label before:
      if item.userData == guid {
        item.ShowThumb(true, texture);
      }
      forall it | it in items
        ensures it.Valid() && it.userData == old(it.userData)
        ensures it.userData != guid ==> it.State() == old(it.State())
        ensures it.userData == guid ==> it.State() == old(it.State()).ShownTimes(texture, Occurrences(items[..k + 1], it))
      {
        var m := Occurrences(items[..k], it);
        if it != item {
          assert Occurrences(items[..k + 1], it) == m;
          assert it.State() == old@before(it.State()) && it.Valid() == old@before(it.Valid());
        } else if it.userData == guid {
          assert Occurrences(items[..k + 1], it) == m + 1;
          assert old(it.State()).ShownTimes(texture, m + 1) == old(it.State()).ShownTimes(texture, m).Shown(texture);
        }
      }
    }
    assert items[..|items|] == items;
  }

  /** The loop of OnThumbsGenCompleted: a tile still without a thumbnail
      shows the warning glyph; a tile with one is left alone. */
  method MarkMissing(items: seq<ThumbItem>)
    requires forall it :: it in items ==> it.Valid()
    modifies items
    ensures forall it :: it in items ==> it.Valid() && it.Unchanged(old(it.Snapshot()))
    ensures forall it :: it in items && old(it.thumb).None? ==> it.status == Some(IconWarning) && it.thumb == None
    ensures forall it :: it in items && old(it.thumb).Some? ==> it.State() == old(it.State())
    ensures forall it :: it in items && old(it.thumb).None? ==> it.State() == old(it.State()).Flagged(IconWarning)
  {
    for k := 0 to |items|
      invariant forall it :: it in items ==> it.Valid() && it.Unchanged(old(it.Snapshot()))
      invariant forall it :: it in items ==> it.thumb.Some? == old(it.thumb).Some?
      invariant forall it :: it in items[..k] && old(it.thumb).None? ==> it.status == Some(IconWarning)
      invariant forall it :: it in items ==>
        it.State() == if it in items[..k] && old(it.thumb).None? then old(it.State()).Flagged(IconWarning) else old(it.State())
    {
      var item := items[k];
      assert items[..k + 1] == items[..k] + [item];
      if !item.ThumbIsShown() {
        FlaggedTwice(old(item.State()), IconWarning);
        item.ShowStatus(IconWarning);
      }
    }
    assert items[..|items|] == items;
  }

  /** The settings can be initialised for dataPath, and the root they hold
      or will load is one the window can open. */
  ghost predicate CanOpen(settings: MapEdSettings, dataPath: string)
    reads settings
  {
    (settings.inited ==>
       settings.GetPrefabsRoot().Some? ==> RootOk(settings.GetPrefabsRoot().value))
    && (!settings.inited ==>
          |Segments(dataPath, '/')| >= 2
          && var stored := Loaded(settings.prefs, KeysFor(ProjectName(dataPath)), settings.parse).prefabsRoot;
             stored.Some? ==> RootOk(stored.value))
  }

  /** The first step of OnEnable: the settings are initialised, and a stored
      root, if any, is one the window can open. */
  method InitSettings(settings: MapEdSettings, dataPath: string)
    requires CanOpen(settings, dataPath)
    modifies settings
    ensures settings.inited
    ensures settings.GetPrefabsRoot().Some? ==> RootOk(settings.GetPrefabsRoot().value)
    ensures !old(settings.inited) ==> settings.Persisted()
  {
    settings.Init(dataPath);
  }

  class MapEdWindow {
    /** The asset database: the folder tree, the prefab search of a folder
        (its subfolders included) and the path of an asset. */
    const db: Folder
    const findAssets: string -> seq<string>
    const assetPath: string -> string
    const dataPath: string
    const thumbsRootPath: string
    const view: GroupedItemsView
    const settings: MapEdSettings

    /** The chosen root; "" until one is chosen. */
    var prefabsRootPath: string
    var prefabFolders: seq<string>
    var dropdownText: string
    var menu: seq<MenuItem>
    var collapseText: string
    /** The tiles thumbnails are delivered to; None while the list is rebuilt. */
    var thumbItems: Option<seq<ThumbItem>>
    var lastRequest: Option<IconRequest>

    /** OnEnable: the settings are read, the view made with the stored tile
        size and told to destroy the thumbnails it drops, and the stored
        root, if any, is opened. */
    constructor (db: Folder, findAssets: string -> seq<string>, assetPath: string -> string,
                 dataPath: string, settings: MapEdSettings)
      requires WellFormed(db) && EndsWith(dataPath, "/Assets")
      requires CanOpen(settings, dataPath)
      modifies settings
      ensures this.db == db && this.findAssets == findAssets && this.assetPath == assetPath
      ensures this.dataPath == dataPath && this.settings == settings
      ensures fresh(view) && Valid()
      ensures thumbsRootPath == GetProjectRootPath(dataPath) + ThumbsFolderName
      ensures !old(settings.inited) ==> settings.Persisted()
      ensures view.itemSize == settings.GetThumbsSize() && !view.expandNewlyAdded && collapseText == IconExpand
      ensures var root := settings.GetPrefabsRoot();
        (root.None? || root.value == "") ==>
          prefabsRootPath == "" && dropdownText == ChooseFolder && menu == [] && prefabFolders == []
          && view.groups == [] && thumbItems == None && lastRequest == None
      ensures var root := settings.GetPrefabsRoot();
        (root.Some? && root.value != "") ==>
          prefabsRootPath == root.value && dropdownText == AllPrefabs && Populated(root.value, false)
    {
      InitSettings(settings, dataPath);
      this.db := db;
      this.findAssets := findAssets;
      this.assetPath := assetPath;
      this.dataPath := dataPath;
      this.settings := settings;
      thumbsRootPath := GetProjectRootPath(dataPath) + ThumbsFolderName;
      var v := new GroupedItemsView(settings.GetThumbsSize());
      v.autoDestroyUnusedThumbImage := true;
      view := v;
      prefabsRootPath := "";
      prefabFolders := [];
      dropdownText := ChooseFolder;
      menu := [];
      collapseText := IconExpand;
      thumbItems := None;
      lastRequest := None;
      new;
      OpenStoredRoot();
    }

    /** The end of OnEnable: the stored root, when there is one, is set
        again and opened; the stored settings stay as they are. */
    method OpenStoredRoot()
      requires Valid()
      modifies this, view, view.groups, view.Items(), settings
      ensures Valid()
      ensures settings.values == old(settings.values)
      ensures old(settings.Persisted()) ==> settings.Persisted()
      ensures collapseText == old(collapseText)
      ensures view.expandNewlyAdded == old(view.expandNewlyAdded) && view.itemSize == old(view.itemSize)
      ensures var root := settings.GetPrefabsRoot();
        (root.None? || root.value == "") ==> State() == old(State()) && view.groups == old(view.groups)
      ensures var root := settings.GetPrefabsRoot();
        (root.Some? && root.value != "") ==>
          prefabsRootPath == root.value && dropdownText == AllPrefabs && Populated(root.value, false)
    {
      var root := settings.GetPrefabsRoot();
      SetPrefabsRoot(if root.Some? then root.value else "");
    }

    function State(): WindowState
      reads this
    {
      WindowState(prefabsRootPath, prefabFolders, dropdownText, menu, collapseText, thumbItems, lastRequest)
    }

    /** The tiles are well formed and own their thumbnails; the delivery list
        is the view's tiles in order; folders and roots have a segment. */
    ghost predicate Valid()
      reads this, view, view.groups, view.Items(), settings
    {
      view.ItemsValid() && view.autoDestroyUnusedThumbImage
      && (thumbItems.Some? ==> thumbItems.value == Concat(view.groups))
      && WellFormed(db) && EndsWith(dataPath, "/Assets") && settings.inited
      && RootOk(prefabsRootPath)
      && (settings.GetPrefabsRoot().Some? ==> RootOk(settings.GetPrefabsRoot().value))
      && (forall i :: 0 <= i < |prefabFolders| ==> HasSegment(prefabFolders[i]))
    }

    /** The group made for folder f: titled with its last directory, one
        loading tile per guid the search finds there, in order. */
    ghost predicate GroupFor(text: string, items: seq<ThumbItem>, f: string, size: int, autoDestroy: bool)
      reads items
    {
      HasSegment(f) && text == GetLastDirInPath(f) && |items| == |findAssets(f)|
      && forall j :: 0 <= j < |items| ==>
           ItemFor(items[j], findAssets(f)[j], Labels(assetPath, findAssets(f))[j], size, autoDestroy)
    }

    /** One group per folder, in order, each made by GroupFor and expanded
        or not as given. */
    ghost predicate GroupsFor(folders: seq<string>, expanded: bool)
      reads view, view.groups, view.Items()
    {
      |view.groups| == |folders|
      && forall i :: 0 <= i < |folders| ==>
           (GroupItemsIn(view, i);
            GroupFor(view.groups[i].text, view.groups[i].items, folders[i], view.itemSize, view.autoDestroyUnusedThumbImage)
            && view.groups[i].value == expanded)
    }

    /** The list for path as PopulateThumbsList leaves it: one group per
        shown folder, expanded when the view expands new groups or when it
        is the only one; the delivery list set; and the generator asked for
        every guid found, once each, in the order first found. */
    ghost predicate Populated(path: string, force: bool)
      reads this, view, view.groups, view.Items(), settings
    {
      var shown := ShownFolders(db, prefabsRootPath, path);
      GroupsFor(shown, view.expandNewlyAdded || |shown| == 1)
      && thumbItems == Some(Concat(view.groups))
      && lastRequest == Some(IconRequest(thumbsRootPath, Dedup(AllFound(findAssets, shown)), force,
                                         settings.GetIcoGenUseLight(), settings.GetLightIntensity()))
    }

    /** One group for folder f, filled with a tile per guid found there. */
    method AddFolderGroup(f: string) returns (group: Foldout)
      requires HasSegment(f) && view.ItemsValid()
      modifies view
      ensures view.groups == old(view.groups) + [group] && fresh(group)
      ensures GroupFor(group.text, group.items, f, view.itemSize, view.autoDestroyUnusedThumbImage)
      ensures group.value == view.expandNewlyAdded
      ensures view.ItemsValid()
      ensures view.expandNewlyAdded == old(view.expandNewlyAdded) && view.itemSize == old(view.itemSize)
      ensures view.autoDestroyUnusedThumbImage == old(view.autoDestroyUnusedThumbImage)
    {
      group := view.AddGroup(GetLastDirInPath(f));
      FillGroup(view, group, findAssets(f), Labels(assetPath, findAssets(f)));
      ItemsAppend(view, group);
    }

    /** Every folder in turn gets its group. */
    method AddFolderGroups(folders: seq<string>)
      requires view.groups == [] && view.ItemsValid()
      requires forall i :: 0 <= i < |folders| ==> HasSegment(folders[i])
      modifies view
      ensures |view.groups| == |folders|
      ensures forall i :: 0 <= i < |folders| ==>
        GroupFor(view.groups[i].text, view.groups[i].items, folders[i], view.itemSize, view.autoDestroyUnusedThumbImage)
        && view.groups[i].value == view.expandNewlyAdded
      ensures forall g :: g in view.groups ==> fresh(g)
      ensures view.ItemsValid()
      ensures view.expandNewlyAdded == old(view.expandNewlyAdded) && view.itemSize == old(view.itemSize)
      ensures view.autoDestroyUnusedThumbImage == old(view.autoDestroyUnusedThumbImage)
    {
      for k := 0 to |folders|
        invariant |view.groups| == k
        invariant forall g :: g in view.groups ==> fresh(g)
        invariant forall i :: 0 <= i < k ==>
          GroupFor(view.groups[i].text, view.groups[i].items, folders[i], view.itemSize, view.autoDestroyUnusedThumbImage)
          && view.groups[i].value == view.expandNewlyAdded
        invariant view.ItemsValid()
        invariant view.expandNewlyAdded == old(view.expandNewlyAdded) && view.itemSize == old(view.itemSize)
        invariant view.autoDestroyUnusedThumbImage == old(view.autoDestroyUnusedThumbImage)
      {
        var group := AddFolderGroup(folders[k]);
      }
    }

    /** The groups of PopulateThumbsList: one per folder, all expanded when
        there is only one. */
    method BuildGroups(folders: seq<string>)
      requires view.groups == [] && view.ItemsValid()
      requires forall i :: 0 <= i < |folders| ==> HasSegment(folders[i])
      modifies view
      ensures |view.groups| == |folders|
      ensures forall i :: 0 <= i < |folders| ==>
        GroupFor(view.groups[i].text, view.groups[i].items, folders[i], view.itemSize, view.autoDestroyUnusedThumbImage)
        && view.groups[i].value == (view.expandNewlyAdded || |folders| == 1)
      ensures view.expandNewlyAdded == old(view.expandNewlyAdded) && view.itemSize == old(view.itemSize)
      ensures view.autoDestroyUnusedThumbImage == old(view.autoDestroyUnusedThumbImage)
    {
      AddFolderGroups(folders);
      if view.GroupsCount() == 1 {
        assert view.groups[0] in view.groups;
        assert view.groups == [view.groups[0]] && fresh(view.groups[0]);
        ExpandSingle(folders);
      }
    }

    /** ExpandAllGroups on a list of one group. */
    method ExpandSingle(folders: seq<string>)
      requires |view.groups| == |folders| == 1
      requires GroupFor(view.groups[0].text, view.groups[0].items, folders[0], view.itemSize, view.autoDestroyUnusedThumbImage)
      modifies view.groups
      ensures |view.groups| == 1
      ensures forall i :: 0 <= i < |folders| ==>
        GroupFor(view.groups[i].text, view.groups[i].items, folders[i], view.itemSize, view.autoDestroyUnusedThumbImage)
        && view.groups[i].value
      ensures view.expandNewlyAdded == old(view.expandNewlyAdded) && view.itemSize == old(view.itemSize)
      ensures view.autoDestroyUnusedThumbImage == old(view.autoDestroyUnusedThumbImage)
    {
      var g := view.groups[0];
      view.ExpandAllGroups();
      assert g in view.groups;
    }

    /** Groups made one by one for the folders form the list for them. */
    lemma EachGroupFor(folders: seq<string>, expanded: bool)
      requires |view.groups| == |folders|
      requires forall i :: 0 <= i < |folders| ==>
        GroupFor(view.groups[i].text, view.groups[i].items, folders[i], view.itemSize, view.autoDestroyUnusedThumbImage)
        && view.groups[i].value == expanded
      ensures GroupsFor(folders, expanded)
    {
    }

    /** The tiles of a list made for folders are well formed. */
    lemma GroupsForValid(folders: seq<string>, expanded: bool)
      requires GroupsFor(folders, expanded)
      ensures view.ItemsValid()
    {
      forall it | it in view.Items()
        ensures it.Valid()
      {
        var g :| g in view.groups && it in g.items;
        var i :| 0 <= i < |view.groups| && view.groups[i] == g;
        var j :| 0 <= j < |g.items| && g.items[j] == it;
        assert GroupFor(g.text, g.items, folders[i], view.itemSize, view.autoDestroyUnusedThumbImage);
      }
    }

    /** LoadThumbs: the generator is asked for the guids with the light
        settings of the moment. */
    method LoadThumbs(guids: seq<string>, force: bool)
      modifies this
      ensures State() == old(State()).(lastRequest := Some(IconRequest(thumbsRootPath, guids, force,
                                        settings.GetIcoGenUseLight(), settings.GetLightIntensity())))
    {
      lastRequest := Some(IconRequest(thumbsRootPath, guids, force, settings.GetIcoGenUseLight(), settings.GetLightIntensity()));
    }

    /** A path shown: no groups for "", else the list Populated describes. */
    ghost predicate Shows(path: string, force: bool)
      reads this, view, view.groups, view.Items(), settings
    {
      if path == "" then view.groups == [] && thumbItems == None else Populated(path, force)
    }

    /** PopulateThumbsList: the old tiles are disposed and, unless path is
        "", one group per shown folder is built and the generator asked for
        their guids. */
    method PopulateThumbsList(path: string, force: bool)
      requires Valid() && RootOk(path)
      modifies this, view, view.groups, view.Items()
      ensures Valid()
      ensures State() == old(State()).(thumbItems := thumbItems, lastRequest := lastRequest)
      ensures view.expandNewlyAdded == old(view.expandNewlyAdded) && view.itemSize == old(view.itemSize)
      ensures forall it :: it in old(view.Items()) ==> it.status == None && it.thumb == None
      ensures forall it :: it in old(view.Items()) ==> it.State() == old(it.State()).Disposed()
      ensures Shows(path, force)
      ensures path == "" ==> lastRequest == old(lastRequest)
    {
      ClearList();
      if path == "" {
        return;
      }
      FillThumbsList(path, force);
    }

    /** The start of PopulateThumbsList: no delivery list, and the old
        tiles disposed with their groups. */
    method ClearList()
      requires view.ItemsValid()
      modifies this, view, view.Items()
      ensures view.groups == [] && view.ItemsValid() && thumbItems == None
      ensures State() == old(State()).(thumbItems := None)
      ensures view.expandNewlyAdded == old(view.expandNewlyAdded) && view.itemSize == old(view.itemSize)
      ensures view.autoDestroyUnusedThumbImage == old(view.autoDestroyUnusedThumbImage)
      ensures forall it :: it in old(view.Items()) ==> it.status == None && it.thumb == None
      ensures forall it :: it in old(view.Items()) ==> it.State() == old(it.State()).Disposed()
    {
      thumbItems := None;
      view.RemoveAllGroups();
    }

    /** The folders PopulateThumbsList shows for path. */
    method GetShownFolders(path: string) returns (folders: seq<string>)
      requires WellFormed(db) && HasSegment(path)
      ensures folders == ShownFolders(db, prefabsRootPath, path)
      ensures forall i :: 0 <= i < |folders| ==> HasSegment(folders[i])
    {
      folders := GetPrefabFolders(FolderAt(db, path), prefabsRootPath != path);
      if |folders| == 0 {
        folders := [path];
      }
      ShownFoldersSpec(db, prefabsRootPath, path);
    }

    /** The part of PopulateThumbsList after the old list is cleared. */
    method FillThumbsList(path: string, force: bool)
      requires view.groups == [] && view.ItemsValid() && HasSegment(path) && WellFormed(db)
      modifies this, view
      ensures Populated(path, force) && view.ItemsValid()
      ensures State() == old(State()).(thumbItems := thumbItems, lastRequest := lastRequest)
      ensures view.expandNewlyAdded == old(view.expandNewlyAdded) && view.itemSize == old(view.itemSize)
      ensures view.autoDestroyUnusedThumbImage == old(view.autoDestroyUnusedThumbImage)
    {
      var folders := GetShownFolders(path);
      BuildGroups(folders);
      var guids := GatherGuids(findAssets, folders);
      ShowList(folders, view.expandNewlyAdded || |folders| == 1, guids, force);
      ListShown(path, force, folders);
    }

    /** The end of PopulateThumbsList: the delivery list is set to the
        view's tiles and the generator is asked for the guids; the groups
        stay as they were built. */
    method ShowList(folders: seq<string>, expanded: bool, guids: seq<string>, force: bool)
      requires |view.groups| == |folders|
      requires forall i :: 0 <= i < |folders| ==>
        GroupFor(view.groups[i].text, view.groups[i].items, folders[i], view.itemSize, view.autoDestroyUnusedThumbImage)
        && view.groups[i].value == expanded
      modifies this
      ensures |view.groups| == |folders|
      ensures forall i :: 0 <= i < |folders| ==>
        GroupFor(view.groups[i].text, view.groups[i].items, folders[i], view.itemSize, view.autoDestroyUnusedThumbImage)
        && view.groups[i].value == expanded
      ensures thumbItems == Some(Concat(view.groups))
      ensures lastRequest == Some(IconRequest(thumbsRootPath, guids, force,
                                              settings.GetIcoGenUseLight(), settings.GetLightIntensity()))
      ensures State() == old(State()).(thumbItems := thumbItems, lastRequest := lastRequest)
    {
      var items := view.GetAllItems();
      thumbItems := Some(items);
      LoadThumbs(guids, force);
    }

    /** Groups made for the shown folders, the delivery list and the
        request together make the list Populated describes. */
    lemma ListShown(path: string, force: bool, shown: seq<string>)
      requires shown == ShownFolders(db, prefabsRootPath, path)
      requires |view.groups| == |shown|
      requires forall i :: 0 <= i < |shown| ==>
        GroupFor(view.groups[i].text, view.groups[i].items, shown[i], view.itemSize, view.autoDestroyUnusedThumbImage)
        && view.groups[i].value == (view.expandNewlyAdded || |shown| == 1)
      requires thumbItems == Some(Concat(view.groups))
      requires lastRequest == Some(IconRequest(thumbsRootPath, Dedup(AllFound(findAssets, shown)), force,
                                               settings.GetIcoGenUseLight(), settings.GetLightIntensity()))
      ensures Populated(path, force) && view.ItemsValid()
    {
      EachGroupFor(shown, view.expandNewlyAdded || |shown| == 1);
      GroupsForValid(shown, view.expandNewlyAdded || |shown| == 1);
    }

    /** SetActivePrefabsFolder: an index out of range shows the root under
        "All Prefabs" (nothing, under "Choose folder ->", while there is no
        root); otherwise the folder at that index, named by its last
        directory. The dropdown's entries call it with their index. */
    method SetActivePrefabsFolder(idx: int, force: bool)
      requires Valid()
      modifies this, view, view.groups, view.Items()
      ensures Valid()
      ensures dropdownText == ActiveLabel(idx, prefabFolders, prefabsRootPath)
      ensures Shows(ActiveFolder(idx, prefabFolders, prefabsRootPath), force)
      ensures ActiveFolder(idx, prefabFolders, prefabsRootPath) == "" ==> lastRequest == old(lastRequest)
      ensures State() == old(State()).(dropdownText := dropdownText, thumbItems := thumbItems, lastRequest := lastRequest)
      ensures view.expandNewlyAdded == old(view.expandNewlyAdded) && view.itemSize == old(view.itemSize)
      ensures forall it :: it in old(view.Items()) ==> it.status == None && it.thumb == None
      ensures forall it :: it in old(view.Items()) ==> it.State() == old(it.State()).Disposed()
    {
      if idx < 0 || idx >= |prefabFolders| {
        if prefabsRootPath == "" {
          ShowFolder(ChooseFolder, "", force);
        } else {
          ShowFolder(AllPrefabs, prefabsRootPath, force);
        }
      } else {
        ShowFolder(GetLastDirInPath(prefabFolders[idx]), prefabFolders[idx], force);
      }
    }

    /** One branch of SetActivePrefabsFolder: the dropdown reads text and
        the list shows path. */
    method ShowFolder(text: string, path: string, force: bool)
      requires Valid() && RootOk(path)
      modifies this, view, view.groups, view.Items()
      ensures Valid()
      ensures dropdownText == text && Shows(path, force)
      ensures path == "" ==> lastRequest == old(lastRequest)
      ensures State() == old(State()).(dropdownText := text, thumbItems := thumbItems, lastRequest := lastRequest)
      ensures view.expandNewlyAdded == old(view.expandNewlyAdded) && view.itemSize == old(view.itemSize)
      ensures forall it :: it in old(view.Items()) ==> it.status == None && it.thumb == None
      ensures forall it :: it in old(view.Items()) ==> it.State() == old(it.State()).Disposed()
    {
      dropdownText := text;
      PopulateThumbsList(path, force);
    }

    /** Removes the dropdown's entries, last first. */
    method ClearMenu()
      modifies this
      ensures State() == old(State()).(menu := [])
    {
      var i := |menu| - 1;
      while i >= 0
        invariant -1 <= i < |old(menu)| && menu == old(menu)[..i + 1]
        invariant State() == old(State()).(menu := menu)
      {
        assert menu[..i] + menu[i + 1..] == old(menu)[..i];
        menu := menu[..i] + menu[i + 1..];
        i := i - 1;
      }
    }

    /** BuildFoldersDropdown: the dropdown lists "All Prefabs", a separator
        and every folder below path, each named relative to path; then the
        root's thumbnails are shown. */
    method BuildFoldersDropdown(path: string, force: bool)
      requires Valid() && HasSegment(path)
      modifies this, view, view.groups, view.Items()
      ensures Valid()
      ensures prefabFolders == PrefabFolders(FolderAt(db, path), false)
      ensures forall i :: 0 <= i < |prefabFolders| ==> StartsWith(prefabFolders[i], path + "/")
      ensures menu == [Action(AllPrefabs, -1), Separator] + FolderEntries(path, prefabFolders, |prefabFolders|)
      ensures dropdownText == (if prefabsRootPath == "" then ChooseFolder else AllPrefabs)
      ensures Shows(prefabsRootPath, force)
      ensures prefabsRootPath == "" ==> lastRequest == old(lastRequest)
      ensures prefabsRootPath == old(prefabsRootPath) && collapseText == old(collapseText)
      ensures view.expandNewlyAdded == old(view.expandNewlyAdded) && view.itemSize == old(view.itemSize)
      ensures forall it :: it in old(view.Items()) ==> it.status == None && it.thumb == None
      ensures forall it :: it in old(view.Items()) ==> it.State() == old(it.State()).Disposed()
    {
      FillFoldersMenu(path);
      SetActivePrefabsFolder(-1, force);
    }

    /** The dropdown part of BuildFoldersDropdown: the old entries removed,
        then "All Prefabs", a separator and one entry per folder below path. */
    method FillFoldersMenu(path: string)
      requires WellFormed(db) && HasSegment(path)
      modifies this
      ensures prefabFolders == PrefabFolders(FolderAt(db, path), false)
      ensures forall i :: 0 <= i < |prefabFolders| ==> StartsWith(prefabFolders[i], path + "/")
      ensures forall i :: 0 <= i < |prefabFolders| ==> HasSegment(prefabFolders[i])
      ensures menu == [Action(AllPrefabs, -1), Separator] + FolderEntries(path, prefabFolders, |prefabFolders|)
      ensures State() == old(State()).(prefabFolders := prefabFolders, dropdownText := AllPrefabs, menu := menu)
    {
      ClearMenu();
      var node := FolderAt(db, path);
      var folders := GetPrefabFolders(node, false);
      FolderAtWellFormed(db, path);
      DescendantsInside(node);
      assert folders == Descendants(node);
      prefabFolders := folders;
      dropdownText := AllPrefabs;
      menu := menu + [Action(AllPrefabs, -1), Separator];
      AppendFolderEntries(path, folders);
    }

    /** One entry per folder, named by its path below path. */
    method AppendFolderEntries(path: string, folders: seq<string>)
      requires forall i :: 0 <= i < |folders| ==> StartsWith(folders[i], path + "/")
      modifies this
      ensures menu == old(menu) + FolderEntries(path, folders, |folders|)
      ensures State() == old(State()).(menu := menu)
    {
      var subLen := |path| + 1;
      for i := 0 to |folders|
        invariant menu == old(menu) + FolderEntries(path, folders, i)
        invariant State() == old(State()).(menu := menu)
      {
        menu := menu + [Action(folders[i][subLen..], i)];
      }
    }

    /** SetPrefabsRoot: "" changes nothing; any other path becomes the root,
        is stored in the settings, and the dropdown is rebuilt for it. */
    method SetPrefabsRoot(path: string)
      requires Valid() && RootOk(path)
      modifies this, view, view.groups, view.Items(), settings
      ensures Valid()
      ensures path == "" ==>
        State() == old(State()) && view.groups == old(view.groups)
        && settings.values == old(settings.values) && settings.prefs == old(settings.prefs)
      ensures path != "" ==>
        prefabsRootPath == path
        && settings.values == old(settings.values).(prefabsRoot := Some(path))
        && settings.prefs == old(settings.prefs)[settings.keys.prefabsRoot := PString(path)]
      ensures old(settings.Persisted()) ==> settings.Persisted()
      ensures path != "" ==>
        prefabFolders == PrefabFolders(FolderAt(db, path), false)
        && (forall i :: 0 <= i < |prefabFolders| ==> StartsWith(prefabFolders[i], path + "/"))
      ensures path != "" ==> menu == [Action(AllPrefabs, -1), Separator] + FolderEntries(path, prefabFolders, |prefabFolders|)
      ensures path != "" ==> dropdownText == AllPrefabs && Populated(path, false)
      ensures collapseText == old(collapseText)
      ensures view.expandNewlyAdded == old(view.expandNewlyAdded) && view.itemSize == old(view.itemSize)
    {
      if path == "" {
        return;
      }
      StoreRoot(path);
      BuildFoldersDropdown(path, false);
    }

    /** The first half of SetPrefabsRoot: the root is kept and stored. */
    method StoreRoot(path: string)
      requires Valid() && HasSegment(path)
      modifies this, settings
      ensures Valid()
      ensures State() == old(State()).(prefabsRootPath := path)
      ensures settings.values == old(settings.values).(prefabsRoot := Some(path))
      ensures settings.prefs == old(settings.prefs)[settings.keys.prefabsRoot := PString(path)]
      ensures old(settings.Persisted()) ==> settings.Persisted()
    {
      prefabsRootPath := path;
      settings.SetPrefabsRoot(path);
    }

    /** OnSetFolderButtonClicked: the folder panel opens at the stored root
        (at the data path while none is stored or it is blank); a folder
        picked inside the data path becomes the root, as a path starting at
        "Assets". The panel is the parameter panel. */
    method OnSetFolderButtonClicked(panel: string -> string)
      requires Valid()
      modifies this, view, view.groups, view.Items(), settings
      ensures Valid()
      ensures var stored := old(settings.GetPrefabsRoot());
        var picked := panel(if IsNullOrWhiteSpace(stored) then dataPath else stored.value);
        if picked != "" && StartsWith(picked, dataPath) then
          prefabsRootPath == FullPathToRelativePath(dataPath, picked)
          && GetProjectRootPath(dataPath) + "/" + prefabsRootPath == picked
          && settings.GetPrefabsRoot() == Some(prefabsRootPath)
          && dropdownText == AllPrefabs && Populated(prefabsRootPath, false)
        else
          State() == old(State()) && view.groups == old(view.groups) && settings.values == old(settings.values)
    {
      var stored := settings.GetPrefabsRoot();
      var initPath := if IsNullOrWhiteSpace(stored) then dataPath else stored.value;
      var path := panel(initPath);
      if path != "" && StartsWith(path, dataPath) {
        path := FullPathToRelativePath(dataPath, path);
        assert path[0] != '/';
        SetPrefabsRoot(path);
        RelativePathRoundTrip(dataPath, panel(initPath));
      }
    }

    /** OnCollapseButtonClicked: toggles whether groups are shown expanded,
        for the groups there now and the ones added later; the button shows
        the glyph of what a further click does. */
    method OnCollapseButtonClicked()
      requires Valid()
      modifies this, view, view.groups
      ensures Valid()
      ensures view.expandNewlyAdded == !old(view.expandNewlyAdded)
      ensures collapseText == (if view.expandNewlyAdded then IconCollapse else IconExpand)
      ensures forall g :: g in view.groups ==> g.value == view.expandNewlyAdded
      ensures view.groups == old(view.groups) && Concat(view.groups) == old(Concat(view.groups))
      ensures forall g :: g in view.groups ==> g.items == old(g.items) && g.text == old(g.text)
      ensures State() == old(State()).(collapseText := collapseText)
    {
      if view.expandNewlyAdded {
        collapseText := IconExpand;
        SetExpanded(false);
      } else {
        collapseText := IconCollapse;
        SetExpanded(true);
      }
    }

    /** The view's part of OnCollapseButtonClicked: groups added later are
        expanded iff expand, and so are the groups there now. */
    method SetExpanded(expand: bool)
      requires view.ItemsValid()
      modifies view, view.groups
      ensures view.expandNewlyAdded == expand && view.ItemsValid()
      ensures forall g :: g in view.groups ==> g.value == expand
      ensures view.groups == old(view.groups) && Concat(view.groups) == old(Concat(view.groups))
      ensures forall g :: g in view.groups ==> g.items == old(g.items) && g.text == old(g.text)
      ensures view.itemSize == old(view.itemSize)
      ensures view.autoDestroyUnusedThumbImage == old(view.autoDestroyUnusedThumbImage)
    {
      view.expandNewlyAdded := expand;
      if expand {
        view.ExpandAllGroups();
      } else {
        view.CollapseAllGroups();
      }
    }

    /** OnRefreshThumbsButtonClicked: with a stored root, the dropdown is
        rebuilt for it and the thumbnails regenerated even where cached. */
    method OnRefreshThumbsButtonClicked()
      requires Valid()
      modifies this, view, view.groups, view.Items()
      ensures Valid()
      ensures var root := settings.GetPrefabsRoot();
        if root.Some? && root.value != "" then
          prefabFolders == PrefabFolders(FolderAt(db, root.value), false)
          && (forall i :: 0 <= i < |prefabFolders| ==> StartsWith(prefabFolders[i], root.value + "/"))
          && menu == [Action(AllPrefabs, -1), Separator] + FolderEntries(root.value, prefabFolders, |prefabFolders|)
          && Shows(prefabsRootPath, true)
        else
          State() == old(State()) && view.groups == old(view.groups)
    {
      var rootFolder := settings.GetPrefabsRoot();
      if rootFolder.Some? && rootFolder.value != "" {
        BuildFoldersDropdown(rootFolder.value, true);
      }
    }

    /** OnThumbsSizeSliderValueChanged: the size is stored and every tile,
        now and later, takes it. */
    method OnThumbsSizeSliderValueChanged(sz: int)
      requires Valid()
      modifies settings, view, view.Items()
      ensures Valid()
      ensures settings.GetThumbsSize() == sz && settings.prefs == old(settings.prefs)[settings.keys.thumbsSize := PInt(sz)]
      ensures old(settings.Persisted()) ==> settings.Persisted()
      ensures view.itemSize == sz && forall it :: it in view.Items() ==> it.size == sz
      ensures forall it :: it in old(view.Items()) ==> it.State() == old(it.State()).Resized(sz)
      ensures view.groups == old(view.groups) && view.Items() == old(view.Items())
    {
      settings.SetThumbsSize(sz);
      view.SetItemsSize(sz);
    }

    /** OnThumbGenerated: while a list is shown, every tile of the asset
        guid shows the texture; the other tiles are untouched. */
    method OnThumbGenerated(guid: string, texture: Option<Texture>)
      requires Valid()
      modifies view.Items()
      ensures Valid()
      ensures thumbItems.Some? ==> forall it :: it in view.Items() && it.userData == guid ==> ThumbShown(it, texture)
      ensures forall it :: it in view.Items() && (thumbItems.None? || it.userData != guid) ==>
        it.State() == old(it.State())
      ensures thumbItems.Some? ==> forall it :: it in view.Items() ==>
        it.State() == old(it.State()).ShownTimes(texture, if it.userData == guid then multiset(thumbItems.value)[it] else 0)
    {
      if thumbItems.Some? {
        var items := thumbItems.value;
        forall it | it in view.Items() || it in items
          ensures it in items <==> it in view.Items()
        {
          ConcatMembers(view.groups, it);
        }
        DeliverThumb(items, guid, texture);
        assert view.Items() == old(view.Items());
      }
    }

    /** OnThumbsGenCompleted: while a list is shown, every tile that got no
        thumbnail shows the warning glyph. */
    method OnThumbsGenCompleted()
      requires Valid()
      modifies view.Items()
      ensures Valid()
      ensures thumbItems.Some? ==> forall it :: it in view.Items() && old(it.thumb).None? ==>
        it.status == Some(IconWarning) && it.thumb == None
      ensures forall it :: it in view.Items() && (thumbItems.None? || old(it.thumb).Some?) ==>
        it.State() == old(it.State())
      ensures thumbItems.Some? ==> forall it :: it in view.Items() && old(it.thumb).None? ==>
        it.State() == old(it.State()).Flagged(IconWarning)
    {
      if thumbItems.Some? {
        var items := thumbItems.value;
        forall it | it in view.Items() || it in items
          ensures it in items <==> it in view.Items()
        {
          ConcatMembers(view.groups, it);
        }
        MarkMissing(items);
        assert view.Items() == old(view.Items());
      }
    }

    /** OnDisable: the tiles are disposed and no list is shown. */
    method OnDisable()
      requires Valid()
      modifies this, view, view.Items()
      ensures Valid() && view.groups == [] && thumbItems == None
      ensures forall it :: it in old(view.Items()) ==> it.status == None && it.thumb == None
      ensures forall it :: it in old(view.Items()) ==> it.State() == old(it.State()).Disposed()
      ensures State() == old(State()).(thumbItems := None)
    {
      view.Dispose();
      thumbItems := None;
    }
  }
}
