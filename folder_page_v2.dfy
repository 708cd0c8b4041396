/**
 * The recursive rendering of src/pages/Folders/FolderPageV2.tsx:
 * `renderFolders(parentId)` shows the folders whose parent is `parentId`, in
 * list order, each followed by the rendering of its own children when it is
 * expanded; the page renders `renderFolders(null)`.
 *
 * The page recurses only from the roots into expanded folders, so it ends
 * unless a duplicated id puts an expanded cycle within reach of a root. The
 * model proves termination from a simpler condition, `DepthOrdered`: a folder
 * is deeper than its parent, which is what the `depth` field of the list
 * records. This also rules out some lists the page renders: those with a
 * cycle no root reaches, and those whose depths do not grow. The ghost parameter
 * `parentDepth` carries the depth the recursion has reached; it is not part
 * of the rendered output.
 */
module FolderPageV2 {
  import opened Common
  import opened FolderTree

  /** A folder's `depth` is greater than the `depth` of every folder its `parentId` names. */
  predicate DepthOrdered(data: seq<Folder>) {
    forall i, j :: 0 <= i < |data| && 0 <= j < |data| && data[i].parentId == Some(data[j].id) ==>
      data[j].depth < data[i].depth
  }

  /** Every child of `parentId` lies deeper than `parentDepth`. */
  predicate ChildrenDeeper(data: seq<Folder>, parentId: Option<string>, parentDepth: int) {
    forall i :: 0 <= i < |data| && data[i].parentId == parentId ==> data[i].depth > parentDepth
  }

  function ChildOf(parentId: Option<string>): Folder -> bool {
    (f: Folder) => f.parentId == parentId
  }

  /** `foldersData.filter(folder => folder.parentId === parentId)`. */
  function ChildFolders(data: seq<Folder>, parentId: Option<string>): (r: seq<Folder>)
    ensures forall i :: 0 <= i < |r| ==> r[i] in data && r[i].parentId == parentId
    ensures forall i :: 0 <= i < |data| && data[i].parentId == parentId ==> data[i] in r
  {
    Filter(data, ChildOf(parentId))
  }

  /** The number of folders deeper than `d`: what the recursion uses up. */
  function CountDeeper(data: seq<Folder>, d: int): nat
    decreases |data|
  {
    if data == [] then 0 else (if data[0].depth > d then 1 else 0) + CountDeeper(data[1..], d)
  }

  lemma {:induction false} CountDeeperMonotone(data: seq<Folder>, d: int, e: int)
    requires d <= e
    ensures CountDeeper(data, e) <= CountDeeper(data, d)
    decreases |data|
  {
    if data != [] {
      CountDeeperMonotone(data[1..], d, e);
    }
  }

  /** A folder of the list deeper than `d` leaves fewer folders deeper than itself. */
  lemma {:induction false} CountDeeperDecreases(data: seq<Folder>, f: Folder, d: int)
    requires f in data && f.depth > d
    ensures CountDeeper(data, f.depth) < CountDeeper(data, d)
    decreases |data|
  {
    if data[0] == f {
      CountDeeperMonotone(data[1..], d, f.depth);
    } else {
      assert f in data[1..];
      CountDeeperDecreases(data[1..], f, d);
    }
  }

  /** `renderFolders(parentId)`: nothing when there are no children, else each child in turn. */
  function RenderFolders(data: seq<Folder>, expanded: set<string>, parentId: Option<string>, ghost parentDepth: int)
    : (rows: seq<Row>)
    requires DepthOrdered(data) && ChildrenDeeper(data, parentId, parentDepth)
    ensures RowsOf(data, expanded, rows)
    ensures ChildFolders(data, parentId) == [] ==> rows == []
    ensures forall i :: 0 <= i < |data| && data[i].parentId == parentId ==> data[i].id in Ids(rows)
    decreases CountDeeper(data, parentDepth), 1
  {
    var childFolders := ChildFolders(data, parentId);
    if |childFolders| == 0 then []
    else
      var rows := RenderEach(data, expanded, childFolders, parentDepth);
      ChildrenRendered(data, parentId, childFolders, rows);
      rows
  }

  /** `childFolders.map(...)`: a child's row, then its subtree when it is expanded. */
  function RenderEach(data: seq<Folder>, expanded: set<string>, folders: seq<Folder>, ghost parentDepth: int)
    : (rows: seq<Row>)
    requires DepthOrdered(data)
    requires forall k :: 0 <= k < |folders| ==> folders[k] in data && folders[k].depth > parentDepth
    ensures RowsOf(data, expanded, rows)
    ensures |rows| >= |folders|
    ensures forall k :: 0 <= k < |folders| ==> folders[k].id in Ids(rows)
    decreases CountDeeper(data, parentDepth), 0, |folders|
  {
    if folders == [] then []
    else
      var folder := folders[0];
      var subtree :=
        if folder.id in expanded then
          CountDeeperDecreases(data, folder, parentDepth);
          RenderFolders(data, expanded, Some(folder.id), folder.depth)
        else [];
      var rest := RenderEach(data, expanded, folders[1..], parentDepth);
      HeadAndRestRendered(folders, RowOf(data, expanded, folder), subtree, rest);
      [RowOf(data, expanded, folder)] + subtree + rest
  }

  /** A row for the first folder, then rows holding every later one, hold every folder. */
  lemma HeadAndRestRendered(folders: seq<Folder>, head: Row, subtree: seq<Row>, rest: seq<Row>)
    requires folders != [] && head.id == folders[0].id
    requires forall k :: 0 <= k < |folders[1..]| ==> folders[1..][k].id in Ids(rest)
    ensures forall k :: 0 <= k < |folders| ==> folders[k].id in Ids([head] + subtree + rest)
  {
    IdsConcat([head] + subtree, rest);
    IdsConcat([head], subtree);
    forall k | 0 <= k < |folders| ensures folders[k].id in Ids([head] + subtree + rest) {
      if k == 0 {
        assert Ids([head]) == [head.id];
      } else {
        assert folders[k] == folders[1..][k - 1];
      }
    }
  }

  /** Rows holding every child folder hold every folder whose parent is `parentId`. */
  lemma ChildrenRendered(data: seq<Folder>, parentId: Option<string>, children: seq<Folder>, rows: seq<Row>)
    requires forall i :: 0 <= i < |data| && data[i].parentId == parentId ==> data[i] in children
    requires forall k :: 0 <= k < |children| ==> children[k].id in Ids(rows)
    ensures forall i :: 0 <= i < |data| && data[i].parentId == parentId ==> data[i].id in Ids(rows)
  {
    forall i | 0 <= i < |data| && data[i].parentId == parentId ensures data[i].id in Ids(rows) {
      var k :| 0 <= k < |children| && children[k] == data[i];
    }
  }

  /** The depth just above the shallowest folder of the list. */
  function AboveAll(data: seq<Folder>): (d: int)
    ensures forall i :: 0 <= i < |data| ==> data[i].depth > d
    decreases |data|
  {
    if data == [] then 0
    else
      var rest := AboveAll(data[1..]);
      var d := if data[0].depth - 1 < rest then data[0].depth - 1 else rest;
      assert forall i :: 1 <= i < |data| ==> data[i] == data[1..][i - 1];
      d
  }

  /** The page: `renderFolders(null)`. Every root has a row, and every row carries its folder's flags. */
  function Page(data: seq<Folder>, expanded: set<string>): (rows: seq<Row>)
    requires DepthOrdered(data)
    ensures RowsOf(data, expanded, rows)
    ensures forall i :: 0 <= i < |data| && data[i].parentId.None? ==> data[i].id in Ids(rows)
  {
    RenderFolders(data, expanded, None, AboveAll(data))
  }

  /**
   * A chain of folders from a child of `parentId` down to the last one, each
   * a child of the one before, with every folder but the last expanded.
   */
  ghost predicate ExpandedPath(data: seq<Folder>, expanded: set<string>, parentId: Option<string>, path: seq<Folder>) {
    && |path| > 0
    && path[0].parentId == parentId
    && (forall k :: 0 <= k < |path| ==> path[k] in data)
    && (forall k :: 0 <= k < |path| - 1 ==> path[k + 1].parentId == Some(path[k].id) && path[k].id in expanded)
  }

  lemma PathTail(data: seq<Folder>, expanded: set<string>, parentId: Option<string>, path: seq<Folder>)
    requires ExpandedPath(data, expanded, parentId, path) && |path| > 1
    ensures path[0].id in expanded
    ensures ExpandedPath(data, expanded, Some(path[0].id), path[1..])
  {
    assert path[1..][0] == path[1];
    forall k | 0 <= k < |path[1..]| - 1
      ensures path[1..][k + 1].parentId == Some(path[1..][k].id) && path[1..][k].id in expanded
    {
      assert path[1..][k] == path[k + 1] && path[1..][k + 1] == path[k + 2];
    }
  }

  lemma PathCons(data: seq<Folder>, expanded: set<string>, parentId: Option<string>, f: Folder, path: seq<Folder>)
    requires f in data && f.parentId == parentId && f.id in expanded
    requires ExpandedPath(data, expanded, Some(f.id), path)
    ensures ExpandedPath(data, expanded, parentId, [f] + path)
    ensures ([f] + path)[|[f] + path| - 1] == path[|path| - 1]
  {
    var p := [f] + path;
    forall k | 0 <= k < |p| - 1 ensures p[k + 1].parentId == Some(p[k].id) && p[k].id in expanded {
      assert p[k + 1] == path[k];
      if k > 0 {
        assert p[k] == path[k - 1];
      }
    }
    forall k | 0 <= k < |p| ensures p[k] in data {
      if k > 0 {
        assert p[k] == path[k - 1];
      }
    }
  }

  /** `path` is an expanded chain from a child of `parentId` that ends at a folder with id `x`. */
  ghost predicate EndsChain(data: seq<Folder>, expanded: set<string>, parentId: Option<string>, path: seq<Folder>, x: string) {
    ExpandedPath(data, expanded, parentId, path) && path[|path| - 1].id == x
  }

  /** Some expanded chain from a child of `parentId` ends at `x`. */
  ghost predicate Reaches(data: seq<Folder>, expanded: set<string>, parentId: Option<string>, x: string) {
    exists path: seq<Folder> :: EndsChain(data, expanded, parentId, path, x)
  }

  /** Some expanded chain that starts at one of `folders` ends at `x`. */
  ghost predicate ReachesFrom(data: seq<Folder>, expanded: set<string>, parentId: Option<string>, folders: seq<Folder>,
                              x: string) {
    exists k: int, path: seq<Folder> :: 0 <= k < |folders| && EndsChain(data, expanded, parentId, path, x) && path[0] == folders[k]
  }

  /** Every folder `renderFolders(parentId)` shows ends an expanded chain from a child of `parentId`. */
  lemma {:induction false} RenderFoldersSound(data: seq<Folder>, expanded: set<string>, parentId: Option<string>,
                                               parentDepth: int, x: string)
    requires DepthOrdered(data) && ChildrenDeeper(data, parentId, parentDepth)
    requires x in Ids(RenderFolders(data, expanded, parentId, parentDepth))
    ensures Reaches(data, expanded, parentId, x)
    decreases CountDeeper(data, parentDepth), 1
  {
    var children := ChildFolders(data, parentId);
    forall k | 0 <= k < |children| ensures children[k] in data && children[k].depth > parentDepth {
      var j :| 0 <= j < |data| && data[j] == children[k];
    }
    RenderEachSound(data, expanded, parentId, children, parentDepth, x);
    var k: int, path: seq<Folder> :| 0 <= k < |children| && EndsChain(data, expanded, parentId, path, x) && path[0] == children[k];
  }

  /** Every folder a run of siblings shows ends an expanded chain that starts at one of them. */
  lemma {:induction false} RenderEachSound(data: seq<Folder>, expanded: set<string>, parentId: Option<string>,
                                            folders: seq<Folder>, parentDepth: int, x: string)
    requires DepthOrdered(data)
    requires forall k :: 0 <= k < |folders| ==> folders[k] in data && folders[k].depth > parentDepth
    requires forall k :: 0 <= k < |folders| ==> folders[k].parentId == parentId
    requires x in Ids(RenderEach(data, expanded, folders, parentDepth))
    ensures ReachesFrom(data, expanded, parentId, folders, x)
    decreases CountDeeper(data, parentDepth), 0, |folders|
  {
    var folder := folders[0];
    var head := [RowOf(data, expanded, folder)];
    var subtree :=
      if folder.id in expanded then RenderFolders(data, expanded, Some(folder.id), folder.depth) else [];
    var rest := RenderEach(data, expanded, folders[1..], parentDepth);
    assert RenderEach(data, expanded, folders, parentDepth) == head + subtree + rest;
    IdsSplit(head, subtree, rest, x);
    if x in Ids(head) {
      assert EndsChain(data, expanded, parentId, [folder], x) && [folder][0] == folders[0];
    } else if x in Ids(subtree) {
      var path := SubtreeSound(data, expanded, parentId, folder, parentDepth, x);
      assert EndsChain(data, expanded, parentId, path, x) && path[0] == folders[0];
    } else {
      RenderEachSound(data, expanded, parentId, folders[1..], parentDepth, x);
      var k: int, path: seq<Folder> :| 0 <= k < |folders[1..]| && EndsChain(data, expanded, parentId, path, x)
        && path[0] == folders[1..][k];
      assert EndsChain(data, expanded, parentId, path, x) && path[0] == folders[k + 1];
    }
  }

  /** A row of `a + b + c` is a row of one of the three. */
  lemma IdsSplit(a: seq<Row>, b: seq<Row>, c: seq<Row>, x: string)
    requires x in Ids(a + b + c)
    ensures x in Ids(a) || x in Ids(b) || x in Ids(c)
  {
    IdsConcat(a + b, c);
    IdsConcat(a, b);
  }

  /** A folder the subtree of an expanded child shows ends a chain through that child. */
  lemma {:induction false} SubtreeSound(data: seq<Folder>, expanded: set<string>, parentId: Option<string>,
                                         folder: Folder, parentDepth: int, x: string)
    returns (path: seq<Folder>)
    requires DepthOrdered(data)
    requires folder in data && folder.depth > parentDepth && folder.parentId == parentId && folder.id in expanded
    requires x in Ids(RenderFolders(data, expanded, Some(folder.id), folder.depth))
    ensures EndsChain(data, expanded, parentId, path, x) && path[0] == folder
    decreases CountDeeper(data, parentDepth), 0, 0
  {
    CountDeeperDecreases(data, folder, parentDepth);
    RenderFoldersSound(data, expanded, Some(folder.id), folder.depth, x);
    var tail: seq<Folder> :| EndsChain(data, expanded, Some(folder.id), tail, x);
    PathCons(data, expanded, parentId, folder, tail);
    path := [folder] + tail;
  }

  /** The end of every expanded chain from a child of `parentId` is shown by `renderFolders(parentId)`. */
  lemma {:induction false} RenderFoldersComplete(data: seq<Folder>, expanded: set<string>, parentId: Option<string>,
                                                  parentDepth: int, path: seq<Folder>)
    requires DepthOrdered(data) && ChildrenDeeper(data, parentId, parentDepth)
    requires ExpandedPath(data, expanded, parentId, path)
    ensures path[|path| - 1].id in Ids(RenderFolders(data, expanded, parentId, parentDepth))
    decreases CountDeeper(data, parentDepth), 1
  {
    var children := ChildFolders(data, parentId);
    var j :| 0 <= j < |data| && data[j] == path[0];
    assert data[j] in children;
    var k :| 0 <= k < |children| && children[k] == path[0];
    forall k | 0 <= k < |children| ensures children[k] in data && children[k].depth > parentDepth {
      var j :| 0 <= j < |data| && data[j] == children[k];
    }
    RenderEachComplete(data, expanded, parentId, children, parentDepth, k, path);
  }

  /** The end of every expanded chain starting at one of a run of siblings is shown by the run. */
  lemma {:induction false} RenderEachComplete(data: seq<Folder>, expanded: set<string>, parentId: Option<string>,
                                               folders: seq<Folder>, parentDepth: int, k: nat, path: seq<Folder>)
    requires DepthOrdered(data)
    requires forall k :: 0 <= k < |folders| ==> folders[k] in data && folders[k].depth > parentDepth
    requires forall k :: 0 <= k < |folders| ==> folders[k].parentId == parentId
    requires k < |folders| && ExpandedPath(data, expanded, parentId, path) && path[0] == folders[k]
    ensures path[|path| - 1].id in Ids(RenderEach(data, expanded, folders, parentDepth))
    decreases CountDeeper(data, parentDepth), 0, |folders|
  {
    var folder := folders[0];
    var head := [RowOf(data, expanded, folder)];
    var subtree :=
      if folder.id in expanded then RenderFolders(data, expanded, Some(folder.id), folder.depth) else [];
    var rest := RenderEach(data, expanded, folders[1..], parentDepth);
    assert RenderEach(data, expanded, folders, parentDepth) == head + subtree + rest;
    var last := path[|path| - 1].id;
    if k > 0 {
      assert last in Ids(rest) by {
        assert path[0] == folders[1..][k - 1];
        RenderEachComplete(data, expanded, parentId, folders[1..], parentDepth, k - 1, path);
      }
    } else if |path| == 1 {
      assert last in Ids(head) by {
        assert Ids(head)[0] == path[0].id;
      }
    } else {
      assert last in Ids(subtree) by {
        PathTail(data, expanded, parentId, path);
        CountDeeperDecreases(data, folder, parentDepth);
        RenderFoldersComplete(data, expanded, Some(folder.id), folder.depth, path[1..]);
        assert path[1..][|path[1..]| - 1] == path[|path| - 1];
      }
    }
    IdsConcat(head + subtree, rest);
    IdsConcat(head, subtree);
  }

  /**
   * The page shows a folder exactly when it ends an expanded chain from a
   * root: it is a root or every one of its ancestors is expanded.
   */
  lemma PageShowsExpandedChains(data: seq<Folder>, expanded: set<string>, x: string)
    requires DepthOrdered(data)
    ensures x in Ids(Page(data, expanded)) <==> Reaches(data, expanded, None, x)
  {
    if x in Ids(Page(data, expanded)) {
      RenderFoldersSound(data, expanded, None, AboveAll(data), x);
    }
    if Reaches(data, expanded, None, x) {
      var path: seq<Folder> :| EndsChain(data, expanded, None, path, x);
      RenderFoldersComplete(data, expanded, None, AboveAll(data), path);
    }
  }

  /** With none of its children expanded, `renderFolders(parentId)` lists exactly its children, in order. */
  lemma {:induction false} CollapsedShowsChildren(data: seq<Folder>, expanded: set<string>, folders: seq<Folder>,
                                                   parentDepth: int)
    requires DepthOrdered(data)
    requires forall k :: 0 <= k < |folders| ==> folders[k] in data && folders[k].depth > parentDepth
    requires forall k :: 0 <= k < |folders| ==> folders[k].id !in expanded
    ensures Ids(RenderEach(data, expanded, folders, parentDepth)) == Map(folders, FolderId)
    decreases |folders|
  {
    if folders != [] {
      CollapsedShowsChildren(data, expanded, folders[1..], parentDepth);
      var rest := RenderEach(data, expanded, folders[1..], parentDepth);
      IdsConcat([RowOf(data, expanded, folders[0])], rest);
      MapConcat([folders[0]], folders[1..], FolderId);
      assert folders == [folders[0]] + folders[1..];
    }
  }

  lemma ThreeLevelsDepthOrdered()
    ensures DepthOrdered(ThreeLevels())
  {
    var data := ThreeLevels();
    forall i, j | 0 <= i < |data| && 0 <= j < |data| && data[i].parentId == Some(data[j].id)
      ensures data[j].depth < data[i].depth
    {
      assert "a" != "b" && "a" != "c" && "b" != "c" by {
        assert "a"[0] != "b"[0] && "a"[0] != "c"[0] && "b"[0] != "c"[0];
      }
    }
  }

  /** On the three-level list, collapsing the root hides its grandchild too, whatever its parent's state. */
  lemma CollapsedGrandparentHidesAll()
    ensures DepthOrdered(ThreeLevels()) && Ids(Page(ThreeLevels(), {"b"})) == ["a"]
  {
    var data := ThreeLevels();
    ThreeLevelsDepthOrdered();
    var roots := ChildFolders(data, None);
    assert roots == [data[0]] by {
      assert data[1..][1..] == [data[2]];
      assert data[1..] == [data[1], data[2]];
      assert Filter(data[1..][1..], ChildOf(None)) == [];
      assert Filter(data[1..], ChildOf(None)) == [];
    }
    assert "a" !in {"b"} by {
      assert "a"[0] != "b"[0];
    }
    CollapsedShowsChildren(data, {"b"}, roots, AboveAll(data));
    assert Map(roots, FolderId) == ["a"];
  }
}
