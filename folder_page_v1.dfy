/**
 * The flat rendering of src/pages/Folders/FolderPageV1.tsx: every folder of
 * the list is considered in list order and shown when it is a root or when
 * its direct parent is expanded. Deeper ancestors are not consulted, which
 * the page's own comment names as its limitation; `CollapsedGrandparent`
 * shows it on a three-level list.
 */
module FolderPageV1 {
  import opened Common
  import opened FolderTree

  /** `isChildFolder && !parentExpanded` is the test for hiding a folder. */
  predicate Shown(expanded: set<string>, f: Folder) {
    f.parentId.None? || f.parentId.value in expanded
  }

  /** The rows for the folders of `rest`, in order; `data` is the whole list `hasChildren` searches. */
  function RenderFrom(data: seq<Folder>, expanded: set<string>, rest: seq<Folder>): (rows: seq<Row>)
    ensures |rows| <= |rest|
    ensures RowsOf(data, expanded, rows)
    decreases |rest|
  {
    if rest == [] then []
    else
      var head := if Shown(expanded, rest[0]) then [RowOf(data, expanded, rest[0])] else [];
      head + RenderFrom(data, expanded, rest[1..])
  }

  /** A row shows a folder of `rest` that passes the test, and every such folder has a row. */
  lemma {:induction false} RenderFromShows(data: seq<Folder>, expanded: set<string>, rest: seq<Folder>)
    ensures forall i :: 0 <= i < |RenderFrom(data, expanded, rest)| ==>
      exists j :: 0 <= j < |rest| && rest[j].id == RenderFrom(data, expanded, rest)[i].id && Shown(expanded, rest[j])
    ensures forall j :: 0 <= j < |rest| && Shown(expanded, rest[j]) ==> rest[j].id in Ids(RenderFrom(data, expanded, rest))
    decreases |rest|
  {
    if rest != [] {
      var head := if Shown(expanded, rest[0]) then [RowOf(data, expanded, rest[0])] else [];
      var tail := RenderFrom(data, expanded, rest[1..]);
      var rows := RenderFrom(data, expanded, rest);
      assert rows == head + tail;
      RenderFromShows(data, expanded, rest[1..]);
      IdsConcat(head, tail);
      forall i | 0 <= i < |rows|
        ensures exists j :: 0 <= j < |rest| && rest[j].id == rows[i].id && Shown(expanded, rest[j])
      {
        if i < |head| {
          assert rest[0].id == rows[i].id;
        } else {
          assert tail[i - |head|] == rows[i];
          var j :| 0 <= j < |rest[1..]| && rest[1..][j].id == tail[i - |head|].id && Shown(expanded, rest[1..][j]);
          assert rest[j + 1] == rest[1..][j];
          assert rest[j + 1].id == rows[i].id && Shown(expanded, rest[j + 1]);
        }
      }
      forall j | 0 <= j < |rest| && Shown(expanded, rest[j]) ensures rest[j].id in Ids(rows) {
        if j == 0 {
          assert Ids(head) == [rest[0].id];
        } else {
          assert rest[1..][j - 1] == rest[j];
        }
      }
    } else {
      assert RenderFrom(data, expanded, rest) == [];
    }
  }

  /**
   * `renderFolders`: the rows of the whole list. Each row shows a folder that
   * is a root or has an expanded direct parent, and each such folder has a row.
   */
  function RenderFolders(data: seq<Folder>, expanded: set<string>): (rows: seq<Row>)
    ensures RowsOf(data, expanded, rows)
    ensures forall i :: 0 <= i < |rows| ==>
      exists j :: 0 <= j < |data| && data[j].id == rows[i].id && Shown(expanded, data[j])
    ensures forall j :: 0 <= j < |data| && Shown(expanded, data[j]) ==> data[j].id in Ids(rows)
  {
    var rows := RenderFrom(data, expanded, data);
    RenderFromShows(data, expanded, data);
    assert forall i :: 0 <= i < |rows| ==>
      exists j :: 0 <= j < |data| && data[j].id == rows[i].id && Shown(expanded, data[j]);
    rows
  }

  /** Rows follow the list: rendering a split list renders each part in turn. */
  lemma {:induction false} RenderFromConcat(data: seq<Folder>, expanded: set<string>, a: seq<Folder>, b: seq<Folder>)
    ensures RenderFrom(data, expanded, a + b) == RenderFrom(data, expanded, a) + RenderFrom(data, expanded, b)
    decreases |a|
  {
    if a == [] {
      assert a + b == b;
    } else {
      var head := if Shown(expanded, a[0]) then [RowOf(data, expanded, a[0])] else [];
      assert (a + b)[0] == a[0];
      assert (a + b)[1..] == a[1..] + b;
      assert RenderFrom(data, expanded, a + b) == head + RenderFrom(data, expanded, a[1..] + b);
      RenderFromConcat(data, expanded, a[1..], b);
      assert RenderFrom(data, expanded, a) == head + RenderFrom(data, expanded, a[1..]);
    }
  }

  /**
   * With unique ids, a folder is shown exactly when it is a root or its
   * direct parent is expanded, and its row carries its expanded flag and
   * child test.
   */
  lemma ShownIff(data: seq<Folder>, expanded: set<string>, i: nat)
    requires i < |data|
    requires DistinctKeys(data, FolderId)
    ensures data[i].id in Ids(RenderFolders(data, expanded)) <==>
      data[i].parentId.None? || data[i].parentId.value in expanded
    ensures RowsOf(data, expanded, RenderFolders(data, expanded))
  {
    var rows := RenderFolders(data, expanded);
    RenderFromShows(data, expanded, data);
    if data[i].id in Ids(rows) {
      var k :| 0 <= k < |rows| && Ids(rows)[k] == data[i].id;
      var j :| 0 <= j < |data| && data[j].id == rows[k].id && Shown(expanded, data[j]);
      assert FolderId(data[j]) == FolderId(data[i]);
    }
  }

  /**
   * The limitation the page documents: a grandchild whose parent is still
   * expanded stays visible after its grandparent is collapsed.
   */
  lemma CollapsedGrandparent()
    ensures Ids(RenderFolders(ThreeLevels(), {"b"})) == ["a", "c"]
  {
    var data := ThreeLevels();
    assert data[1..][1..] == [data[2]];
    assert data[1..] == [data[1], data[2]];
  }
}
