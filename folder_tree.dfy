/**
 * What the two folder pages of src/pages/Folders share: the folder records
 * of `foldersData`, the set of expanded folder ids with its `toggleFolder`,
 * the `hasChildren` test, and the row each rendered folder shows.
 *
 * The folder records are the fields the pages read: `_id`, `name`,
 * `parentId` (`None` for the source's `null`, a root) and `depth`.
 * src/pages/Folders/data.ts, which holds the concrete list, is not part of
 * this model: every operation takes the list as a parameter.
 */
module FolderTree {
  import opened Common

  datatype Folder = Folder(id: string, name: string, parentId: Option<string>, depth: int)

  /** What one rendered folder shows: its name at its depth, and a toggle when it has children. */
  datatype Row = Row(id: string, name: string, depth: int, isExpanded: bool, hasChildren: bool)

  function FolderId(f: Folder): string { f.id }
  function RowId(row: Row): string { row.id }

  /** The ids of rendered rows, in order. */
  function Ids(rows: seq<Row>): (ids: seq<string>)
    ensures |ids| == |rows|
    ensures forall i :: 0 <= i < |rows| ==> ids[i] == rows[i].id
  {
    Map(rows, RowId)
  }

  lemma IdsConcat(a: seq<Row>, b: seq<Row>)
    ensures Ids(a + b) == Ids(a) + Ids(b)
  {
    MapConcat(a, b, RowId);
  }

  /** `toggleFolder`: the id flips membership, every other id keeps it. */
  function Toggle(expanded: set<string>, folderId: string): (r: set<string>)
    ensures folderId in r <==> folderId !in expanded
    ensures forall x :: x != folderId ==> (x in r <==> x in expanded)
  {
    if folderId in expanded then expanded - {folderId} else expanded + {folderId}
  }

  /** Toggling a folder twice restores the expanded set. */
  lemma ToggleTwice(expanded: set<string>, folderId: string)
    ensures Toggle(Toggle(expanded, folderId), folderId) == expanded
  {
  }

  /** `foldersData.some(f => f.parentId === folderId)`. */
  function HasChildren(data: seq<Folder>, folderId: string): (b: bool)
    ensures b <==> exists i :: 0 <= i < |data| && data[i].parentId == Some(folderId)
    decreases |data|
  {
    if data == [] then false
    else if data[0].parentId == Some(folderId) then true
    else
      var rest := HasChildren(data[1..], folderId);
      assert rest ==> exists i :: 0 <= i < |data| && data[i].parentId == Some(folderId) by {
        if rest {
          var i :| 0 <= i < |data[1..]| && data[1..][i].parentId == Some(folderId);
          assert data[i + 1].parentId == Some(folderId);
        }
      }
      rest
  }

  /** The row a rendered folder shows, with `isExpanded` and `hasChildren` as the pages compute them. */
  function RowOf(data: seq<Folder>, expanded: set<string>, f: Folder): Row {
    Row(f.id, f.name, f.depth, f.id in expanded, HasChildren(data, f.id))
  }

  /** Every row carries the expanded flag and child test of the folder it shows. */
  ghost predicate RowsOf(data: seq<Folder>, expanded: set<string>, rows: seq<Row>) {
    forall i :: 0 <= i < |rows| ==>
      && rows[i].isExpanded == (rows[i].id in expanded)
      && rows[i].hasChildren == HasChildren(data, rows[i].id)
  }

  /** A root `a`, its child `b` and its grandchild `c`. */
  function ThreeLevels(): seq<Folder> {
    [Folder("a", "A", None, 0), Folder("b", "B", Some("a"), 1), Folder("c", "C", Some("b"), 2)]
  }
}
