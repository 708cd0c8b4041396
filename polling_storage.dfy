/**
 * The stored list of polling ids of src/pages/Polling/Polling3/localUtils.ts.
 *
 * The list lives under the key 'pollingIds-3' of `localStorage` as JSON;
 * here the stored text is replaced by the list it encodes, and an absent (or
 * empty, hence falsy) item by `None`. Every write stores a list, so after an
 * add or an update there is always one.
 */
module PollingStorage {
  import opened Common

  /** `LocalStorageData`. */
  datatype Entry = Entry(id: string, isDone: bool)

  /** `getAllPollingData`: the stored list, or the empty list when nothing is stored. */
  function AllPollingData(stored: Option<seq<Entry>>): (data: seq<Entry>)
    ensures stored.None? ==> data == []
    ensures stored.Some? ==> data == stored.value
  {
    match stored
    case None => []
    case Some(list) => list
  }

  /** `getPollingIds`: exactly the stored entries still running (`isDone` false), in stored order. */
  function PollingIds(stored: Option<seq<Entry>>): (r: seq<Entry>)
    ensures forall i :: 0 <= i < |r| ==> !r[i].isDone && r[i] in AllPollingData(stored)
    ensures forall i :: 0 <= i < |AllPollingData(stored)| && !AllPollingData(stored)[i].isDone
                     ==> AllPollingData(stored)[i] in r
  {
    Filter(AllPollingData(stored), (e: Entry) => !e.isDone)
  }

  /** The running entries of a concatenation are those of each part, in order. */
  lemma PollingIdsConcat(a: seq<Entry>, b: seq<Entry>)
    ensures PollingIds(Some(a + b)) == PollingIds(Some(a)) + PollingIds(Some(b))
  {
    FilterConcat(a, b, (e: Entry) => !e.isDone);
  }

  /** `findIndex(item => item.id === id)`: the first position holding `id`, or -1. */
  method FindIndex(data: seq<Entry>, id: string) returns (index: int)
    ensures -1 <= index < |data|
    ensures index == -1 <==> forall k :: 0 <= k < |data| ==> data[k].id != id
    ensures index >= 0 ==> data[index].id == id && forall k :: 0 <= k < index ==> data[k].id != id
  {
    index := 0;
    while index < |data|
      invariant 0 <= index <= |data|
      invariant forall k :: 0 <= k < index ==> data[k].id != id
    {
      if data[index].id == id {
        return;
      }
      index := index + 1;
    }
    index := -1;
  }

  /** The list after setting `isDone` on the entry at `index`; only that entry changes. */
  function SetDoneAt(data: seq<Entry>, index: nat, isDone: bool): (r: seq<Entry>)
    requires index < |data|
    ensures |r| == |data|
    ensures r[index] == Entry(data[index].id, isDone)
    ensures forall k :: 0 <= k < |data| && k != index ==> r[k] == data[k]
  {
    data[index := data[index].(isDone := isDone)]
  }

  /** The `localStorage` item that holds the polling ids. */
  class PollingStore {
    var stored: Option<seq<Entry>>

    /** A store whose item may already hold a list from an earlier visit. */
    constructor (initial: Option<seq<Entry>>)
      ensures stored == initial
    {
      stored := initial;
    }

    /** `getPollingIds` on the current item: the imperative counterpart of `PollingIds`, which the lemmas use. */
    method GetPollingIds() returns (r: seq<Entry>)
      ensures r == PollingIds(stored)
    {
      var all := GetAllPollingData();
      r := Filter(all, (e: Entry) => !e.isDone);
    }

    /** `getAllPollingData` on the current item: the imperative counterpart of `AllPollingData`. */
    method GetAllPollingData() returns (data: seq<Entry>)
      ensures data == AllPollingData(stored)
    {
      data := match stored case None => [] case Some(list) => list;
    }

    /**
     * `addPollingId`: pushes `{id, isDone: false}` onto the stored list and
     * writes it back. Nothing is de-duplicated: adding an id twice stores it
     * twice.
     */
    method AddPollingId(id: string)
      modifies this
      ensures stored == Some(AllPollingData(old(stored)) + [Entry(id, false)])
    {
      var pollingData := GetAllPollingData();
      pollingData := pollingData + [Entry(id, false)];
      stored := Some(pollingData);
    }

    /**
     * `updatePollingId`: sets `isDone` on the first entry with that id and
     * writes the list back; an absent id writes the list back unchanged.
     */
    method UpdatePollingId(id: string, isDone: bool)
      modifies this
      ensures stored.Some?
      ensures stored.value == UpdatedFirst(AllPollingData(old(stored)), id, isDone)
    {
      var pollingData := GetAllPollingData();
      var index := FindIndex(pollingData, id);
      if index == -1 {
        UpdatedFirstAbsent(pollingData, id, isDone);
      } else {
        UpdatedFirstSpec(pollingData, id, isDone, index);
        pollingData := pollingData[index := pollingData[index].(isDone := isDone)];
      }
      stored := Some(pollingData);
    }
  }

  /** The list `updatePollingId` writes back. */
  function UpdatedFirst(data: seq<Entry>, id: string, isDone: bool): (r: seq<Entry>)
    ensures |r| == |data|
    ensures forall k :: 0 <= k < |data| ==> r[k].id == data[k].id
    decreases |data|
  {
    if data == [] then []
    else if data[0].id == id then [data[0].(isDone := isDone)] + data[1..]
    else [data[0]] + UpdatedFirst(data[1..], id, isDone)
  }

  /**
   * The update changes `isDone` on the first entry with the id and on no
   * other entry: later entries with the same id keep their value.
   */
  lemma {:induction false} UpdatedFirstSpec(data: seq<Entry>, id: string, isDone: bool, first: nat)
    requires first < |data| && data[first].id == id
    requires forall k :: 0 <= k < first ==> data[k].id != id
    ensures UpdatedFirst(data, id, isDone) == SetDoneAt(data, first, isDone)
    decreases |data|
  {
    if first > 0 {
      UpdatedFirstSpec(data[1..], id, isDone, first - 1);
    }
  }

  /** An update for an id no entry has leaves the list as it was. */
  lemma {:induction false} UpdatedFirstAbsent(data: seq<Entry>, id: string, isDone: bool)
    requires forall k :: 0 <= k < |data| ==> data[k].id != id
    ensures UpdatedFirst(data, id, isDone) == data
    decreases |data|
  {
    if data != [] {
      UpdatedFirstAbsent(data[1..], id, isDone);
    }
  }

  /** After `addPollingId(id)` the id is among the running entries `getPollingIds` returns. */
  lemma AddedIdIsPolled(stored: Option<seq<Entry>>, id: string)
    ensures Entry(id, false) in PollingIds(Some(AllPollingData(stored) + [Entry(id, false)]))
  {
    PollingIdsConcat(AllPollingData(stored), [Entry(id, false)]);
    assert PollingIds(Some([Entry(id, false)])) == [Entry(id, false)];
  }

  /** Marking the only entry with an id as done drops that id from the running entries. */
  lemma DoneIdNotPolled(data: seq<Entry>, id: string, first: nat)
    requires first < |data| && data[first].id == id
    requires forall k :: 0 <= k < |data| && k != first ==> data[k].id != id
    ensures forall i :: 0 <= i < |PollingIds(Some(UpdatedFirst(data, id, true)))|
                     ==> PollingIds(Some(UpdatedFirst(data, id, true)))[i].id != id
  {
    UpdatedFirstSpec(data, id, true, first);
    var r := UpdatedFirst(data, id, true);
    var p := PollingIds(Some(r));
    forall i | 0 <= i < |p| ensures p[i].id != id {
      assert p[i] in r && !p[i].isDone;
      var k :| 0 <= k < |r| && r[k] == p[i];
      assert k != first;
    }
  }

  /** Marking an entry as done keeps every other running entry, in order. */
  lemma DoneKeepsOthersPolled(data: seq<Entry>, id: string, first: nat)
    requires first < |data| && data[first].id == id
    requires forall k :: 0 <= k < first ==> data[k].id != id
    ensures PollingIds(Some(UpdatedFirst(data, id, true)))
         == PollingIds(Some(data[..first])) + PollingIds(Some(data[first + 1..]))
  {
    UpdatedFirstSpec(data, id, true, first);
    var r := UpdatedFirst(data, id, true);
    var a, done, b := data[..first], [Entry(id, true)], data[first + 1..];
    assert r == a + done + b by {
      assert |r| == |a + done + b|;
      forall k | 0 <= k < |r| ensures r[k] == (a + done + b)[k] {
        if k < first {
          assert (a + done + b)[k] == a[k];
        } else if k > first {
          assert (a + done + b)[k] == b[k - first - 1];
        }
      }
    }
    assert PollingIds(Some(done)) == [] by {
      assert done[1..] == [];
    }
    PollingIdsConcat(a + done, b);
    PollingIdsConcat(a, done);
    assert PollingIds(Some(a + done)) == PollingIds(Some(a));
  }
}
