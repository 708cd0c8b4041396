/**
 * The `characters` field policy of the Apollo cache in
 * src/pages/ApolloClient/client.ts. With `keyArgs: false` every `characters`
 * query, whatever its arguments, shares one cache entry, so the entry is a
 * single optional page here. Its `merge` keeps every field of the incoming
 * page and puts the incoming results after the ones already cached: fetching
 * page after page builds up one list in fetch order.
 *
 * A page is its `info` (any value: the merge copies it untouched) and its
 * `results`.
 */
module CharactersCache {
  import opened Common

  datatype Page<Info, Character> = Page(info: Info, results: seq<Character>)

  /** `existing?.results || []`. */
  function ExistingResults<Info, Character>(existing: Option<Page<Info, Character>>): (r: seq<Character>)
    ensures existing.None? ==> r == []
    ensures existing.Some? ==> r == existing.value.results
  {
    match existing
    case None => []
    case Some(page) => page.results
  }

  /**
   * `merge(existing, incoming)`: the incoming page's other fields, with the
   * cached results first and the incoming ones after them.
   */
  function Merge<Info, Character>(existing: Option<Page<Info, Character>>, incoming: Page<Info, Character>)
    : (merged: Page<Info, Character>)
    ensures merged.info == incoming.info
    ensures |merged.results| == |ExistingResults(existing)| + |incoming.results|
    ensures merged.results[..|ExistingResults(existing)|] == ExistingResults(existing)
    ensures merged.results[|ExistingResults(existing)|..] == incoming.results
  {
    incoming.(results := ExistingResults(existing) + incoming.results)
  }

  /** The first page reaching an empty entry is stored as it came. */
  lemma FirstPageStoredAsIs<Info, Character>(incoming: Page<Info, Character>)
    ensures Merge(None, incoming) == incoming
  {
  }

  /** The cache entry after each page of `pages` arrives in turn. */
  function Receive<Info, Character>(entry: Option<Page<Info, Character>>, pages: seq<Page<Info, Character>>)
    : (r: Option<Page<Info, Character>>)
    ensures pages != [] ==> r.Some?
    ensures entry.Some? ==> r.Some?
    ensures ExistingResults(entry) <= ExistingResults(r)
    decreases |pages|
  {
    if pages == [] then entry else Receive(Some(Merge(entry, pages[0])), pages[1..])
  }

  /** All results of `pages`, page by page. */
  function AllResults<Info, Character>(pages: seq<Page<Info, Character>>): seq<Character>
    decreases |pages|
  {
    if pages == [] then [] else pages[0].results + AllResults(pages[1..])
  }

  /**
   * After any non-empty run of fetches the entry holds the results cached
   * before, then every fetched page's results in fetch order, and the
   * `info` of the last page fetched.
   */
  lemma {:induction false} ReceiveAccumulates<Info, Character>(
    entry: Option<Page<Info, Character>>, pages: seq<Page<Info, Character>>)
    requires pages != []
    ensures Receive(entry, pages).Some?
    ensures Receive(entry, pages).value.results == ExistingResults(entry) + AllResults(pages)
    ensures Receive(entry, pages).value.info == pages[|pages| - 1].info
    decreases |pages|
  {
    var next := Some(Merge(entry, pages[0]));
    assert Receive(entry, pages) == Receive(next, pages[1..]);
    assert AllResults(pages) == pages[0].results + AllResults(pages[1..]);
    if |pages| > 1 {
      ReceiveAccumulates(next, pages[1..]);
      assert pages[1..][|pages[1..]| - 1] == pages[|pages| - 1];
    } else {
      assert pages[1..] == [];
      assert Receive(next, pages[1..]) == next;
    }
  }

  /** Cached results are never lost or reordered: what was cached stays a prefix. */
  lemma CachedResultsArePrefix<Info, Character>(entry: Option<Page<Info, Character>>, pages: seq<Page<Info, Character>>)
    requires pages != []
    ensures Receive(entry, pages).Some? && ExistingResults(entry) <= Receive(entry, pages).value.results
  {
    ReceiveAccumulates(entry, pages);
  }

  /** Fetching in two runs gives the entry fetching in one run gives. */
  lemma {:induction false} ReceiveConcat<Info, Character>(
    entry: Option<Page<Info, Character>>, a: seq<Page<Info, Character>>, b: seq<Page<Info, Character>>)
    ensures Receive(entry, a + b) == Receive(Receive(entry, a), b)
    decreases |a|
  {
    if a == [] {
      assert a + b == b;
    } else {
      assert (a + b)[0] == a[0];
      assert (a + b)[1..] == a[1..] + b;
      ReceiveConcat(Some(Merge(entry, a[0])), a[1..], b);
    }
  }
}
