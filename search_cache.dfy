/**
 * The search and page caches: rows are looked up by a normalised key, the newest row wins, and a
 * row older than the time-to-live counts as missing. SHA-256 is modelled as the identity on the
 * key (an injective key function) and JSON (de)serialisation as given functions.
 */
module SearchCache {
  import opened Wrappers
  import opened Strings

  /** One search hit as the tools return it. */
  datatype Item = Item(title: string, url: string, snippet: string)

  /** A `search_cache` row; `createdAt` is in seconds. */
  datatype SearchRow = SearchRow(id: int, provider: string, queryHash: string, queryText: string,
                                 resultsJson: string, createdAt: Option<real>)

  /** A `page_cache` row; `fetchedAt` is in seconds. */
  datatype PageRow = PageRow(id: int, urlHash: string, url: string, text: string, fetchedAt: Option<real>)

  /** The search key hashes the stripped, lowercased query. */
  function QueryKey(query: string): string {
    Lower(Strip(query))
  }

  /** `ORDER BY id DESC LIMIT 1` over the rows satisfying `p`. */
  function Newest<T>(rows: seq<T>, id: T -> int, p: T -> bool): (r: Option<T>)
    ensures r.None? <==> forall k :: 0 <= k < |rows| ==> !p(rows[k])
    ensures r.Some? ==> (r.value in rows && p(r.value) &&
      forall k :: 0 <= k < |rows| && p(rows[k]) ==> id(rows[k]) <= id(r.value))
    decreases |rows|
  {
    if |rows| == 0 then None
    else
      var last := rows[|rows| - 1];
      var rest := Newest(rows[..|rows| - 1], id, p);
      assert forall k :: 0 <= k < |rows| - 1 ==> rows[..|rows| - 1][k] == rows[k];
      if p(last) && (rest.None? || id(rest.value) <= id(last)) then Some(last)
      else if rest.Some? then Some(rest.value)
      else None
  }

  /** `created and (utcnow() - created).total_seconds() > ttl_min * 60` */
  predicate Expired(stamp: Option<real>, now: real, ttlMin: int) {
    stamp.Some? && now - stamp.value > (ttlMin * 60) as real
  }

  function SearchId(r: SearchRow): int { r.id }
  function PageId(r: PageRow): int { r.id }

  /** `get_search_cache`, given the rows, the clock and the JSON parser (`None` where it raises). */
  function GetSearchCache(rows: seq<SearchRow>, provider: string, query: string, ttlMin: int, now: real,
                          loads: string -> Option<seq<Item>>): (r: Option<seq<Item>>)
    ensures (forall k :: 0 <= k < |rows| ==> !(rows[k].provider == provider && rows[k].queryHash == QueryKey(query)))
      ==> r.None?
    ensures r.Some? ==> exists row :: (row in rows && row.provider == provider && row.queryHash == QueryKey(query) &&
      !Expired(row.createdAt, now, ttlMin) && loads(row.resultsJson) == r)
  {
    var key := QueryKey(query);
    match Newest(rows, SearchId, (row: SearchRow) => row.provider == provider && row.queryHash == key)
    case None => None
    case Some(row) =>
      if Expired(row.createdAt, now, ttlMin) then None else loads(row.resultsJson)
  }

  /** One more than every id in the table: the auto-increment key of the next insert. */
  function NextId<T>(rows: seq<T>, id: T -> int): (n: int)
    ensures forall k :: 0 <= k < |rows| ==> id(rows[k]) < n
    decreases |rows|
  {
    if |rows| == 0 then 1
    else
      var m := NextId(rows[..|rows| - 1], id);
      assert forall k :: 0 <= k < |rows| - 1 ==> rows[..|rows| - 1][k] == rows[k];
      var last := id(rows[|rows| - 1]);
      if last < m then m else last + 1
  }

  /** `put_search_cache`: a new row stamped now, under the normalised key. */
  function PutSearchCache(rows: seq<SearchRow>, provider: string, query: string, results: seq<Item>, now: real,
                          dumps: seq<Item> -> string): (r: seq<SearchRow>)
    ensures |r| == |rows| + 1 && r[..|rows|] == rows
  {
    rows + [SearchRow(NextId(rows, SearchId), provider, QueryKey(query), query, dumps(results), Some(now))]
  }

  /**
   * What was stored is found again, under any query with the same key, as long as the TTL has not
   * run out; once it has, the lookup misses.
   */
  lemma GetAfterPut(rows: seq<SearchRow>, provider: string, query: string, results: seq<Item>, stored: real,
                    dumps: seq<Item> -> string, loads: string -> Option<seq<Item>>,
                    again: string, ttlMin: int, now: real)
    requires QueryKey(again) == QueryKey(query)
    requires loads(dumps(results)) == Some(results)
    ensures var rows' := PutSearchCache(rows, provider, query, results, stored, dumps);
      GetSearchCache(rows', provider, again, ttlMin, now, loads) ==
        if now - stored > (ttlMin * 60) as real then None else Some(results)
  {
    var rows' := PutSearchCache(rows, provider, query, results, stored, dumps);
    var p := (row: SearchRow) => row.provider == provider && row.queryHash == QueryKey(query);
    NewestIsLast(rows, rows'[|rows|], SearchId, p);
    assert rows' == rows + [rows'[|rows|]];
  }

  /** A matching row appended with an id above all others is the newest. */
  lemma NewestIsLast<T>(rows: seq<T>, x: T, id: T -> int, p: T -> bool)
    requires p(x) && forall k :: 0 <= k < |rows| ==> id(rows[k]) < id(x)
    ensures Newest(rows + [x], id, p) == Some(x)
  {
    var s := rows + [x];
    assert s[..|s| - 1] == rows;
  }

  /** The query is normalised before hashing, so case and surrounding blanks do not matter. */
  lemma QueryKeyNormalises()
    ensures QueryKey("  Погода Київ ") == QueryKey("погода київ")
  {
    assert Strip("  Погода Київ ") == "Погода Київ" by {
      assert TrimLeft("  Погода Київ ") == "Погода Київ ";
    }
    assert Strip("погода київ") == "погода київ";
  }

  /** `get_page_cache`: keyed by the URL as given, the newest row, `None` once older than the TTL. */
  function GetPageCache(rows: seq<PageRow>, url: string, ttlMin: int, now: real): (r: Option<string>)
    ensures (forall k :: 0 <= k < |rows| ==> rows[k].urlHash != url) ==> r.None?
    ensures r.Some? ==> exists row :: (row in rows && row.urlHash == url && !Expired(row.fetchedAt, now, ttlMin) &&
      r == Some(row.text))
  {
    match Newest(rows, PageId, (row: PageRow) => row.urlHash == url)
    case None => None
    case Some(row) => if Expired(row.fetchedAt, now, ttlMin) then None else Some(row.text)
  }

  /** `put_page_cache` */
  function PutPageCache(rows: seq<PageRow>, url: string, text: string, now: real): (r: seq<PageRow>)
    ensures |r| == |rows| + 1 && r[..|rows|] == rows
  {
    rows + [PageRow(NextId(rows, PageId), url, url, text, Some(now))]
  }

  /** A stored page is served until its TTL runs out. */
  lemma PageAfterPut(rows: seq<PageRow>, url: string, text: string, stored: real, ttlMin: int, now: real)
    ensures GetPageCache(PutPageCache(rows, url, text, stored), url, ttlMin, now) ==
      if now - stored > (ttlMin * 60) as real then None else Some(text)
  {
    var rows' := PutPageCache(rows, url, text, stored);
    NewestIsLast(rows, rows'[|rows|], PageId, (row: PageRow) => row.urlHash == url);
    assert rows' == rows + [rows'[|rows|]];
  }
}
