/**
 * `search_web`: the result limit, the cache short-circuit, the provider choice with its recency
 * parameter, and the truncation and caching of what the provider returns. The HTTP exchange and
 * the HTML parsing are inputs.
 */
module WebSearch {
  import opened Wrappers
  import opened Strings
  import opened Sequences
  import opened SearchCache

  const DefaultProvider: string := "ddg"
  const DefaultMaxResults: int := 5
  const DefaultTtlMin: int := 30
  const HardLimit: int := 10

  /** `SEARCH_PROVIDER` (lowercased), `SEARCH_MAX_RESULTS`, `SEARCH_TTL_MIN` and the API keys. */
  datatype SearchConfig = SearchConfig(provider: string, maxResults: int, ttlMin: int, env: map<string, string>)

  /** `min(max_results or MAX_RESULTS, 10)`: a missing or zero request falls back to the configured count. */
  function Limit(maxResults: Option<int>, configured: int): (l: int)
    ensures l <= HardLimit
    ensures maxResults.Some? && maxResults.value != 0 ==> l == if maxResults.value < HardLimit then maxResults.value else HardLimit
    ensures (maxResults.None? || maxResults.value == 0) ==> l == if configured < HardLimit then configured else HardLimit
  {
    var n := if maxResults.Some? && maxResults.value != 0 then maxResults.value else configured;
    if n < HardLimit then n else HardLimit
  }

  /** A positive limit bounds the number of results by ten. */
  lemma LimitBound(xs: seq<Item>, maxResults: Option<int>, configured: int)
    requires Limit(maxResults, configured) >= 0
    ensures |PyTake(xs, Limit(maxResults, configured))| <= HardLimit
  {
  }

  /** The recency bucket: up to a day, up to a week, otherwise a month; none for a missing or zero value. */
  datatype Bucket = Day | Week | Month

  function RecencyBucket(recencyDays: Option<int>): (b: Option<Bucket>)
    ensures b.None? <==> recencyDays.None? || recencyDays.value == 0
    ensures b == Some(Day) <==> recencyDays.Some? && recencyDays.value != 0 && recencyDays.value <= 1
    ensures b == Some(Week) <==> recencyDays.Some? && 1 < recencyDays.value <= 7
    ensures b == Some(Month) <==> recencyDays.Some? && recencyDays.value > 7
  {
    if recencyDays.None? || recencyDays.value == 0 then None
    else if recencyDays.value <= 1 then Some(Day)
    else if recencyDays.value <= 7 then Some(Week)
    else Some(Month)
  }

  /** Bing's `freshness` value. */
  function BingFreshness(b: Bucket): string {
    match b case Day => "Day" case Week => "Week" case Month => "Month"
  }

  /** Serper's `tbs` value. */
  function SerperTbs(b: Bucket): string {
    "qdr:" + match b case Day => "d" case Week => "w" case Month => "m"
  }

  datatype Provider = Bing | Serper | Tavily | Ddg

  /** A provider with an API is used only when its key is set and non-empty; anything else is DuckDuckGo. */
  function ChooseProvider(cfg: SearchConfig): (p: Provider)
    ensures p == Bing <==> cfg.provider == "bing" && "BING_API_KEY" in cfg.env && cfg.env["BING_API_KEY"] != ""
    ensures p == Serper ==> cfg.provider == "serper"
    ensures p == Tavily ==> cfg.provider == "tavily"
    ensures cfg.provider !in {"bing", "serper", "tavily"} ==> p == Ddg
  {
    if cfg.provider == "bing" && Truthy(Lookup(cfg.env, "BING_API_KEY")) then Bing
    else if cfg.provider == "serper" && Truthy(Lookup(cfg.env, "SERPER_API_KEY")) then Serper
    else if cfg.provider == "tavily" && Truthy(Lookup(cfg.env, "TAVILY_API_KEY")) then Tavily
    else Ddg
  }

  /** `os.getenv(key)` */
  function Lookup(env: map<string, string>, key: string): Option<string> {
    if key in env then Some(env[key]) else None
  }

  /** The request parameters that depend on the model: the count and the recency parameter. */
  datatype Request =
    | BingRequest(count: int, freshness: Option<string>)
    | SerperRequest(num: int, tbs: Option<string>)
    | TavilyRequest(maxResults: int, days: Option<int>)
    | DdgRequest

  function RequestFor(p: Provider, limit: int, recencyDays: Option<int>): (r: Request)
    ensures r.BingRequest? ==> r.count == limit
    ensures r.SerperRequest? ==> r.num == limit
    ensures r.TavilyRequest? ==> r.maxResults == limit && (r.days.Some? <==> RecencyBucket(recencyDays).Some?)
  {
    var b := RecencyBucket(recencyDays);
    match p
    case Bing => BingRequest(limit, if b.Some? then Some(BingFreshness(b.value)) else None)
    case Serper => SerperRequest(limit, if b.Some? then Some(SerperTbs(b.value)) else None)
    case Tavily => TavilyRequest(limit, if b.Some? then recencyDays else None)
    case Ddg => DdgRequest
  }

  /** A JSON hit as a string dictionary; `it.get(k, "")`. */
  function Field(hit: map<string, string>, key: string): string {
    if key in hit then hit[key] else ""
  }

  /** The dictionary keys a provider's hits use for title, link and snippet. */
  function FieldNames(p: Provider): (string, string, string) {
    match p
    case Bing => ("name", "url", "snippet")
    case Serper => ("title", "link", "snippet")
    case Tavily => ("title", "url", "content")
    case Ddg => ("title", "url", "snippet")
  }

  function ItemOf(hit: map<string, string>, names: (string, string, string)): Item {
    Item(Field(hit, names.0), Field(hit, names.1), Field(hit, names.2))
  }

  /** The items built from the hits, one for one and in order. */
  function ItemsOf(hits: seq<map<string, string>>, names: (string, string, string)): (items: seq<Item>)
    ensures |items| == |hits|
    ensures forall k :: 0 <= k < |hits| ==> items[k] == ItemOf(hits[k], names)
  {
    seq(|hits|, k requires 0 <= k < |hits| => ItemOf(hits[k], names))
  }

  /** `for it in hits[:limit]: items.append({...})` */
  method CollectItems(hits: seq<map<string, string>>, limit: int, names: (string, string, string))
    returns (items: seq<Item>)
    ensures items == ItemsOf(PyTake(hits, limit), names)
  {
    var taken := PyTake(hits, limit);
    items := [];
    var k := 0;
    while k < |taken|
      invariant 0 <= k <= |taken|
      invariant items == ItemsOf(taken[..k], names)
    {
      items := items + [ItemOf(taken[k], names)];
      k := k + 1;
      assert taken[..k][..k - 1] == taken[..k - 1];
    }
    assert taken[..k] == taken;
  }

  /**
   * `search_web` over the cache rows. `hits` is the decoded provider response and `anchors` what
   * the DuckDuckGo page parses to; the new rows are the cache after the call.
   */
  method SearchWeb(cfg: SearchConfig, rows: seq<SearchRow>, query: string, maxResults: Option<int>,
                   recencyDays: Option<int>, now: real, hits: seq<map<string, string>>, anchors: seq<Item>,
                   loads: string -> Option<seq<Item>>, dumps: seq<Item> -> string)
    returns (items: seq<Item>, request: Option<Request>, rows': seq<SearchRow>)
    ensures var limit := Limit(maxResults, cfg.maxResults);
      var cached := GetSearchCache(rows, cfg.provider, query, cfg.ttlMin, now, loads);
      (cached.Some? && cached.value != [] ==> items == PyTake(cached.value, limit) && request.None? && rows' == rows) &&
      (!(cached.Some? && cached.value != []) ==>
        var p := ChooseProvider(cfg);
        request == Some(RequestFor(p, limit, recencyDays)) &&
        items == (if p == Ddg then PyTake(anchors, limit) else ItemsOf(PyTake(hits, limit), FieldNames(p))) &&
        rows' == PutSearchCache(rows, cfg.provider, query, items, now, dumps))
  {
    var limit := Limit(maxResults, cfg.maxResults);
    var cached := GetSearchCache(rows, cfg.provider, query, cfg.ttlMin, now, loads);
    if cached.Some? && cached.value != [] {
      return PyTake(cached.value, limit), None, rows;
    }
    var p := ChooseProvider(cfg);
    request := Some(RequestFor(p, limit, recencyDays));
    if p == Ddg {
      items := PyTake(anchors, limit);
    } else {
      items := CollectItems(hits, limit, FieldNames(p));
    }
    rows' := PutSearchCache(rows, cfg.provider, query, items, now, dumps);
  }

  /** A non-negative limit caps what a search returns, whether from the cache or the provider. */
  lemma ResultsWithinLimit(xs: seq<Item>, hits: seq<map<string, string>>, names: (string, string, string), limit: int)
    requires 0 <= limit
    ensures |PyTake(xs, limit)| <= limit
    ensures |ItemsOf(PyTake(hits, limit), names)| <= limit
  {
  }

  /**
   * A search that went to the provider and found something is served from the cache by the next
   * search for the same normalised query within the TTL, cut to that search's limit.
   */
  lemma RepeatedSearchHitsCache(cfg: SearchConfig, rows: seq<SearchRow>, query: string, items: seq<Item>,
                                stored: real, again: string, now: real, maxResults: Option<int>,
                                loads: string -> Option<seq<Item>>, dumps: seq<Item> -> string)
    requires items != [] && loads(dumps(items)) == Some(items)
    requires QueryKey(again) == QueryKey(query) && now - stored <= (cfg.ttlMin * 60) as real
    ensures var rows' := PutSearchCache(rows, cfg.provider, query, items, stored, dumps);
      var cached := GetSearchCache(rows', cfg.provider, again, cfg.ttlMin, now, loads);
      cached == Some(items) && PyTake(cached.value, Limit(maxResults, cfg.maxResults)) == PyTake(items, Limit(maxResults, cfg.maxResults))
  {
    GetAfterPut(rows, cfg.provider, query, items, stored, dumps, loads, again, cfg.ttlMin, now);
  }
}
