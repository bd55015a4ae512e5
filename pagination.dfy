/**
  The `map` and `mapb` commands of main.go: a cursor over the location-area
  listing (`config.Next`, `config.Previous`) and a cache-aside load of each page.
  The HTTP request with the reading of its body is the oracle `fetch`, and the JSON
  decoding of a body is the oracle `decode`.
*/
module Pagination {
  import opened Wrappers
  import opened PokeCache

  /** The first page of the listing, requested when there is no next link. */
  const DefaultUrl: string := "https://pokeapi.co/api/v2/location-area/"

  datatype Area = Area(name: string, url: string)

  /** `LocationAreaResponse`: one page of the listing and its neighbours' links. */
  datatype Page = Page(count: int, next: Option<string>, previous: Option<string>, results: seq<Area>)

  /** A page obtained cache-aside, the entries afterwards and the URL sent to the network, if any. */
  datatype Loaded = Loaded(page: Result<Page>, entries: map<string, Entry>, requested: Option<string>)

  /**
    Cache-aside: on a hit decode the cached bytes and request nothing; on a miss
    request `url`, and when the body arrives store it under `url` before decoding it.
  */
  function Load(url: string, entries: map<string, Entry>, now: int,
                fetch: string -> Result<Bytes>, decode: Bytes -> Result<Page>): (l: Loaded)
    ensures l.requested.None? <==> url in entries
    ensures l.requested.Some? ==> l.requested.value == url
    ensures url in entries ==> l.entries == entries && l.page == decode(entries[url].val)
    ensures url !in entries && fetch(url).Err? ==> l.entries == entries && l.page == Err(fetch(url).error)
    ensures url !in entries && fetch(url).Ok? ==>
      l.entries == entries[url := Entry(fetch(url).value, now)] && l.page == decode(fetch(url).value)
  {
    if url in entries then Loaded(decode(entries[url].val), entries, None)
    else match fetch(url)
      case Err(e) => Loaded(Err(e), entries, Some(url))
      case Ok(body) => Loaded(decode(body), entries[url := Entry(body, now)], Some(url))
  }

  /** The cache agrees with the network: every cached body is what fetching its URL returns. */
  ghost predicate Coherent(entries: map<string, Entry>, fetch: string -> Result<Bytes>) {
    forall u :: u in entries ==> fetch(u) == Ok(entries[u].val)
  }

  /** The page the network alone gives for `url`. */
  function Direct(url: string, fetch: string -> Result<Bytes>, decode: Bytes -> Result<Page>): Result<Page> {
    match fetch(url)
    case Err(e) => Err(e)
    case Ok(body) => decode(body)
  }

  /** The cache is invisible: with a cache that agrees with the network, a load gives the
      page the network alone gives, and the cache still agrees afterwards. */
  lemma LoadTransparent(url: string, entries: map<string, Entry>, now: int,
                        fetch: string -> Result<Bytes>, decode: Bytes -> Result<Page>)
    requires Coherent(entries, fetch)
    ensures Load(url, entries, now, fetch, decode).page == Direct(url, fetch, decode)
    ensures Coherent(Load(url, entries, now, fetch, decode).entries, fetch)
  {
  }

  /** Memoisation: once a fetch has succeeded, loading the same URL again is a hit that
      requests nothing, adds nothing and decodes the same bytes. */
  lemma LoadTwiceHits(url: string, entries: map<string, Entry>, t1: int, t2: int,
                      fetch: string -> Result<Bytes>, decode: Bytes -> Result<Page>)
    requires url in entries || fetch(url).Ok?
    ensures var first := Load(url, entries, t1, fetch, decode);
      var second := Load(url, first.entries, t2, fetch, decode);
      second.requested == None && second.entries == first.entries && second.page == first.page
  {
  }

  /** What a paging command leaves behind: the cursor, the cache, the URL requested, the error returned. */
  datatype Outcome = Outcome(next: Option<string>, previous: Option<string>, entries: map<string, Entry>,
                             requested: Option<string>, err: Option<string>)

  /**
    Load `url` and move the cursor to the loaded page's links; on any error return
    it and leave the cursor where it was (the cache may still have gained the body).
  */
  function Turn(url: string, next: Option<string>, previous: Option<string>, entries: map<string, Entry>,
                now: int, fetch: string -> Result<Bytes>, decode: Bytes -> Result<Page>): (o: Outcome)
    ensures var l := Load(url, entries, now, fetch, decode);
      o.entries == l.entries && o.requested == l.requested
      && (o.err.None? <==> l.page.Ok?)
      && (l.page.Ok? ==> o.next == l.page.value.next && o.previous == l.page.value.previous)
      && (l.page.Err? ==> o.next == next && o.previous == previous && o.err == Some(l.page.error))
  {
    var l := Load(url, entries, now, fetch, decode);
    match l.page
    case Err(e) => Outcome(next, previous, l.entries, l.requested, Some(e))
    case Ok(page) => Outcome(page.next, page.previous, l.entries, l.requested, None)
  }

  /** The URL `map` requests: the next link if there is one, else the first page. */
  function MapUrl(next: Option<string>): (u: string)
    ensures next.Some? ==> u == next.value
    ensures u == DefaultUrl <==> next == None || next == Some(DefaultUrl)
  {
    if next.Some? then next.value else DefaultUrl
  }

  /** `commandMap`: turn to the page after the cursor. */
  function MapStep(next: Option<string>, previous: Option<string>, entries: map<string, Entry>,
                   now: int, fetch: string -> Result<Bytes>, decode: Bytes -> Result<Page>): (o: Outcome)
    ensures o.requested.Some? ==> o.requested.value == MapUrl(next)
    ensures o.err.Some? ==> o.next == next && o.previous == previous
    ensures MapUrl(next) in entries ==> o.requested == None && o.entries == entries
    ensures MapUrl(next) !in entries && fetch(MapUrl(next)).Err? ==> o.entries == entries && o.err.Some?
    ensures MapUrl(next) !in entries && fetch(MapUrl(next)).Ok? ==>
      MapUrl(next) in o.entries && o.entries[MapUrl(next)].val == fetch(MapUrl(next)).value
  {
    Turn(MapUrl(next), next, previous, entries, now, fetch, decode)
  }

  /** `commandMapBack`: on the first page (no previous link) do nothing; otherwise turn to the previous page. */
  function MapBackStep(next: Option<string>, previous: Option<string>, entries: map<string, Entry>,
                       now: int, fetch: string -> Result<Bytes>, decode: Bytes -> Result<Page>): (o: Outcome)
    ensures previous.None? ==> o == Outcome(next, previous, entries, None, None)
    ensures o.requested.Some? ==> previous == o.requested && previous.value !in entries
    ensures o.err.Some? ==> o.next == next && o.previous == previous
    ensures previous.Some? && previous.value !in entries && fetch(previous.value).Ok? ==>
      previous.value in o.entries && o.entries[previous.value].val == fetch(previous.value).value
  {
    if previous.None? then Outcome(next, previous, entries, None, None)
    else Turn(previous.value, next, previous, entries, now, fetch, decode)
  }

  /** On a successful page without a next link, `map` clears the cursor, so the following
      `map` requests the first page again. */
  lemma MapAfterLastPageRestarts(next: Option<string>, previous: Option<string>, entries: map<string, Entry>,
                                 t1: int, t2: int, fetch: string -> Result<Bytes>, decode: Bytes -> Result<Page>)
    requires var l := Load(MapUrl(next), entries, t1, fetch, decode);
      l.page.Ok? && l.page.value.next.None?
    ensures var o := MapStep(next, previous, entries, t1, fetch, decode);
      o.err.None? && o.next.None?
      && MapStep(o.next, o.previous, o.entries, t2, fetch, decode).requested
         == (if DefaultUrl in o.entries then None else Some(DefaultUrl))
  {
  }

  /** With a cache that agrees with the network, `map` and `mapb` move the cursor exactly as
      they would with no cache at all. */
  lemma PagingTransparent(next: Option<string>, previous: Option<string>, entries: map<string, Entry>,
                          now: int, fetch: string -> Result<Bytes>, decode: Bytes -> Result<Page>)
    requires Coherent(entries, fetch)
    ensures var a := MapStep(next, previous, entries, now, fetch, decode);
      var b := MapStep(next, previous, map[], now, fetch, decode);
      a.next == b.next && a.previous == b.previous && a.err == b.err && Coherent(a.entries, fetch)
    ensures var a := MapBackStep(next, previous, entries, now, fetch, decode);
      var b := MapBackStep(next, previous, map[], now, fetch, decode);
      a.next == b.next && a.previous == b.previous && a.err == b.err && Coherent(a.entries, fetch)
  {
    LoadTransparent(MapUrl(next), entries, now, fetch, decode);
    LoadTransparent(MapUrl(next), map[], now, fetch, decode);
    if previous.Some? {
      LoadTransparent(previous.value, entries, now, fetch, decode);
      LoadTransparent(previous.value, map[], now, fetch, decode);
    }
  }

  /** `config`: the cursor and the cache shared by the commands. */
  class Config {
    var next: Option<string>
    var previous: Option<string>
    const cache: Cache

    /** `cfg := &config{}` with `cfg.Cache = pokecache.NewCache(5 * time.Second)`. */
    constructor ()
      ensures next == None && previous == None
      ensures fresh(cache) && cache.interval == 5 * Second && cache.entries == map[]
    {
      next, previous := None, None;
      cache := new Cache(5 * Second);
    }
  }

  /** The shared body of `commandMap` and `commandMapBack`: load `url` cache-aside, then move the cursor. */
  method TurnTo(cfg: Config, url: string, now: int,
                fetch: string -> Result<Bytes>, decode: Bytes -> Result<Page>)
    returns (requested: Option<string>, err: Option<string>)
    modifies cfg, cfg.cache
    ensures Outcome(cfg.next, cfg.previous, cfg.cache.entries, requested, err)
         == Turn(url, old(cfg.next), old(cfg.previous), old(cfg.cache.entries), now, fetch, decode)
  {
    var parsed: Result<Page>;
    var data, ok := cfg.cache.Get(url);
    if ok {
      requested := None;
      parsed := decode(data);
    } else {
      requested := Some(url);
      var body := fetch(url);
      if body.Err? {
        return requested, Some(body.error);
      }
      cfg.cache.Add(url, body.value, now);
      parsed := decode(body.value);
    }
    if parsed.Err? {
      return requested, Some(parsed.error);
    }
    cfg.next := parsed.value.next;
    cfg.previous := parsed.value.previous;
    err := None;
  }

  /** `commandMap`. */
  method CommandMap(cfg: Config, now: int, fetch: string -> Result<Bytes>, decode: Bytes -> Result<Page>)
    returns (requested: Option<string>, err: Option<string>)
    modifies cfg, cfg.cache
    ensures Outcome(cfg.next, cfg.previous, cfg.cache.entries, requested, err)
         == MapStep(old(cfg.next), old(cfg.previous), old(cfg.cache.entries), now, fetch, decode)
  {
    var url := DefaultUrl;
    if cfg.next.Some? {
      url := cfg.next.value;
    }
    requested, err := TurnTo(cfg, url, now, fetch, decode);
  }

  /** `commandMapBack`. */
  method CommandMapBack(cfg: Config, now: int, fetch: string -> Result<Bytes>, decode: Bytes -> Result<Page>)
    returns (requested: Option<string>, err: Option<string>)
    modifies cfg, cfg.cache
    ensures Outcome(cfg.next, cfg.previous, cfg.cache.entries, requested, err)
         == MapBackStep(old(cfg.next), old(cfg.previous), old(cfg.cache.entries), now, fetch, decode)
  {
    if cfg.previous.None? {
      return None, None;
    }
    requested, err := TurnTo(cfg, cfg.previous.value, now, fetch, decode);
  }
}
