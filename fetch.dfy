/**
 * useFetch: a GET request whose JSON result is kept in the hook's state,
 * with a response cache shared by every hook instance and an abort
 * controller per request, the previous one aborted when a new request
 * starts.
 */
module Fetch {
  import opened Wrappers
  import Http

  const DefaultStaleTime := 0

  /** A cached result and the time (in milliseconds) it was stored. */
  datatype Entry<T> = Entry(data: T, timestamp: int)

  /**
   * The cached data for `url` when caching is on and the entry is younger
   * than `staleTime` at time `now`.
   */
  function FreshHit<T>(entries: map<string, Entry<T>>, url: string, staleTime: int, now: int): (r: Option<T>)
    ensures r.Some? ==> staleTime > 0 && url in entries && r.value == entries[url].data
    ensures r.Some? ==> now < entries[url].timestamp + staleTime
    ensures r.None? ==> staleTime <= 0 || url !in entries || entries[url].timestamp + staleTime <= now
  {
    if staleTime > 0 && url in entries && now - entries[url].timestamp < staleTime then Some(entries[url].data)
    else None
  }

  /** Storing a result makes it the fresh hit for that URL until `staleTime` has passed. */
  lemma StoredResultIsHit<T>(entries: map<string, Entry<T>>, url: string, data: T, staleTime: int, storedAt: int, now: int)
    requires staleTime > 0
    ensures FreshHit(entries[url := Entry(data, storedAt)], url, staleTime, now) ==
      if now < storedAt + staleTime then Some(data) else None
  {
  }

  /** With caching off nothing is ever served from the cache. */
  lemma NoStaleTimeNoHit<T>(entries: map<string, Entry<T>>, url: string, staleTime: int, now: int)
    requires staleTime <= 0
    ensures FreshHit(entries, url, staleTime, now) == None
  {
  }

  /** Storing under one URL does not change what another URL hits. */
  lemma StoreKeepsOtherHits<T>(entries: map<string, Entry<T>>, url: string, other: string, e: Entry<T>, staleTime: int, now: int)
    requires other != url
    ensures FreshHit(entries[url := e], other, staleTime, now) == FreshHit(entries, other, staleTime, now)
  {
  }

  /** The module-level `cache` map, shared by all hook instances. */
  class ResponseCache<T> {
    var entries: map<string, Entry<T>>

    constructor ()
      ensures entries == map[]
    {
      entries := map[];
    }
  }

  /** Every abort controller created so far, `true` once it was aborted, oldest first. */
  function AbortLast(controllers: seq<bool>): (r: seq<bool>)
    ensures |r| == |controllers|
    ensures forall i :: 0 <= i < |r| ==> r[i] == (controllers[i] || i == |r| - 1)
  {
    if |controllers| == 0 then controllers else controllers[|controllers| - 1 := true]
  }

  /** What the hook reports to its `onSuccess` or `onError` option. */
  datatype Notice<T> = Success(data: T) | Failure(message: string)

  /** The state a request leaves behind and what it reports. */
  datatype Settled<T> = Settled(data: Option<T>, error: Option<string>, notice: Option<Notice<T>>)

  /**
   * How a request that was issued settles, from the data held before it:
   * a result replaces the data and clears the error; a failure keeps the
   * data and records its message; an aborted request leaves the error
   * cleared (as the request's start left it) and reports nothing.
   */
  function Settle<T>(outcome: Http.Outcome<T>, prior: Option<T>): (s: Settled<T>)
    ensures outcome.Ok? ==> s == Settled(Some(outcome.body), None, Some(Success(outcome.body)))
    ensures !outcome.Ok? ==> s.data == prior
    ensures outcome.HttpError? ==>
      s.error == Some(Http.HttpErrorMessage(outcome.status)) && s.notice == Some(Failure(s.error.value))
    ensures outcome.Thrown? ==>
      s.error == Some(Http.ThrownMessage(outcome.message)) && s.notice == Some(Failure(s.error.value))
    ensures outcome.Aborted? ==> s.error == None && s.notice == None
  {
    match outcome
    case Ok(result) => Settled(Some(result), None, Some(Success(result)))
    case HttpError(status) =>
      var m := Http.HttpErrorMessage(status);
      Settled(prior, Some(m), Some(Failure(m)))
    case Thrown(message) =>
      var m := Http.ThrownMessage(message);
      Settled(prior, Some(m), Some(Failure(m)))
    case Aborted => Settled(prior, None, None)
  }

  /** The cache after a request settles: only a result is stored, and only with caching on. */
  function Store<T>(entries: map<string, Entry<T>>, url: string, staleTime: int, outcome: Http.Outcome<T>, completedAt: int): (r: map<string, Entry<T>>)
    ensures outcome.Ok? && staleTime > 0 ==> url in r && r[url] == Entry(outcome.body, completedAt)
    ensures !(outcome.Ok? && staleTime > 0) ==> r == entries
    ensures r.Keys <= entries.Keys + {url}
    ensures forall k :: k in entries && k != url ==> k in r && r[k] == entries[k]
  {
    if outcome.Ok? && staleTime > 0 then entries[url := Entry(outcome.body, completedAt)] else entries
  }

  /** A fetched result is served from the cache to a later fetch of the same URL until it goes stale. */
  lemma FetchedResultIsHit<T>(entries: map<string, Entry<T>>, url: string, staleTime: int, result: T, completedAt: int, now: int)
    requires staleTime > 0 && completedAt <= now < completedAt + staleTime
    ensures FreshHit(Store(entries, url, staleTime, Http.Ok(result), completedAt), url, staleTime, now) == Some(result)
  {
    StoredResultIsHit(entries, url, result, staleTime, completedAt, now);
  }

  class FetchHook<T> {
    const cache: ResponseCache<T>
    var url: Option<string>
    var enabled: bool
    var staleTime: int
    var data: Option<T>
    var isLoading: bool
    var error: Option<string>
    var controllers: seq<bool>

    /** At most one request is in flight: every controller but the latest was aborted. */
    predicate Valid()
      reads this
    {
      forall i :: 0 <= i < |controllers| - 1 ==> controllers[i]
    }

    /** `fetchData` does anything only with a non-empty URL and `enabled`. */
    predicate Active()
      reads this
    {
      url.Some? && url.value != "" && enabled
    }

    constructor (cache: ResponseCache<T>, url: Option<string>, enabled: bool := true, staleTime: int := DefaultStaleTime)
      ensures this.cache == cache && this.url == url && this.enabled == enabled && this.staleTime == staleTime
      ensures data == None && !isLoading && error == None && controllers == []
      ensures Valid()
    {
      this.cache := cache;
      this.url := url;
      this.enabled := enabled;
      this.staleTime := staleTime;
      data := None;
      isLoading := false;
      error := None;
      controllers := [];
    }

    /**
     * One run of `fetchData` (on mount, on a change of options, or through
     * `refetch`). `now` is the clock when the cache is consulted,
     * `completedAt` the clock when a result is stored, and `outcome` what
     * the request came to. `requested` says whether a request was issued.
     */
    method FetchData(now: int, completedAt: int, outcome: Http.Outcome<T>) returns (requested: bool, notice: Option<Notice<T>>)
      requires Valid()
      modifies this`data, this`isLoading, this`error, this`controllers, cache`entries
      ensures Valid()
      ensures !old(Active()) ==>
        && !requested && notice == None
        && data == old(data) && isLoading == old(isLoading) && error == old(error)
        && controllers == old(controllers) && cache.entries == old(cache.entries)
      ensures old(Active()) && old(FreshHit(cache.entries, url.value, staleTime, now)).Some? ==>
        var hit := old(FreshHit(cache.entries, url.value, staleTime, now)).value;
        && !requested && notice == Some(Success(hit)) && data == Some(hit)
        && isLoading == old(isLoading) && error == old(error)
        && controllers == old(controllers) && cache.entries == old(cache.entries)
      ensures old(Active()) && old(FreshHit(cache.entries, url.value, staleTime, now)).None? ==>
        && requested && !isLoading
        && controllers == AbortLast(old(controllers)) + [false]
        && Settled(data, error, notice) == Settle(outcome, old(data))
        && cache.entries == Store(old(cache.entries), url.value, staleTime, outcome, completedAt)
    {
      requested := false;
      notice := None;
      if url.None? || url.value == "" || !enabled {
        return;
      }
      var u := url.value;
      if staleTime > 0 && u in cache.entries && now - cache.entries[u].timestamp < staleTime {
        var cached := cache.entries[u].data;
        data := Some(cached);
        notice := Some(Success(cached));
        return;
      }
      StartRequest();
      requested := true;
      var settled := Settle(outcome, data);
      cache.entries := Store(cache.entries, u, staleTime, outcome, completedAt);
      data := settled.data;
      error := settled.error;
      notice := settled.notice;
      isLoading := false;
    }

    /** Aborts the previous request, opens a new controller and enters the loading state. */
    method StartRequest()
      requires Valid()
      modifies this`controllers, this`isLoading, this`error
      ensures controllers == AbortLast(old(controllers)) + [false]
      ensures isLoading && error == None
      ensures Valid()
    {
      if |controllers| > 0 {
        controllers := controllers[|controllers| - 1 := true];
      }
      controllers := controllers + [false];
      isLoading := true;
      error := None;
    }

    /** The effect's cleanup, on unmount or before the effect re-runs: the latest request is aborted. */
    method Cleanup()
      requires Valid()
      modifies this`controllers
      ensures controllers == AbortLast(old(controllers))
      ensures forall i :: 0 <= i < |controllers| ==> controllers[i]
    {
      if |controllers| > 0 {
        controllers := controllers[|controllers| - 1 := true];
      }
    }

    /**
     * A render with new options: the old effect is cleaned up and the new
     * options take its place; the effect's next run is `FetchData`.
     */
    method Rerender(url: Option<string>, enabled: bool, staleTime: int)
      requires Valid()
      modifies this`url, this`enabled, this`staleTime, this`controllers
      ensures this.url == url && this.enabled == enabled && this.staleTime == staleTime
      ensures controllers == AbortLast(old(controllers))
      ensures Valid()
    {
      Cleanup();
      this.url := url;
      this.enabled := enabled;
      this.staleTime := staleTime;
    }
  }
}
