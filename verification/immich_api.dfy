/** The branch logic of the Immich API client: when the duplicate list comes
    from the cache, from the server or from nowhere, and when a deletion
    request counts as successful. The HTTP traffic, the JSON bodies and the
    cache file's contents are inputs. */
module ImmichApi {
  import opened Wrappers
  import opened Assets

  /** `timedelta(hours=1)` in microseconds, the resolution of `timedelta`. */
  const MicrosPerHour: int := 3_600_000_000

  /** The threshold `get_asset_duplicates` uses: `_is_cache_valid()` with its default. */
  const DefaultMaxAgeHours: int := 24

  /** `_is_cache_valid`: the cache file exists and its age (now minus its
      modification time, negative for a time in the future) is strictly
      below the threshold. */
  predicate IsCacheValid(cacheExists: bool, cacheAgeMicros: int, maxAgeHours: int) {
    cacheExists && cacheAgeMicros < maxAgeHours * MicrosPerHour
  }

  /** A cache that is valid stays valid when it is younger or the threshold
      is larger, and a cache exactly as old as the threshold is stale. */
  lemma CacheValidityMonotone(cacheExists: bool, age: int, youngerAge: int, maxAgeHours: int, largerMaxAgeHours: int)
    requires youngerAge <= age && maxAgeHours <= largerMaxAgeHours
    ensures IsCacheValid(cacheExists, age, maxAgeHours) ==> IsCacheValid(cacheExists, youngerAge, largerMaxAgeHours)
    ensures !IsCacheValid(cacheExists, maxAgeHours * MicrosPerHour, maxAgeHours)
  {
  }

  /** What `requests.get` produced: a response with its status code and
      decoded body, or one of the two exceptions the client catches. */
  datatype ApiOutcome =
    | Response(statusCode: int, body: seq<DuplicateGroup>)
    | Timeout
    | NetworkError

  /** Where the returned duplicate list comes from: `_load_cache()`, the
      response body, or the literal `[]`. */
  datatype Source = CachedData | FreshData(groups: seq<DuplicateGroup>) | NoData

  /** The outcome of `get_asset_duplicates`: the source of the returned list,
      whether the API was contacted, and whether the body was written to
      the cache. */
  datatype Fetch = Fetch(source: Source, contactsApi: bool, savesCache: bool)

  /** The fallback after a failed request: the cache if the file exists,
      whatever its age, and nothing otherwise. */
  function Fallback(cacheExists: bool): (s: Source)
    ensures s.CachedData? <==> cacheExists
    ensures !s.FreshData?
  {
    if cacheExists then CachedData else NoData
  }

  /** `get_asset_duplicates(force_refresh)`, with the cache's existence and
      age and the API's outcome as inputs. */
  function GetAssetDuplicates(forceRefresh: bool, cacheExists: bool, cacheAgeMicros: int, api: ApiOutcome): (f: Fetch)
    ensures !forceRefresh && IsCacheValid(cacheExists, cacheAgeMicros, DefaultMaxAgeHours)
            ==> f == Fetch(CachedData, false, false)
    ensures f.contactsApi <==> forceRefresh || !IsCacheValid(cacheExists, cacheAgeMicros, DefaultMaxAgeHours)
    ensures f.contactsApi && api.Response? && api.statusCode == 200
            ==> f.source == FreshData(api.body) && f.savesCache
    ensures f.contactsApi && !(api.Response? && api.statusCode == 200)
            ==> f.source == (if cacheExists then CachedData else NoData) && !f.savesCache
  {
    if !forceRefresh && IsCacheValid(cacheExists, cacheAgeMicros, DefaultMaxAgeHours) then
      Fetch(CachedData, false, false)
    else
      match api
      case Response(status, body) =>
        if status == 200 then Fetch(FreshData(body), true, true)
        else Fetch(Fallback(cacheExists), true, false)
      case Timeout => Fetch(Fallback(cacheExists), true, false)
      case NetworkError => Fetch(Fallback(cacheExists), true, false)
  }

  /** A valid cache without the force flag decides the result on its own:
      what the API would have answered plays no part. */
  lemma ValidCacheIgnoresApi(cacheExists: bool, cacheAgeMicros: int, api1: ApiOutcome, api2: ApiOutcome)
    requires IsCacheValid(cacheExists, cacheAgeMicros, DefaultMaxAgeHours)
    ensures GetAssetDuplicates(false, cacheExists, cacheAgeMicros, api1)
         == GetAssetDuplicates(false, cacheExists, cacheAgeMicros, api2)
  {
  }

  /** Fresh data is returned only from a status-200 response, the cache only
      when the file exists, and nothing only when the API failed and there
      is no cache file; the cache is written exactly when fresh data is
      returned. */
  lemma FetchSourceJustified(forceRefresh: bool, cacheExists: bool, cacheAgeMicros: int, api: ApiOutcome)
    ensures var f := GetAssetDuplicates(forceRefresh, cacheExists, cacheAgeMicros, api);
      && (f.source.FreshData? ==> f.contactsApi && api == Response(200, f.source.groups))
      && (f.source.CachedData? ==> cacheExists)
      && (f.source.NoData? <==> !cacheExists && !(api.Response? && api.statusCode == 200))
      && (f.savesCache <==> f.source.FreshData?)
  {
  }

  /** A cache 25 hours old is stale: the API is asked, and if it times out
      the stale cache is still used. */
  lemma StaleCacheExample(api: ApiOutcome)
    ensures GetAssetDuplicates(false, true, 25 * MicrosPerHour, api).contactsApi
    ensures GetAssetDuplicates(false, true, 25 * MicrosPerHour, Timeout).source == CachedData
  {
  }

  /** The body of the DELETE request `delete_assets` sends. */
  datatype DeleteRequest = DeleteRequest(ids: seq<AssetId>)

  /** What a DELETE request meets: the server answers with a status code,
      or `requests.delete` raises (a timeout or a connection error). */
  datatype DeleteOutcome = Status(code: int) | Raised

  /** The exception `requests.delete` raises; `delete_assets` does not catch it. */
  datatype RequestException = RequestException

  /** `ImmichAPI.delete_assets`, with what the request meets as input: an
      empty list succeeds without a request; otherwise one request carries
      all the ids, only status 204 counts as success, and an exception from
      the request propagates to the caller. */
  method DeleteAssets(assetIds: seq<AssetId>, outcome: DeleteOutcome)
      returns (r: Result<bool, RequestException>, sent: Option<DeleteRequest>)
    ensures sent.None? <==> assetIds == []
    ensures sent.Some? ==> sent.value.ids == assetIds
    ensures r.Err? <==> assetIds != [] && outcome.Raised?
    ensures r.Ok? ==> (r.value <==> assetIds == [] || outcome == Status(204))
  {
    if assetIds == [] {
      return Ok(true), None;
    }
    sent := Some(DeleteRequest(assetIds));
    match outcome
    case Raised =>
      r := Err(RequestException);
    case Status(code) =>
      if code == 204 {
        r := Ok(true);
      } else {
        r := Ok(false);
      }
  }
}
