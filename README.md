# Terabox link extraction core, modelled in Dafny

The modelled system is a Telegram bot. It turns a Terabox share link into the direct download
links of the files behind it. This project models the part that does the work:

- the `ExtractorManager`;
- its five extraction strategies;
- the shared `BaseExtractor` helpers, including the retrying `request`;
- the four utilities they lean on: the LRU result cache, the token-bucket rate limiter, the
  proxy pool and the cookie pool.

How each part is modelled:

- **State that the Python objects update in place** is a Dafny `class`. This covers
  `MemoryCache`, `CacheManager`, `RateLimitBucket`, `RateLimiter`, `ProxyManager`,
  `CookieManager` and `ExtractorManager`. Each method is proved equal to a specification
  function of the old state, and the properties the code promises are proved about those
  functions as lemmas.
- **Loops** are methods with invariants. These are `format_size`, the append loops, the
  first-success loops and the retry recursion of `request`.
- **Pure helpers** (URL checks, share-id extraction, formatting, JSON parsing) are functions.

Everything outside the program is a parameter:

- **Time:** `now`, `start`, `nowMs`.
- **Randomness:** `choice` picks the proxy or the cookie; `gen` stands for the generated cookie
  strings.
- **Network:** `net: Req -> Json` gives the decoded answer to a request. `JNull` stands for
  `None`.
- **Regex searches over pages:** `find`.
- **`json.loads`:** `loads`.
- **MD5:** `md5`.
- **`urlparse`:** the netloc it yields.

Python exceptions are a `Res` value (`Ok` or `Raise`), so a swallowed exception is a visible
branch.

Modules:

| module | file | models |
|---|---|---|
| `Cache` | cache.dfy | `utils/cache_manager.py` |
| `RateLimit` | rate_limiter.dfy | `utils/rate_limiter.py` |
| `Proxies` | proxy_pool.dfy | `utils/proxy_manager.py` |
| `Cookies` | cookie_pool.dfy | `utils/cookie_manager.py` |
| `Ranking` | ranking.dfy | the stable descending `list.sort` both pools use |
| `Base` | base_extractor.dfy | the static helpers of `extractors/base.py` |
| `Request` | request.dfy | `BaseExtractor.request` |
| `Json`, `Strategy` | json.dfy, strategy.dfy | decoded JSON, Python truthiness, the reply shape and loops the strategies share |
| `ApiStrategy` | api_extractor.dfy | `APIExtractor`, `MultiDomainAPIExtractor` |
| `ScraperStrategy` | scraper_extractor.dfy | `ScraperExtractor` |
| `ThirdPartyStrategy` | third_party_extractor.dfy | `ThirdPartyExtractor` |
| `BypassStrategy` | bypass_extractor.dfy | `BypassExtractor` |
| `Extractors` | extractor_manager.dfy | `ExtractorManager` (`extractors/init.py`) |
| `Config`, `Text`, `Wrappers` | config.dfy, text.dfy, wrappers.dfy | settings with their defaults, Python string operations, Option/Result |

A strategy's reply dict is the datatype `Reply`:

- `Success(files, extractor)` stands for `{"success": True, ...}`;
- `Failure(error)` stands for a dict whose `success` is missing or false.

A file descriptor is `FileInfo`. A descriptor field that a strategy copies from the response
holds the raw JSON value.

Observation: none of the five strategies lets an exception out of its `extract`. Each one
catches inside its loop, and the code around each loop cannot raise, so the manager's
`last_error` is never set by them. In the model this holds by construction: each strategy
model returns an `Option<Reply>` (`Strategy.FirstSuccess` turns every `Raise` into "try the
next candidate"), and `Extractors.Dispatch` wraps it in `Ok`. Given that,
`Extractors.BuiltinFailureIsDefault` proves that a failed extraction with the built-in
strategies always reports "Failed to extract download link", and
`Extractors.FailureNamesLastException` proves that the message would be used if a strategy did
raise.

## Model

| member | source | states |
|---|---|---|
| Cache.EffectiveTtl | utils/cache_manager.py:71 | `ttl or default_ttl`: a missing or zero ttl means the default, any other ttl is kept |
| Cache.EvictCount | utils/cache_manager.py:65-66 | the eviction loop removes at most the whole order and leaves fewer than `max_size` entries; nothing goes while there is room |
| Cache.Without | utils/cache_manager.py:76-78 | deleting a key removes exactly that key from the order, keeps keys distinct and shortens the order by one when it was present |
| Cache.MemoryCache.constructor | utils/cache_manager.py:30-35 | a new cache is empty with zero counters, well formed, with the given size, ttl and switch |
| Cache.MemoryCache.Get | utils/cache_manager.py:37-57 | `get` keeps the cache well formed and has exactly the effect and answer of the get specification (hit, expired, absent, disabled) |
| Cache.MemoryCache.Set | utils/cache_manager.py:59-72 | `set` keeps the cache well formed (distinct keys, at most `max_size`) and yields the set specification's state |
| Cache.MemoryCache.Delete | utils/cache_manager.py:74-78 | `delete` removes the key from the order and the records and leaves the counters |
| Cache.MemoryCache.Clear | utils/cache_manager.py:80-83 | `clear` empties order and records, keeping the hit and miss counters |
| Cache.MemoryCache.Stats | utils/cache_manager.py:85-96 | the statistics report the number of records, the capacity and both counters |
| Cache.GetHit | utils/cache_manager.py:43-54 | a live hit returns the stored value, moves the key to the most-recent end, counts one hit on the entry and the cache, and changes no other record |
| Cache.GetExpired | utils/cache_manager.py:46-49 | an expired key is removed from order and records and counted as one miss |
| Cache.GetAbsent | utils/cache_manager.py:56-57 | an absent key only counts one miss and answers None |
| Cache.Disabled | utils/cache_manager.py:39-62 | with caching disabled, get answers None and set changes nothing |
| Cache.SetBounded | utils/cache_manager.py:59-72 | after set the size is at most `max_size`, the key holds a fresh record with the effective ttl, only a prefix of oldest keys was evicted, survivors are unchanged, counters untouched |
| Cache.SetFullEvictsOldest | utils/cache_manager.py:65-72 | on a full cache a new key evicts exactly the least recently used entry and is appended last, while the most recent entry stays |
| Cache.ResetKeepsPosition | utils/cache_manager.py:65-72 | re-setting a present key keeps its place, resets its hits and time, and on a full cache still evicts first, leaving `max_size - 1` entries |
| Cache.SetDefaultTtl | utils/cache_manager.py:71 | set with no ttl or ttl 0 stores the default ttl |
| Cache.SetThenGet | utils/cache_manager.py:23-24 | a get no later than ttl seconds after a set returns the value; a get after that misses |
| Cache.SetKeepsWellFormed | utils/cache_manager.py:59-72 | the set specification preserves well-formedness |
| Cache.GetKeepsWellFormed | utils/cache_manager.py:37-57 | the get specification preserves well-formedness |
| Cache.CacheManager.constructor | utils/cache_manager.py:101-103 | the manager wraps a fresh empty cache sized by CACHE_MAX_SIZE with ttl CACHE_TTL |
| Cache.CacheManager.GetOrSet | utils/cache_manager.py:118-132 | the factory runs only on a miss; a hit is returned as it is; an exception from the factory propagates and stores nothing; a produced value is stored with the clock reading taken after the factory ran, and returned; a None from the factory is not stored |
| RateLimit.TimeUntilAvailable | utils/rate_limiter.py:34-40 | the wait is never negative, zero exactly when enough tokens are there, and otherwise exactly the time the refill needs |
| RateLimit.ConsumeInBounds | utils/rate_limiter.py:21-32 | consume keeps tokens within [0, max_tokens] and stamps the update time |
| RateLimit.ConsumeOutcome | utils/rate_limiter.py:21-32 | consume grants exactly when the refilled count covers n; a grant deducts n, a refusal deducts nothing; capacity and rate never change |
| RateLimit.GlobalRefusal | utils/rate_limiter.py:69-71 | a global refusal answers false and leaves every caller bucket as it was, none created |
| RateLimit.FalsyCaller | utils/rate_limiter.py:73 | a missing or zero caller id is judged by the global bucket alone |
| RateLimit.UserRefusalRefunds | utils/rate_limiter.py:73-77 | a caller refusal refunds the global token, which stays within capacity |
| RateLimit.AcquireKeepsBounds | utils/rate_limiter.py:67-79 | acquire keeps every bucket within bounds, changes no other caller's bucket, and creates at most the caller's bucket |
| RateLimit.Bucket.constructor | utils/rate_limiter.py:14-19 | a bucket starts from the given state |
| RateLimit.Bucket.Consume | utils/rate_limiter.py:21-32 | the bucket's new state and answer are those of the consume specification |
| RateLimit.RateLimiter.constructor | utils/rate_limiter.py:45-54 | a limiter starts with a full global bucket and no caller buckets |
| RateLimit.RateLimiter.GetUserBucket | utils/rate_limiter.py:56-65 | a caller's bucket is created full on first use and reused afterwards; no bucket is removed |
| RateLimit.RateLimiter.ConsumeUser | utils/rate_limiter.py:74-75 | one token is consumed from the caller's bucket (new or existing); the global bucket is untouched |
| RateLimit.RateLimiter.Acquire | utils/rate_limiter.py:67-79 | acquire's new buckets and answer are exactly those of the acquire specification |
| RateLimit.RateLimiter.WaitAndAcquire | utils/rate_limiter.py:81-90 | polling stops on success before the timeout has elapsed, or gives up once polls have covered the timeout |
| RateLimit.RateLimiter.GetUserRemaining | utils/rate_limiter.py:92-95 | remaining tokens are the floor of the caller's count, USER_RATE_LIMIT for a new caller, without refilling |
| Ranking.SortDescCorrect | utils/proxy_manager.py:138 | the sort yields descending keys and a permutation of its input |
| Ranking.SortDescStable | utils/cookie_manager.py:69-72 | the sort is stable: of two elements with equal keys, the earlier one stays before the later one |
| Ranking.SortSortedKeepsOrder | extractors/init.py:29 | an already ordered list is left as it is |
| Proxies.Score | utils/proxy_manager.py:27-33 | a proxy with no attempts scores 0.5 |
| Proxies.ScoreInUnitInterval | utils/proxy_manager.py:27-33 | the score lies in [0, 1] for a non-negative latency |
| Proxies.ScoreMonotone | utils/proxy_manager.py:27-33 | at equal latency a higher success rate gives a strictly higher score |
| Proxies.FirstIndex | utils/proxy_manager.py:150-151 | the lookup finds the first proxy with the url, or reports that none has it |
| Proxies.ReportSuccessTouchesFirstOnly | utils/proxy_manager.py:148-155 | a success report updates only the first proxy with the url and changes nothing for an unknown url |
| Proxies.FailureDeathRule | utils/proxy_manager.py:157-164 | a failure report kills a proxy exactly when it is the first with the url, was alive, and now has over five failures and a score below 0.3; a dead proxy stays dead |
| Proxies.CountAlive | utils/proxy_manager.py:166-173 | the live count is at most the total, and equals it exactly when all proxies are alive |
| Proxies.Stats | utils/proxy_manager.py:166-173 | alive plus dead is the total; dead is zero exactly when all are alive |
| Proxies.ParseProxyLine | utils/proxy_manager.py:72-77 | a line is kept exactly when its stripped text is non-empty and holds ':', and becomes "http://" plus that text |
| Proxies.AddLineGrows | utils/proxy_manager.py:72-77 | one list line only appends a fresh, well-formed proxy with a new url |
| Proxies.AddLinesGrows | utils/proxy_manager.py:72-77 | a list keeps the old pool as a prefix and appends only fresh proxies with new urls |
| Proxies.FetchGrows | utils/proxy_manager.py:64-79 | fetching every source keeps the old pool as a prefix and appends only fresh "http://" proxies with new urls |
| Proxies.FetchKeepsUrlsDistinct | utils/proxy_manager.py:64-79 | a pool with distinct urls keeps them distinct after fetching |
| Proxies.KeepAlive | utils/proxy_manager.py:90 | the filtered pool holds exactly the live proxies |
| Proxies.TestAllKeepsResponders | utils/proxy_manager.py:81-114 | after the health check all proxies are alive; a probed proxy stays exactly when its probe answered, and an unprobed one exactly when it was alive |
| Proxies.ReviveRestoresPool | utils/proxy_manager.py:124-127 | after a revival every proxy counts as alive in the stats and the live filter drops none |
| Proxies.AliveAmong | utils/proxy_manager.py:122 | the live candidates are exactly the candidates whose proxy is alive |
| Proxies.RestedAmong | utils/proxy_manager.py:129-136 | the rested candidates are exactly those last used for the domain more than five seconds ago |
| Proxies.TopCount | utils/proxy_manager.py:139 | the top slice is non-empty and no longer than the list |
| Proxies.GetProxyNone | utils/proxy_manager.py:118-119 | no proxy is handed out exactly when proxies are off or the pool is empty, and then nothing changes |
| Proxies.GetProxyPicksTopRested | utils/proxy_manager.py:116-146 | the proxy handed out is alive, in the top slice by score, scores at least as well as every candidate outside it, and has rested for the domain whenever a live proxy has |
| Proxies.GetProxyStamps | utils/proxy_manager.py:142-146 | the url handed out is the selected live proxy's; the pool keeps its size, and when a proxy is alive only the chosen proxy's last-use time changes, to the current time |
| Proxies.GetProxyRevives | utils/proxy_manager.py:122-146 | when no proxy was alive, every proxy is alive afterwards and the pool holds exactly the revived proxies with the chosen one stamped (reordered by score when the whole pool was sorted in place) |
| Proxies.GetProxyCooldowns | utils/proxy_manager.py:142-146 | a proxy is always handed out; with a domain the chosen url is stamped with the current time in that domain's map, the domain's other urls keep their stamps and every other domain keeps its map (and its presence or absence); without a domain the cooldowns are unchanged |
| Proxies.ProxyManager.constructor | utils/proxy_manager.py:39-43 | a manager starts with an empty pool, no cooldowns, uninitialised |
| Proxies.ProxyManager.Initialize | utils/proxy_manager.py:45-62 | the first effective call builds the pool from custom urls, fetched lists and the health check; later calls and disabled proxies change nothing |
| Proxies.ProxyManager.FetchFreeProxies | utils/proxy_manager.py:64-79 | the pool becomes the fetch specification of the old pool |
| Proxies.ProxyManager.AddListLines | utils/proxy_manager.py:72-77 | the lines of one list are appended as the line specification says |
| Proxies.ProxyManager.TestAllProxies | utils/proxy_manager.py:81-91 | the pool becomes the health-check specification of the old pool |
| Proxies.ProxyManager.GetProxy | utils/proxy_manager.py:116-146 | pool, cooldowns and answer are exactly those of the selection specification |
| Proxies.ProxyManager.ReviveAll | utils/proxy_manager.py:124-127 | every proxy is marked alive in place |
| Proxies.ProxyManager.ReportSuccess | utils/proxy_manager.py:148-155 | the pool becomes the success-report specification of the old pool |
| Proxies.ProxyManager.ReportFailure | utils/proxy_manager.py:157-164 | the pool becomes the failure-report specification of the old pool |
| Cookies.Ratio | utils/cookie_manager.py:69-72 | the ranking ratio lies in [0, 1] and is 0 without successes |
| Cookies.ValidAmong | utils/cookie_manager.py:62 | the eligible candidates are exactly those holding a valid cookie |
| Cookies.PickIndex | utils/cookie_manager.py:74-75 | the pick is one of the first three when there are three, else the first |
| Cookies.GeneratedPoolShape | utils/cookie_manager.py:31-39 | a generated pool has ten valid, unused cookies with zero counters, created now |
| Cookies.GetCookieRegenerates | utils/cookie_manager.py:60-77 | with no valid cookie the pool becomes a generated one, in generation order, and one of its first three is handed out and stamped |
| Cookies.GetCookieStampsValid | utils/cookie_manager.py:60-77 | with a valid cookie, the one handed out is valid and only its last-use time changes |
| Cookies.GetCookieRanks | utils/cookie_manager.py:69-76 | the cookie handed out is among the three best ratios, and no valid cookie outside them has a better ratio |
| Cookies.FirstWithValue | utils/cookie_manager.py:81-82 | the lookup finds the first cookie with the value, or reports that none has it |
| Cookies.ReportSuccessFirstOnly | utils/cookie_manager.py:79-84 | a success report adds one success to the first cookie with the value and changes nothing else |
| Cookies.ReportFailureInvalidates | utils/cookie_manager.py:86-93 | a failure report counts a failure on the first matching cookie, invalidating it exactly past three failures; no report revalidates a cookie |
| Cookies.SplitJoinSep | utils/cookie_manager.py:99 | splitting at "; " undoes joining parts without the separator |
| Cookies.FirstEq | utils/cookie_manager.py:100-101 | the split point is the first '=' of the pair, or none |
| Cookies.CookieDictRoundTrip | utils/cookie_manager.py:95-103 | parsing "; "-joined `k=v` pairs gives back the pairs as a dictionary, later keys winning |
| Cookies.GeneratedCookieParses | utils/cookie_manager.py:41-58 | a generated cookie string parses back into its five named values |
| Cookies.CookieManager.constructor | utils/cookie_manager.py:27-29 | a manager starts with a generated pool |
| Cookies.CookieManager.GenerateInitialCookies | utils/cookie_manager.py:31-39 | ten generated cookies are appended to the pool |
| Cookies.CookieManager.GetCookie | utils/cookie_manager.py:60-77 | pool and answer are exactly those of the get-cookie specification |
| Cookies.CookieManager.ReportSuccess | utils/cookie_manager.py:79-84 | the pool becomes the success-report specification of the old pool |
| Cookies.CookieManager.ReportFailure | utils/cookie_manager.py:86-93 | the pool becomes the failure-report specification of the old pool |
| Cookies.CookieManager.GetCookieDict | utils/cookie_manager.py:95-103 | a cookie is taken as get_cookie takes it, and the answer is its parsed dictionary |
| Base.RemoveWww | extractors/base.py:47 | only whole occurrences of "www." are removed: the host never grows and shrinks by a multiple of four |
| Base.RemoveWwwWithout | extractors/base.py:47 | a host without "www." is left as it is |
| Base.RemoveWwwDropsPrefix | extractors/base.py:47 | a leading "www." is dropped and the rest is treated the same way |
| Base.ValidUrlIgnoresCaseAndWww | extractors/base.py:42-50 | URL validity ignores letter case and a leading "www." |
| Base.ValidUrlHasNoDotBoundary | extractors/base.py:47-48 | validity is a plain suffix test: any host ending in a listed name is accepted, without a dot boundary |
| Base.ValidUrlNeedsNetloc | extractors/base.py:45-50 | a URL whose parse fails is invalid |
| Base.RunEnd | extractors/base.py:56-58 | the greedy `+` ends at the end of the longest run of id characters |
| Base.CaptureAt | extractors/base.py:56-58 | the capture is the id run at the position, skipping a leading '1' only when an id character follows |
| Base.SearchFrom | extractors/base.py:61-64 | a found id is a non-empty run of id characters |
| Base.SearchFromNone | extractors/base.py:61-64 | the search finds nothing exactly when the pattern matches nowhere |
| Base.SearchFromLeftmost | extractors/base.py:61-64 | a found id is the capture at the leftmost match |
| Base.ExtractShareId | extractors/base.py:52-66 | a share id is a non-empty run of id characters |
| Base.ExtractShareIdCases | extractors/base.py:52-66 | no id exactly when no pattern matches; otherwise the id comes from the first matching pattern, in listed order |
| Base.ThirdPatternSubsumed | extractors/base.py:57-58 | the third pattern never decides, since the second matches wherever it does |
| Base.NormalizeShareId | extractors/base.py:68-73 | the normalised id starts with '1'; an id already starting with '1' is kept, any other gets a '1' prefix |
| Base.NormalizeIdempotent | extractors/base.py:68-73 | normalising twice is normalising once |
| Base.DurationParts | extractors/base.py:189-191 | hours, minutes and seconds recombine to the input, with minutes and seconds below 60 |
| Base.FormatDurationHours | extractors/base.py:184-194 | from an hour on, a duration is shown as three clock fields that read back as itself |
| Base.FormatDurationMinutes | extractors/base.py:184-194 | below an hour, a positive duration is shown as two fields that read back as itself |
| Base.FormatDurationEmpty | extractors/base.py:187-188 | only zero is shown as the empty string |
| Base.VideoExtRecognised | extractors/base.py:196-200 | any name ending in a listed extension is a video |
| Base.VideoIgnoresCase | extractors/base.py:196-200 | the video test ignores letter case |
| Base.Scale | extractors/base.py:179-181 | the unit index never passes TB |
| Base.ScaleExact | extractors/base.py:179-181 | dividing by 1024 keeps amount times 1024 to the unit's power equal to the size, below 1024 unless TB |
| Base.SizeForUnit | extractors/base.py:171-182 | "Unknown" exactly for 0; otherwise amount times 1024 to the unit's power is the size, below 1024 unless TB and at least 1 unless B |
| Base.FormatSize | extractors/base.py:171-182 | the division loop computes the size specification |
| Request.AttemptStep | extractors/base.py:121-155 | an attempt returns exactly what its response makes returnable: a JSON body or the page text of a 200 |
| Request.DelaysDouble | extractors/base.py:157-158 | the first retry sleeps `RETRY_DELAY` and each later one sleeps twice as long as the one before |
| Request.TotalDelayClosedForm | extractors/base.py:157-158 | n retries sleep `RETRY_DELAY * (2 ** n - 1)` seconds in all |
| Request.RequestFrom | extractors/base.py:81-164 | a call makes at least one and at most `MAX_RETRIES + 1` attempts |
| Request.DelaysIncrease | extractors/base.py:157-164 | each retry waits strictly longer than the one before |
| Request.OnlyOkReportsSuccess | extractors/base.py:121-132 | only a 200 reports success to a proxy or a cookie |
| Request.OkReportsBoth | extractors/base.py:121-132 | a 200 reports success to the proxy used, with its latency, and to the cookie sent |
| Request.RateLimitedIsSilent | extractors/base.py:134-141 | a 429 reports nothing and returns nothing |
| Request.FailureReportsProxyOnly | extractors/base.py:143-155 | any other status, a timeout or an error reports one failure to the proxy used and returns nothing |
| Request.FeedKeepsCookieFailures | extractors/base.py:81-164 | the feedback a request gives never counts a cookie failure and never changes a cookie's validity (taking a cookie can still regenerate the pool, see Cookies.GetCookieRegenerates) |
| Request.RequestStopsAtFirstReturn | extractors/base.py:81-164 | the call stops at the first attempt that returns and gives its value; otherwise it gives None after the last retry |
| Request.AllFailGivesUp | extractors/base.py:157-164 | when no attempt returns, the call makes `MAX_RETRIES + 1` attempts and gives None |
| Request.RequestAttempt | extractors/base.py:81-164 | value, pools and attempt count are those of the request specification, and the sleeps are the doubling delays |
| Request.Attempt | extractors/base.py:100-155 | one attempt takes a cookie, then a proxy, and reports to both pools as the attempt specification says |
| Request.Report | extractors/base.py:121-155 | the feedback reaches the pools in order |
| Json.Items | extractors/api_extractor.py:110-112 | iterating a list gives its items; an empty result means a falsy value |
| Strategy.SizeOf | extractors/base.py:171-182 | `format_size` on a JSON value: "Unknown" exactly for zero; an integer or a boolean is formatted; a string is formatted exactly when it is a non-empty run of digits, and anything else raises (see "Left out") |
| Strategy.DurationOf | extractors/base.py:184-194 | `format_duration` on a JSON value: only integers and booleans are accepted; zero gives "" |
| Strategy.VideoName | extractors/base.py:196-200 | the video test only accepts a string name, and then is the extension test |
| Strategy.VideoFlag | extractors/api_extractor.py:119 | a category of 1 makes a video whatever the name; otherwise the name decides |
| Strategy.ParseEach | extractors/api_extractor.py:112-128 | parsing gives one file per item, in order, and raises exactly when some item raises |
| Strategy.ParseEachPrefixRaises | extractors/api_extractor.py:112-128 | a raising item stops the loop with that exception |
| Strategy.AppendEach | extractors/api_extractor.py:112-128 | the append loop computes the parse specification |
| Strategy.FirstSuccess | extractors/third_party_extractor.py:17-28 | the loop returns the first successful reply and runs nothing after it; otherwise it runs every candidate and none succeeds |
| Strategy.FirstSuccessLoop | extractors/third_party_extractor.py:17-28 | the loop computes the first-success specification |
| Strategy.QueryStringSplits | extractors/bypass_extractor.py:57-58 | a query string splits back into one `k=v` piece per parameter, in order |
| ApiStrategy.ApiExtractLoop | extractors/api_extractor.py:17-34 | the endpoint loop computes the API extraction specification |
| ApiStrategy.TryDomain | extractors/api_extractor.py:173-203 | the two-endpoint loop of a domain computes the domain specification |
| ApiStrategy.NoShareId | extractors/api_extractor.py:19-21 | without a share id, the API strategy answers "Invalid URL" and the multi-domain one None |
| ApiStrategy.EndpointAcceptsErrnoZero | extractors/api_extractor.py:53-105 | an endpoint reply comes only from a dict with errno 0, and is a success |
| ApiStrategy.ParseResponseOnePerItem | extractors/api_extractor.py:107-134 | parsing gives a success with one file per item, in order, even for an empty list |
| ApiStrategy.ApiItemFields | extractors/api_extractor.py:113-126 | a missing name is "Unknown"; a file is a video exactly when its category is 1 or its name has a video extension; duration and resolution are set exactly for videos |
| ApiStrategy.ShortUrlInfoFirst | extractors/api_extractor.py:36-51 | when shorturlinfo gives a reply, the list endpoint's answer cannot change the result |
| ApiStrategy.MultiNeedsFiles | extractors/api_extractor.py:173-203 | the multi-domain strategy succeeds only with a non-empty file list, tagged with its name |
| ApiStrategy.MultiItemVideoByName | extractors/api_extractor.py:190-198 | a multi-domain file is a video by extension alone, without fs_id or duration |
| ScraperStrategy.FirstTruthy | extractors/scraper_extractor.py:97-101 | the first truthy list is found, or there is none |
| ScraperStrategy.ParseInitialStateLoop | extractors/scraper_extractor.py:87-106 | the loop computes the initial-state specification |
| ScraperStrategy.SpaceRun | extractors/scraper_extractor.py:114-115 | `\s*` consumes exactly the whitespace in front |
| ScraperStrategy.Solid | extractors/scraper_extractor.py:114-115 | the kept characters hold no comma and no whitespace |
| ScraperStrategy.DropKeepsSolid | extractors/scraper_extractor.py:114-115 | the trailing-comma substitution removes only commas and whitespace |
| ScraperStrategy.DropWithoutMatch | extractors/scraper_extractor.py:114-115 | text without a trailing comma is left as it is |
| ScraperStrategy.DropRemovesFront | extractors/scraper_extractor.py:114-115 | a comma with whitespace before the closing bracket is removed |
| ScraperStrategy.ScraperExtractLoop | extractors/scraper_extractor.py:18-40 | the page loop computes the scraper specification |
| ScraperStrategy.ScraperPages | extractors/scraper_extractor.py:20-29 | without a share id there is no reply; otherwise four pages are tried, the last being the url itself |
| ScraperStrategy.ScrapePageNeedsHtml | extractors/scraper_extractor.py:42-67 | a page succeeds only when its response has an "html" key, tagged "scraper" |
| ScraperStrategy.InitialStateFirstList | extractors/scraper_extractor.py:87-106 | only the first non-empty candidate list is read; all empty gives None |
| ScraperStrategy.ParseListOnePerItem | extractors/scraper_extractor.py:97-106 | a non-empty list gives one file per item; an empty one gives None |
| ScraperStrategy.StripKeepsSolid | extractors/scraper_extractor.py:113-115 | both substitutions keep all but commas and whitespace, and leave clean text alone |
| ScraperStrategy.ReadersNeedFiles | extractors/scraper_extractor.py:108-146 | the locals.mset and file-list readers succeed only with files |
| ScraperStrategy.FileItemFields | extractors/scraper_extractor.py:148-162 | the name falls back from server_filename to filename to "Unknown"; a video is category 1 or a video extension |
| ThirdPartyStrategy.ExtractFromDataLoop | extractors/third_party_extractor.py:87-104 | the append loop computes the data specification |
| ThirdPartyStrategy.ThirdPartyExtractLoop | extractors/third_party_extractor.py:17-28 | the service loop computes the third-party specification |
| ThirdPartyStrategy.RequestShape | extractors/third_party_extractor.py:30-57 | no proxy and no cookie are used; a POST sends the url as a JSON body, anything else a GET with the url in the query |
| ThirdPartyStrategy.ServicesArePosted | config.py:125-136 | both configured services are posted to, so with the default configuration the GET branch of the request is never taken |
| ThirdPartyStrategy.FalsyResponseIsNone | extractors/third_party_extractor.py:59-62 | a falsy response gives None |
| ThirdPartyStrategy.ParseOrder | extractors/third_party_extractor.py:64-85 | success+data wins over status+result, which wins over a bare download_url; otherwise None |
| ThirdPartyStrategy.ExtractFromDataFiles | extractors/third_party_extractor.py:87-104 | extraction succeeds only with files, tagged "third_party" |
| ThirdPartyStrategy.ThirdItemFields | extractors/third_party_extractor.py:93-99 | name falls back from filename to name to "Unknown", and the link from download_url to dlink to "" |
| BypassStrategy.ParseApiResponseLoop | extractors/bypass_extractor.py:128-147 | the append loop computes the response specification |
| BypassStrategy.BypassExtractLoop | extractors/bypass_extractor.py:20-37 | the method loop computes the bypass specification |
| BypassStrategy.NoShareIdNoReply | extractors/bypass_extractor.py:41-43 | without a share id every method and the strategy give None |
| BypassStrategy.AcceptsErrnoZero | extractors/bypass_extractor.py:66-67 | the mobile and app methods succeed only on a dict with errno 0, with files |
| BypassStrategy.SignInputPieces | extractors/bypass_extractor.py:80-81 | the signed text splits into the share id, the timestamp and the app id pieces |
| BypassStrategy.AppSignsNormalisedId | extractors/bypass_extractor.py:73-81 | the signed share id is the normalised one, starting with '1' |
| BypassStrategy.ParseApiResponseFiles | extractors/bypass_extractor.py:128-147 | an empty list gives None, otherwise a success with one file per item |
| BypassStrategy.BypassItemFields | extractors/bypass_extractor.py:134-142 | a missing name is "Unknown"; category 1 makes a video, otherwise the extension decides |
| Extractors.CacheKey | extractors/init.py:40 | the cache key is "extract:" followed by the url, so distinct urls get distinct keys |
| Extractors.SortByPriorityAscending | extractors/init.py:29 | the sorted strategies are in ascending priority and a permutation of the input |
| Extractors.SortAscendingKeepsOrder | extractors/init.py:29 | a list already in ascending priority is left as it is |
| Extractors.SortedRegistry | extractors/init.py:21-29 | the five strategies are already in priority order, so priority k is at position k - 1 |
| Extractors.FailureMessage | extractors/init.py:62-65 | the failure message is never empty, and is the last exception's message when that is non-empty |
| Extractors.RunFrom | extractors/init.py:46-65 | the loop runs at most every strategy |
| Extractors.RunFromIsFirstSuccess | extractors/init.py:46-65 | the loop returns the first success and runs nothing after it; otherwise every strategy runs and the reply is a failure |
| Extractors.FailureNamesLastException | extractors/init.py:57-65 | a failure carries the message of the last exception raised |
| Extractors.NoLaterException | extractors/init.py:62-65 | with no exception the failure carries the message it started with |
| Extractors.BuiltinFailureIsDefault | extractors/init.py:46-65 | with the five built-in strategies a failure always says "Failed to extract download link" |
| Extractors.GuardsComeFirst | extractors/init.py:34-38 | an invalid url, then a refused rate limit, answer before the cache or any strategy is touched |
| Extractors.CacheHitSkipsStrategies | extractors/init.py:40-44 | a live cached reply is returned as it is and no strategy runs |
| Extractors.MissRunsUntilFirstSuccess | extractors/init.py:46-65 | on a miss the reply is the first success in priority order with nothing run after it; otherwise all run and it is a failure |
| Extractors.CachesOnlySuccesses | extractors/init.py:52-53 | the cache only ever holds successes, so a cache hit always answers a success |
| Extractors.SuccessIsServedForAnHour | extractors/init.py:53 | a fresh success is served from the cache for the next hour |
| Extractors.FailureIsNotCached | extractors/init.py:62-65 | a failure leaves the cache as the lookup left it |
| Extractors.ExtractorManager.constructor | extractors/init.py:21-29 | the manager holds the five strategies sorted by priority, which is their listed order |
| Extractors.ExtractorManager.Extract | extractors/init.py:31-65 | reply, cache and strategies run are exactly those of the extraction specification; an invalid url leaves the rate limiter untouched |
| Extractors.ExtractorManager.RunLoop | extractors/init.py:46-65 | the strategy loop computes the loop specification |

## Left out

- Concurrency: locks and `asyncio.gather` are modelled as sequential steps. `_test_all_proxies` probes in list order.
- Sleeps: the retry backoff and the rate-limit polling only appear as a ghost record of the delays and poll counts.
- Time and randomness: `time.time()` and the random picks are parameters (`now`, `choice`, `gen`).
- The network: a request's answer is a pure function of the request (`net`), so two identical requests get the same answer.
- Session handling: `_get_session`, `close` and `close_all` are not modelled.
- `CacheManager.initialize` only sets a flag that nothing reads, so it is not modelled. `CacheManager.get` and `CacheManager.set` only forward to `MemoryCache.get` and `MemoryCache.set`, so they are modelled as those.
- Headers: the user-agent headers from `UserAgentManager` are not modelled. `utils/init.py` is not part of this model.
- Regex, JSON decoding and hashing: the page regexes of the scraper and the WAP method are the oracle `find`, `json.loads` is `loads`, and MD5 is `md5`. The share-id regexes and the trailing-comma substitutions are modelled in full.
- Cookie string generation: the random letters and digests of `_generate_cookie` are the generator `gen`. Only the string's shape is modelled (`Cookies.CookieString`).
- Floats: JSON floats are not modelled.
- Strategy.SizeOf: of the strings `float()` converts, only plain digit strings are modelled. A string with a sign, a decimal point, an exponent, surrounding whitespace, underscores, or "inf" or "nan" raises in the model, so the endpoint or item holding it fails here while Python formats it (`"1.5"` gives "1.50 B").
- Text.Lower: `str.lower()` is modelled on the ASCII letters only. Other capitals (Latin-1, the Kelvin sign, "İ", whose lower case has two characters) are left as they are, which affects `is_valid_url` and `is_video_file` on such names.
- Rendering: the "%.2f" rendering of sizes, the hit-rate percentage of `get_stats` and the `str()` of `fs_id` are not modelled. The raw values are kept instead.
- Domain parsing: `get_domain_from_url` is the host key that `urlparse` gives (the `netloc` parameter).
- Extractor results: the strategies of `ExtractorManager.extract` are abstracted as `run: Kind -> Attempt`, and `Extractors.Dispatch` binds them to the strategy models. The cache holds `Reply` values, so a cached dict is always truthy.
- Swallowed errors: the messages of swallowed exceptions and all logging are not modelled.
- Configuration: `bot.py` and the environment loading of `config.py` are not modelled. The settings have their default values (`Config`).
- RateLimit.RateLimiter.WaitAndAcquire: only the poll count is stated against the timeout. The buckets after a run of polls are not tied to a function of the old state.
- RateLimit.Bucket.constructor: the caller supplies the bucket's state. The full-bucket defaults are stated by `RateLimiter.constructor` and `GetUserBucket`.
