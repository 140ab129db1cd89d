/** `ExtractorManager`: the five strategies sorted by priority, and `extract`, which validates
    the URL, waits for the rate limiter, answers from the result cache, and otherwise tries the
    strategies in order until one succeeds, caching that success. */
module Extractors {
  import opened Wrappers
  import opened Json
  import opened Strategy
  import Base
  import Ranking
  import opened Cache
  import RateLimit
  import ApiStrategy
  import ScraperStrategy
  import ThirdPartyStrategy
  import BypassStrategy

  const InvalidUrlError: string := "Invalid Terabox URL"
  const RateLimitError: string := "Rate limit exceeded. Please wait."
  const DefaultError: string := "Failed to extract download link"
  /** The `timeout=10` given to `wait_and_acquire`. */
  const RateLimitWait: real := 10.0
  /** The `ttl=3600` of the cache write. */
  const ResultTtl: int := 3600

  /** The cache key of a URL. */
  function CacheKey(url: string): (k: string)
    ensures |k| == |url| + 8 && k[8..] == url
  {
    "extract:" + url
  }

  // ----- The strategies and their order -----

  datatype Kind = Api | MultiDomainApi | Scraper | ThirdParty | Bypass

  function Priority(k: Kind): nat {
    match k
    case Api => ApiStrategy.ApiPriority
    case MultiDomainApi => ApiStrategy.MultiPriority
    case Scraper => ScraperStrategy.ScraperPriority
    case ThirdParty => ThirdPartyStrategy.ThirdPartyPriority
    case Bypass => BypassStrategy.BypassPriority
  }

  function Name(k: Kind): string {
    match k
    case Api => ApiStrategy.ApiName
    case MultiDomainApi => ApiStrategy.MultiName
    case Scraper => ScraperStrategy.ScraperName
    case ThirdParty => ThirdPartyStrategy.ThirdPartyName
    case Bypass => BypassStrategy.BypassName
  }

  /** The list as `__init__` builds it, before sorting. */
  const Constructed: seq<Kind> := [Api, MultiDomainApi, Scraper, ThirdParty, Bypass]

  predicate Ascending(ks: seq<Kind>) {
    forall a, b :: 0 <= a < b < |ks| ==> Priority(ks[a]) <= Priority(ks[b])
  }

  /** Sort keys for the descending sort: the negated priorities. */
  function Keys(ks: seq<Kind>): (keys: seq<real>)
    ensures |keys| == |ks|
    ensures forall i :: 0 <= i < |ks| ==> keys[i] == -(Priority(ks[i]) as real)
  {
    seq(|ks|, i requires 0 <= i < |ks| => -(Priority(ks[i]) as real))
  }

  /** `list.sort(key=lambda e: e.priority)`: a stable ascending sort by priority, computed as the
      stable descending sort of the positions by negated priority. */
  function SortByPriority(ks: seq<Kind>): (r: seq<Kind>)
    ensures |r| == |ks|
  {
    var order := Ranking.SortDesc(Ranking.Positions(|ks|), Keys(ks));
    Ranking.SortDescCorrect(Ranking.Positions(|ks|), Keys(ks));
    seq(|order|, i requires 0 <= i < |order| => ks[order[i]])
  }

  /** The sort leaves the priorities ascending. */
  lemma SortByPriorityAscending(ks: seq<Kind>)
    ensures Ascending(SortByPriority(ks))
    ensures multiset(SortByPriority(ks)) == multiset(ks)
  {
    var keys := Keys(ks);
    var order := Ranking.SortDesc(Ranking.Positions(|ks|), keys);
    Ranking.SortDescCorrect(Ranking.Positions(|ks|), keys);
    var r := SortByPriority(ks);
    Ranking.SortedPermutationKeepsElements(ks, keys);
    assert r == Ranking.Permute(ks, order);
    forall a, b | 0 <= a < b < |r| ensures Priority(r[a]) <= Priority(r[b]) {
      assert r[a] == ks[order[a]] && r[b] == ks[order[b]];
      assert keys[order[a]] >= keys[order[b]];
    }
  }

  /** Sorting a list whose priorities already ascend leaves it as it is. */
  lemma SortAscendingKeepsOrder(ks: seq<Kind>)
    requires Ascending(ks)
    ensures SortByPriority(ks) == ks
  {
    var keys := Keys(ks);
    var p := Ranking.Positions(|ks|);
    assert Ranking.SortedDesc(p, keys) by {
      forall a, b | 0 <= a < b < |p| ensures keys[p[a]] >= keys[p[b]] {
        assert p[a] == a && p[b] == b;
      }
    }
    Ranking.SortSortedKeepsOrder(p, keys);
  }

  /** The five strategies already come in ascending priority, so the sort keeps their order. */
  lemma SortedRegistry()
    ensures SortByPriority(Constructed) == Constructed
    ensures forall k: Kind :: Constructed[Priority(k) - 1] == k
  {
    forall i | 0 <= i < 5 ensures Priority(Constructed[i]) == i + 1 {
    }
    SortAscendingKeepsOrder(Constructed);
  }

  /** The five strategies bound to their models. A strategy's `extract` returns a reply or
      None; none of them lets an exception out. */
  function Dispatch(k: Kind, url: string, e: BypassStrategy.Env): (r: Attempt)
    ensures r.Ok?
  {
    match k
    case Api => Ok(ApiStrategy.ApiExtract(url, e.net))
    case MultiDomainApi => Ok(ApiStrategy.MultiExtract(url, e.net))
    case Scraper => Ok(ScraperStrategy.ScraperExtract(url, e.net, e.find, e.loads))
    case ThirdParty => Ok(ThirdPartyStrategy.ThirdPartyExtract(url, e.net))
    case Bypass => Ok(BypassStrategy.BypassExtract(url, e))
  }

  // ----- The extraction loop -----

  /** `last_error or "Failed to extract download link"`: an empty message is falsy too. */
  function FailureMessage(lastError: Option<string>): (m: string)
    ensures m != ""
    ensures lastError.Some? && lastError.value != "" ==> m == lastError.value
  {
    if lastError.Some? && lastError.value != "" then lastError.value else DefaultError
  }

  /** The `for extractor in self.extractors` loop with `last_error` as it stands: the reply it
      returns and how many strategies it ran. */
  function RunFrom(ks: seq<Kind>, run: Kind -> Attempt, lastError: Option<string>): (r: (Reply, nat))
    ensures r.1 <= |ks|
  {
    if ks == [] then (Failure(FailureMessage(lastError)), 0)
    else
      var a := run(ks[0]);
      if Succeeded(a) then (a.value.value, 1)
      else
        var next := if a.Raise? then Some(a.msg) else lastError;
        var (reply, n) := RunFrom(ks[1..], run, next);
        (reply, n + 1)
  }

  /** The loop returns exactly what the first-success search finds, having run the strategies
      up to that one; with no success it runs them all and fails. */
  lemma {:induction false} RunFromIsFirstSuccess(ks: seq<Kind>, run: Kind -> Attempt, lastError: Option<string>)
    ensures var (found, n) := FirstSuccess(ks, run);
      && (found.Some? ==> RunFrom(ks, run, lastError) == (found.value, n))
      && (found.None? ==> RunFrom(ks, run, lastError).0.Failure? && RunFrom(ks, run, lastError).1 == |ks|)
  {
    if ks != [] && !Succeeded(run(ks[0])) {
      var a := run(ks[0]);
      RunFromIsFirstSuccess(ks[1..], run, if a.Raise? then Some(a.msg) else lastError);
    }
  }

  /** The failure names the message of the last exception when it is not empty. */
  lemma {:induction false} FailureNamesLastException(ks: seq<Kind>, run: Kind -> Attempt, lastError: Option<string>, j: nat)
    requires forall k :: 0 <= k < |ks| ==> !Succeeded(run(ks[k]))
    requires j < |ks| && run(ks[j]).Raise? && run(ks[j]).msg != ""
    requires forall k :: j < k < |ks| ==> run(ks[k]).Ok?
    ensures RunFrom(ks, run, lastError).0 == Failure(run(ks[j]).msg)
  {
    var a := run(ks[0]);
    var next := if a.Raise? then Some(a.msg) else lastError;
    if j == 0 {
      NoLaterException(ks[1..], run, next);
    } else {
      FailureNamesLastException(ks[1..], run, next, j - 1);
    }
  }

  /** With no exception in the rest of the loop, the failure is built from `last_error` as it
      stands. */
  lemma {:induction false} NoLaterException(ks: seq<Kind>, run: Kind -> Attempt, lastError: Option<string>)
    requires forall k :: 0 <= k < |ks| ==> !Succeeded(run(ks[k])) && run(ks[k]).Ok?
    ensures RunFrom(ks, run, lastError).0 == Failure(FailureMessage(lastError))
  {
    if ks != [] {
      NoLaterException(ks[1..], run, lastError);
    }
  }

  /** With the five strategies no exception reaches the loop, so a failed extraction always
      reports the default message. */
  lemma BuiltinFailureIsDefault(ks: seq<Kind>, run: Kind -> Attempt, url: string, e: BypassStrategy.Env)
    requires forall k :: run(k) == Dispatch(k, url, e)
    requires RunFrom(ks, run, None).0.Failure?
    ensures RunFrom(ks, run, None).0 == Failure(DefaultError)
  {
    RunFromIsFirstSuccess(ks, run, None);
    NoLaterException(ks, run, None);
  }

  // ----- extract -----

  /** The configuration of the result cache. */
  datatype CacheConfig = CacheConfig(enabled: bool, maxSize: int, defaultTtl: int)

  /** The times of the three clock readings: when the rate limiter starts waiting, the cache
      lookup and the cache write. */
  datatype Clock = Clock(start: real, lookup: real, store: real)

  /** What `extract` returns, the cache state it leaves, and how many strategies it ran. */
  datatype Run = Run(reply: Reply, cache: CacheState<Reply>, tried: nat)

  /** `extract`, given whether the URL is valid and whether the rate limiter admitted the call. */
  function ExtractSpec(valid: bool, admitted: bool, st: CacheState<Reply>, cfg: CacheConfig,
                       url: string, clock: Clock, ks: seq<Kind>, run: Kind -> Attempt): Run
    requires cfg.maxSize >= 1
  {
    if !valid then Run(Failure(InvalidUrlError), st, 0)
    else if !admitted then Run(Failure(RateLimitError), st, 0)
    else
      var (afterGet, hit) := GetSpec(st, cfg.enabled, CacheKey(url), clock.lookup);
      if hit.Some? then Run(hit.value, afterGet, 0)
      else
        var (reply, n) := RunFrom(ks, run, None);
        if reply.Success? then
          Run(reply, SetSpec(afterGet, cfg.enabled, cfg.maxSize, cfg.defaultTtl, CacheKey(url), reply, Some(ResultTtl), clock.store), n)
        else Run(reply, afterGet, n)
  }

  /** An invalid URL is refused before the rate limiter, the cache or any strategy; a refusal
      of the rate limiter comes before the cache and the strategies. */
  lemma GuardsComeFirst(admitted: bool, st: CacheState<Reply>, cfg: CacheConfig, url: string, clock: Clock,
                        ks: seq<Kind>, run: Kind -> Attempt)
    requires cfg.maxSize >= 1
    ensures ExtractSpec(false, admitted, st, cfg, url, clock, ks, run) == Run(Failure(InvalidUrlError), st, 0)
    ensures ExtractSpec(true, false, st, cfg, url, clock, ks, run) == Run(Failure(RateLimitError), st, 0)
  {
  }

  /** A live cached reply is returned as it is, and no strategy runs. */
  lemma CacheHitSkipsStrategies(st: CacheState<Reply>, cfg: CacheConfig, url: string, clock: Clock,
                                ks: seq<Kind>, run: Kind -> Attempt)
    requires cfg.maxSize >= 1 && cfg.enabled
    requires CacheKey(url) in st.entries && !IsExpired(st.entries[CacheKey(url)], clock.lookup)
    ensures var r := ExtractSpec(true, true, st, cfg, url, clock, ks, run);
      r.reply == st.entries[CacheKey(url)].value && r.tried == 0
  {
  }

  /** On a miss the reply is the first success among the strategies, in order, with no later
      strategy run; failing that, every strategy runs and the reply is a failure. */
  lemma MissRunsUntilFirstSuccess(st: CacheState<Reply>, cfg: CacheConfig, url: string, clock: Clock,
                                  ks: seq<Kind>, run: Kind -> Attempt)
    requires cfg.maxSize >= 1
    requires GetSpec(st, cfg.enabled, CacheKey(url), clock.lookup).1.None?
    ensures var r := ExtractSpec(true, true, st, cfg, url, clock, ks, run);
      && (r.reply.Success? ==>
            && 0 < r.tried && Succeeded(run(ks[r.tried - 1]))
            && r.reply == run(ks[r.tried - 1]).value.value
            && forall k :: 0 <= k < r.tried - 1 ==> !Succeeded(run(ks[k])))
      && (r.reply.Failure? ==> r.tried == |ks| && forall k :: 0 <= k < |ks| ==> !Succeeded(run(ks[k])))
  {
    RunFromIsFirstSuccess(ks, run, None);
  }

  /** Every cached value is a successful reply. */
  ghost predicate OnlySuccesses(st: CacheState<Reply>) {
    forall k :: k in st.entries ==> st.entries[k].value.Success?
  }

  /** `extract` keeps the cache holding successes only, so a cache hit is itself a success. */
  lemma CachesOnlySuccesses(valid: bool, admitted: bool, st: CacheState<Reply>, cfg: CacheConfig,
                            url: string, clock: Clock, ks: seq<Kind>, run: Kind -> Attempt)
    requires cfg.maxSize >= 1 && OnlySuccesses(st)
    ensures var r := ExtractSpec(valid, admitted, st, cfg, url, clock, ks, run);
      && OnlySuccesses(r.cache)
      && (valid && admitted && GetSpec(st, cfg.enabled, CacheKey(url), clock.lookup).1.Some? ==> r.reply.Success?)
  {
    if valid && admitted {
      var (afterGet, hit) := GetSpec(st, cfg.enabled, CacheKey(url), clock.lookup);
      assert OnlySuccesses(afterGet);
      if hit.None? {
        var (reply, n) := RunFrom(ks, run, None);
        if reply.Success? && cfg.enabled {
          var st' := SetSpec(afterGet, cfg.enabled, cfg.maxSize, cfg.defaultTtl, CacheKey(url), reply, Some(ResultTtl), clock.store);
          assert forall k :: k in st'.entries ==> k == CacheKey(url) || (k in afterGet.entries && st'.entries[k] == afterGet.entries[k]);
        }
      }
    }
  }

  /** After a successful miss, asking again within the hour answers from the cache. */
  lemma SuccessIsServedForAnHour(st: CacheState<Reply>, cfg: CacheConfig, url: string, clock: Clock,
                                 ks: seq<Kind>, run: Kind -> Attempt, later: real)
    requires cfg.maxSize >= 1 && cfg.enabled && WellFormed(st, cfg.maxSize)
    requires GetSpec(st, true, CacheKey(url), clock.lookup).1.None?
    requires RunFrom(ks, run, None).0.Success?
    requires clock.store <= later <= clock.store + ResultTtl as real
    ensures var r := ExtractSpec(true, true, st, cfg, url, clock, ks, run);
      GetSpec(r.cache, true, CacheKey(url), later).1 == Some(r.reply)
  {
    GetKeepsWellFormed(st, cfg.maxSize, CacheKey(url), clock.lookup);
    var afterGet := GetSpec(st, true, CacheKey(url), clock.lookup).0;
    SetThenGet(afterGet, cfg.maxSize, cfg.defaultTtl, CacheKey(url), RunFrom(ks, run, None).0, Some(ResultTtl), clock.store, later);
  }

  /** A failed extraction writes nothing: the cache is as the lookup left it. */
  lemma FailureIsNotCached(st: CacheState<Reply>, cfg: CacheConfig, url: string, clock: Clock,
                           ks: seq<Kind>, run: Kind -> Attempt)
    requires cfg.maxSize >= 1
    ensures var r := ExtractSpec(true, true, st, cfg, url, clock, ks, run);
      r.reply.Failure? ==> r.cache == GetSpec(st, cfg.enabled, CacheKey(url), clock.lookup).0
  {
  }

  class ExtractorManager {
    var extractors: seq<Kind>

    /** `__init__`: the five strategies, sorted in place by ascending priority. */
    constructor ()
      ensures extractors == SortByPriority(Constructed)
      ensures extractors == Constructed
    {
      extractors := Constructed;
      new;
      extractors := SortByPriority(extractors);
      SortedRegistry();
    }

    /** `extract`: `netloc` is what `urlparse(url)` finds (None when it raises), `clock` the
        clock readings and `run` what each strategy's `extract` does. `admitted` is what
        `wait_and_acquire` answered, when it was called. */
    method Extract(url: string, netloc: Option<string>, user: Option<int>,
                   cache: CacheManager<Reply>, limiter: RateLimit.RateLimiter,
                   clock: Clock, run: Kind -> Attempt)
      returns (r: Reply, ghost admitted: bool, ghost tried: nat)
      requires cache.Valid() && limiter.Valid() && limiter.ClockAfter(clock.start)
      requires cache.memory !in limiter.Repr
      modifies cache.memory, limiter.Repr
      ensures cache.Valid() && limiter.Valid()
      ensures !Base.IsValidUrl(netloc) ==>
        && !admitted && unchanged(limiter, limiter.global)
        && limiter.UserStates() == old(limiter.UserStates())
      ensures Run(r, cache.memory.State(), tried)
        == ExtractSpec(Base.IsValidUrl(netloc), admitted, old(cache.memory.State()),
                       CacheConfig(cache.memory.enabled, cache.memory.maxSize, cache.memory.defaultTtl),
                       url, clock, extractors, run)
    {
      if !Base.IsValidUrl(netloc) {
        return Failure(InvalidUrlError), false, 0;
      }
      ghost var st := cache.memory.State();
      var ok, _ := limiter.WaitAndAcquire(user, clock.start, RateLimitWait);
      admitted := ok;
      assert cache.memory.State() == st;
      if !ok {
        return Failure(RateLimitError), admitted, 0;
      }
      var key := CacheKey(url);
      var cached := cache.memory.Get(key, clock.lookup);
      if cached.Some? {
        return cached.value, admitted, 0;
      }
      var reply, n := RunLoop(run);
      if reply.Success? {
        cache.memory.Set(key, reply, Some(ResultTtl), clock.store);
      }
      return reply, admitted, n;
    }

    /** The loop of `extract` over the sorted strategies. */
    method RunLoop(run: Kind -> Attempt) returns (reply: Reply, tried: nat)
      ensures (reply, tried) == RunFrom(extractors, run, None)
    {
      var lastError: Option<string> := None;
      var k := 0;
      while k < |extractors|
        invariant 0 <= k <= |extractors|
        invariant forall j :: 0 <= j < k ==> !Succeeded(run(extractors[j]))
        invariant RunFrom(extractors, run, None) == Plus(RunFrom(extractors[k..], run, lastError), k)
      {
        var result := run(extractors[k]);
        if Succeeded(result) {
          return result.value.value, k + 1;
        }
        if result.Raise? {
          lastError := Some(result.msg);
        }
        assert extractors[k..][1..] == extractors[k + 1..];
        k := k + 1;
      }
      return Failure(FailureMessage(lastError)), k;
    }
  }

  /** A loop result with `k` more strategies counted as run. */
  function Plus(r: (Reply, nat), k: nat): (Reply, nat) {
    (r.0, r.1 + k)
  }
}
