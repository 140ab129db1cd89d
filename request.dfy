/** `BaseExtractor.request`: one HTTP request with up to `MAX_RETRIES` retries and
    exponential backoff, taking a cookie and a proxy from the shared pools on every attempt
    and reporting each attempt's outcome back to them. The network is a function from the
    attempt number to what the session gave back; the sleeps are recorded as ghost delays. */
module Request {
  import opened Wrappers
  import opened Text
  import opened Json
  import opened Config
  import opened Base
  import Proxies
  import Cookies

  /** What `session.request(...)` gave for one attempt. `body` is `response.json()`, `None`
      when the body does not decode. */
  datatype Outcome =
    | Response(status: int, contentType: string, body: Option<Json>, text: string, latency: real)
    | Timeout
    | Failed

  /** The inputs of one attempt: the clock, the two random picks and the session's outcome. */
  datatype Env = Env(now: real, cookieChoice: nat, proxyChoice: nat, outcome: Outcome)

  /** Feedback given to the pools. There is no cookie failure: `request` never reports one. */
  datatype Event = ProxySuccess(proxy: string, latency: real) | ProxyFailure(proxy: string) | CookieSuccess(cookie: string)

  /** The feedback of one attempt and, when the attempt returns, its value. */
  datatype Step = Step(events: seq<Event>, returned: Option<Json>)

  /** Both pools as `request` sees them. */
  datatype Pools = Pools(proxy: Proxies.PoolState, cookies: seq<Cookies.Cookie>)

  predicate IsJson(contentType: string) {
    Contains(contentType, "application/json")
  }

  /** The value an attempt returns: a 200 whose body is JSON, or `{"html": text}` when the
      content type is not JSON. A JSON body that does not decode raises and is retried. */
  function Returned(o: Outcome): Option<Json> {
    if o.Response? && o.status == 200 then
      if !IsJson(o.contentType) then Some(JObj(map["html" := JStr(o.text)]))
      else o.body
    else None
  }

  function ProxyFailures(proxy: Option<string>): seq<Event> {
    if proxy.Some? then [ProxyFailure(proxy.value)] else []
  }

  /** One attempt's feedback: a 200 reports success to the proxy (with its latency) and to
      the cookie, then a JSON body that fails to decode is an exception like any other; a 429
      reports nothing; other statuses, timeouts and errors report a proxy failure. */
  function AttemptStep(o: Outcome, proxy: Option<string>, cookie: Option<string>): (s: Step)
    ensures s.returned == Returned(o)
  {
    if o.Response? && o.status == 200 then
      var ok := (if proxy.Some? then [ProxySuccess(proxy.value, o.latency)] else [])
        + (if cookie.Some? then [CookieSuccess(cookie.value)] else []);
      if Returned(o).Some? then Step(ok, Returned(o)) else Step(ok + ProxyFailures(proxy), None)
    else if o.Response? && o.status == 429 then Step([], None)
    else Step(ProxyFailures(proxy), None)
  }

  function Apply(p: Pools, e: Event): Pools {
    match e
    case ProxySuccess(u, latency) =>
      p.(proxy := p.proxy.(proxies := Proxies.ReportSuccessSpec(p.proxy.proxies, u, Some(latency))))
    case ProxyFailure(u) =>
      p.(proxy := p.proxy.(proxies := Proxies.ReportFailureSpec(p.proxy.proxies, u)))
    case CookieSuccess(c) =>
      p.(cookies := Cookies.ReportSuccessSpec(p.cookies, c))
  }

  function Feed(p: Pools, events: seq<Event>): Pools
    decreases |events|
  {
    if events == [] then p else Feed(Apply(p, events[0]), events[1..])
  }

  /** The request's flags and the proxy pool's `use_proxy` setting. */
  datatype Call = Call(useProxy: bool, useCookie: bool, domain: string, poolUsesProxies: bool)

  /** One attempt: a cookie is taken when `use_cookie`, then a proxy for the domain when
      `use_proxy`; the outcome's feedback is given to both pools. */
  /** The cookie sent, taken from the pool when `use_cookie`. */
  function CookieStep(cs: seq<Cookies.Cookie>, c: Call, gen: nat -> string, e: Env): (seq<Cookies.Cookie>, Option<string>) {
    if c.useCookie then
      var (cs', v) := Cookies.GetCookieSpec(cs, gen, e.now, e.cookieChoice); (cs', Some(v))
    else (cs, None)
  }

  /** The proxy used, taken from the pool for the domain when `use_proxy`. */
  function ProxyStep(st: Proxies.PoolState, c: Call, e: Env): (Proxies.PoolState, Option<string>) {
    if c.useProxy then Proxies.GetProxySpec(st, c.poolUsesProxies, c.domain, e.now, e.proxyChoice)
    else (st, None)
  }

  /** One attempt: a cookie is taken, then a proxy; the outcome's feedback is given to both
      pools. */
  function AttemptAt(p: Pools, c: Call, gen: nat -> string, e: Env): (Pools, Step) {
    var (cs, cookie) := CookieStep(p.cookies, c, gen, e);
    var (st, proxy) := ProxyStep(p.proxy, c, e);
    var step := AttemptStep(e.outcome, proxy, cookie);
    (Feed(Pools(st, cs), step.events), step)
  }

  /** `2 ** k` */
  function Pow2(k: nat): (r: nat)
    ensures r >= 1
  {
    if k == 0 then 1 else 2 * Pow2(k - 1)
  }

  /** The sleep after a failed attempt `k`. */
  function Delay(k: nat): nat {
    RetryDelay * Pow2(k)
  }

  /** `request(..., retry)`: the value returned, the pools afterwards, and the number of
      attempts made so far. The attempts stop at the first one that returns; the call gives
      up with `None` after attempt `MAX_RETRIES`. */
  function RequestFrom(p: Pools, c: Call, gen: nat -> string, env: nat -> Env, retry: nat): (r: (Json, Pools, nat))
    requires retry <= MaxRetries
    ensures retry < r.2 <= MaxRetries + 1
    decreases MaxRetries - retry
  {
    var (p1, step) := AttemptAt(p, c, gen, env(retry));
    if step.returned.Some? then (step.returned.value, p1, retry + 1)
    else if retry < MaxRetries then RequestFrom(p1, c, gen, env, retry + 1)
    else (JNull, p1, retry + 1)
  }

  /** One step of `RequestFrom`, given the attempt's result. */
  lemma RequestFromStep(p: Pools, c: Call, gen: nat -> string, env: nat -> Env, retry: nat, p1: Pools, step: Step)
    requires retry <= MaxRetries && (p1, step) == AttemptAt(p, c, gen, env(retry))
    ensures step.returned == Returned(env(retry).outcome)
    ensures step.returned.Some? ==> RequestFrom(p, c, gen, env, retry) == (step.returned.value, p1, retry + 1)
    ensures step.returned.None? && retry < MaxRetries ==> RequestFrom(p, c, gen, env, retry) == RequestFrom(p1, c, gen, env, retry + 1)
    ensures step.returned.None? && retry == MaxRetries ==> RequestFrom(p, c, gen, env, retry) == (JNull, p1, retry + 1)
  {
  }

  // ----- Properties -----

  /** The backoff starts at `RETRY_DELAY` and doubles with each retry. */
  lemma DelaysDouble(k: nat)
    ensures Delay(0) == RetryDelay
    ensures Delay(k + 1) == 2 * Delay(k)
  {
  }

  /** The sleeps of the first n retries. */
  function TotalDelay(n: nat): nat {
    if n == 0 then 0 else TotalDelay(n - 1) + Delay(n - 1)
  }

  /** Retrying n times sleeps `RETRY_DELAY * (2 ** n - 1)` seconds in all. */
  lemma {:induction false} TotalDelayClosedForm(n: nat)
    ensures TotalDelay(n) == RetryDelay * (Pow2(n) - 1)
  {
    if n > 0 {
      TotalDelayClosedForm(n - 1);
      DelaysDouble(n - 1);
    }
  }

  /** Later retries wait strictly longer. */
  lemma {:induction false} DelaysIncrease(j: nat, k: nat)
    requires j < k
    ensures Delay(j) < Delay(k)
    decreases k - j
  {
    if j + 1 < k {
      DelaysIncrease(j + 1, k);
    }
  }

  /** Only a 200 reports success, to the proxy or the cookie. */
  lemma OnlyOkReportsSuccess(o: Outcome, proxy: Option<string>, cookie: Option<string>)
    ensures forall e :: e in AttemptStep(o, proxy, cookie).events && !e.ProxyFailure? ==> o.Response? && o.status == 200
  {
  }

  /** A 200 reports success to the proxy used and to the cookie sent, in that order. */
  lemma OkReportsBoth(o: Outcome, proxy: Option<string>, cookie: Option<string>)
    requires o.Response? && o.status == 200
    ensures var ev := AttemptStep(o, proxy, cookie).events;
      (proxy.Some? ==> ev[0] == ProxySuccess(proxy.value, o.latency))
      && (cookie.Some? ==> CookieSuccess(cookie.value) in ev)
      && (ProxyFailures(proxy) != [] && Returned(o).None? ==> ProxyFailure(proxy.value) in ev)
  {
  }

  /** A 429 reports nothing and is retried. */
  lemma RateLimitedIsSilent(o: Outcome, proxy: Option<string>, cookie: Option<string>)
    requires o.Response? && o.status == 429
    ensures AttemptStep(o, proxy, cookie) == Step([], None)
  {
  }

  /** Any other status, a timeout or an error reports one proxy failure when a proxy was used,
      and nothing otherwise. */
  lemma FailureReportsProxyOnly(o: Outcome, proxy: Option<string>, cookie: Option<string>)
    requires !(o.Response? && (o.status == 200 || o.status == 429))
    ensures AttemptStep(o, proxy, cookie).events == (if proxy.Some? then [ProxyFailure(proxy.value)] else [])
    ensures AttemptStep(o, proxy, cookie).returned.None?
  {
  }

  /** The feedback never touches a cookie's failure count or validity. */
  lemma {:induction false} FeedKeepsCookieFailures(p: Pools, events: seq<Event>)
    decreases |events|
    ensures |Feed(p, events).cookies| == |p.cookies|
    ensures forall i :: 0 <= i < |p.cookies| ==>
      Feed(p, events).cookies[i].failCount == p.cookies[i].failCount
      && Feed(p, events).cookies[i].isValid == p.cookies[i].isValid
  {
    if events != [] {
      var q := Apply(p, events[0]);
      if events[0].CookieSuccess? {
        forall i | 0 <= i < |p.cookies|
          ensures q.cookies[i].failCount == p.cookies[i].failCount && q.cookies[i].isValid == p.cookies[i].isValid
        {
          Cookies.ReportSuccessFirstOnly(p.cookies, events[0].cookie, i);
        }
      }
      FeedKeepsCookieFailures(q, events[1..]);
    }
  }

  /** The call stops at the first attempt that returns and gives its value; when none does,
      it gives `None` after attempt `MAX_RETRIES`. */
  lemma {:induction false} RequestStopsAtFirstReturn(p: Pools, c: Call, gen: nat -> string, env: nat -> Env, retry: nat)
    requires retry <= MaxRetries
    ensures var r := RequestFrom(p, c, gen, env, retry);
      && (forall k :: retry <= k < r.2 - 1 ==> Returned(env(k).outcome).None?)
      && (Returned(env(r.2 - 1).outcome).Some? ==> r.0 == Returned(env(r.2 - 1).outcome).value)
      && (Returned(env(r.2 - 1).outcome).None? ==> r.2 == MaxRetries + 1 && r.0 == JNull)
    decreases MaxRetries - retry
  {
    var (p1, step) := AttemptAt(p, c, gen, env(retry));
    var r := RequestFrom(p, c, gen, env, retry);
    RequestFromStep(p, c, gen, env, retry, p1, step);
    if step.returned.None? && retry < MaxRetries {
      RequestStopsAtFirstReturn(p1, c, gen, env, retry + 1);
      var r1 := RequestFrom(p1, c, gen, env, retry + 1);
      forall k | retry <= k < r.2 - 1 ensures Returned(env(k).outcome).None? {
        if k > retry { assert retry + 1 <= k < r1.2 - 1; }
      }
    }
  }

  /** When no attempt returns, the call makes `MAX_RETRIES + 1` attempts and gives `None`. */
  lemma AllFailGivesUp(p: Pools, c: Call, gen: nat -> string, env: nat -> Env)
    requires forall k :: 0 <= k <= MaxRetries ==> Returned(env(k).outcome).None?
    ensures RequestFrom(p, c, gen, env, 0).0 == JNull
    ensures RequestFrom(p, c, gen, env, 0).2 == MaxRetries + 1
  {
    RequestStopsAtFirstReturn(p, c, gen, env, 0);
  }

  // ----- The request itself -----

  /** `request(url, ..., retry)`, recursive like the source. `netloc` is what `urlparse`
      finds in the url. */
  method RequestAttempt(pm: Proxies.ProxyManager, cm: Cookies.CookieManager, netloc: string,
                        useProxy: bool, useCookie: bool, gen: nat -> string, env: nat -> Env, retry: nat)
    returns (r: Json, ghost attempts: nat, ghost delays: seq<nat>)
    requires retry <= MaxRetries
    modifies pm, cm
    ensures (r, Pools(pm.State(), cm.cookies), attempts)
      == RequestFrom(Pools(old(pm.State()), old(cm.cookies)), Call(useProxy, useCookie, HostKey(netloc), pm.useProxy), gen, env, retry)
    ensures |delays| == attempts - 1 - retry
    ensures forall k :: 0 <= k < |delays| ==> delays[k] == Delay(retry + k)
    ensures pm.initialized == old(pm.initialized)
    decreases MaxRetries - retry
  {
    var c := Call(useProxy, useCookie, HostKey(netloc), pm.useProxy);
    ghost var p0 := Pools(pm.State(), cm.cookies);
    var step := Attempt(pm, cm, c, gen, env(retry));
    ghost var p1 := Pools(pm.State(), cm.cookies);
    RequestFromStep(p0, c, gen, env, retry, p1, step);
    if step.returned.Some? {
      return step.returned.value, retry + 1, [];
    }
    if retry < MaxRetries {
      ghost var rest: seq<nat>;
      r, attempts, rest := RequestAttempt(pm, cm, netloc, useProxy, useCookie, gen, env, retry + 1);
      delays := [Delay(retry)] + rest;
      DelaysCons(retry, rest);
      return;
    }
    return JNull, retry + 1, [];
  }

  /** The sleeps before a retry followed by the sleeps of the later retries. */
  lemma DelaysCons(retry: nat, rest: seq<nat>)
    requires forall k :: 0 <= k < |rest| ==> rest[k] == Delay(retry + 1 + k)
    ensures forall k :: 0 <= k < |rest| + 1 ==> ([Delay(retry)] + rest)[k] == Delay(retry + k)
  {
    var d := [Delay(retry)] + rest;
    forall k | 0 < k < |d| ensures d[k] == Delay(retry + k) {
      assert d[k] == rest[k - 1];
    }
  }

  /** One attempt of `request`: a cookie, a proxy, the session's outcome and the feedback. */
  method Attempt(pm: Proxies.ProxyManager, cm: Cookies.CookieManager, c: Call, gen: nat -> string, e: Env)
    returns (step: Step)
    requires c.poolUsesProxies == pm.useProxy
    modifies pm, cm
    ensures (Pools(pm.State(), cm.cookies), step) == AttemptAt(Pools(old(pm.State()), old(cm.cookies)), c, gen, e)
    ensures pm.initialized == old(pm.initialized)
  {
    ghost var p0 := Pools(pm.State(), cm.cookies);
    var cookie: Option<string> := None;
    if c.useCookie {
      var v := cm.GetCookie(gen, e.now, e.cookieChoice);
      cookie := Some(v);
    }
    assert (cm.cookies, cookie) == CookieStep(p0.cookies, c, gen, e);
    var proxy: Option<string> := None;
    if c.useProxy {
      proxy := pm.GetProxy(c.domain, e.now, e.proxyChoice);
    }
    assert (pm.State(), proxy) == ProxyStep(p0.proxy, c, e);
    step := AttemptStep(e.outcome, proxy, cookie);
    Report(pm, cm, step.events);
  }

  /** Gives the feedback events to the pools, in order. */
  method Report(pm: Proxies.ProxyManager, cm: Cookies.CookieManager, events: seq<Event>)
    modifies pm, cm
    ensures Pools(pm.State(), cm.cookies) == Feed(Pools(old(pm.State()), old(cm.cookies)), events)
    ensures pm.initialized == old(pm.initialized)
  {
    var k := 0;
    while k < |events|
      invariant k <= |events|
      invariant Feed(Pools(pm.State(), cm.cookies), events[k..]) == Feed(Pools(old(pm.State()), old(cm.cookies)), events)
      invariant pm.initialized == old(pm.initialized)
    {
      assert events[k..][1..] == events[k + 1..];
      match events[k] {
        case ProxySuccess(u, latency) => pm.ReportSuccess(u, Some(latency));
        case ProxyFailure(u) => pm.ReportFailure(u);
        case CookieSuccess(v) => cm.ReportSuccess(v);
      }
      k := k + 1;
    }
  }
}
