/** The proxy pool of `utils/proxy_manager.py`. Proxy records are values in the pool's list;
    updating a record through a reference in the source is updating it at its position here.
    Time is the `now` argument, `random.choice` is an index `choice` taken modulo the size of
    the list it picks from, and network results are oracle arguments. */
module Proxies {

  import opened Wrappers
  import opened Text
  import opened Ranking

  /** The Proxy dataclass. */
  datatype Proxy = Proxy(url: string, protocol: string, lastUsed: real, successCount: nat,
                         failCount: nat, avgResponseTime: real, isAlive: bool)

  /** `Proxy(url=...)` with the dataclass defaults. */
  function NewProxy(url: string): Proxy {
    Proxy(url, "http", 0.0, 0, 0, 0.0, true)
  }

  function MaxR(x: real, y: real): real {
    if x >= y then x else y
  }

  function SuccessRate(p: Proxy): real
    requires p.successCount + p.failCount > 0
  {
    p.successCount as real / (p.successCount + p.failCount) as real
  }

  /** `Proxy.score`: 0.5 with no attempts, otherwise 0.7 success rate plus 0.3 speed. */
  function Score(p: Proxy): (r: real)
    ensures p.successCount + p.failCount == 0 ==> r == 0.5
  {
    if p.successCount + p.failCount == 0 then 0.5
    else SuccessRate(p) * 0.7 + MaxR(0.0, 1.0 - p.avgResponseTime / 10.0) * 0.3
  }

  /** The score lies in [0, 1] whenever the average latency is not negative. */
  lemma ScoreInUnitInterval(p: Proxy)
    requires p.avgResponseTime >= 0.0
    ensures 0.0 <= Score(p) <= 1.0
  {
    if p.successCount + p.failCount > 0 {
      var n := (p.successCount + p.failCount) as real;
      assert 0.0 <= SuccessRate(p) <= 1.0 by {
        assert p.successCount as real <= n;
        assert SuccessRate(p) * n == p.successCount as real;
      }
    }
  }

  /** At equal latency, a strictly higher success rate gives a strictly higher score. */
  lemma ScoreMonotone(p: Proxy, q: Proxy)
    requires p.successCount + p.failCount > 0 && q.successCount + q.failCount > 0
    requires p.avgResponseTime == q.avgResponseTime
    requires SuccessRate(p) < SuccessRate(q)
    ensures Score(p) < Score(q)
  {
  }

  /** Position of the first proxy with this url (the search loops with `break`). */
  function FirstIndex(ps: seq<Proxy>, url: string): (r: Option<nat>)
    ensures r.Some? ==> r.value < |ps| && ps[r.value].url == url
                        && forall j :: 0 <= j < r.value ==> ps[j].url != url
    ensures r.None? ==> forall j :: 0 <= j < |ps| ==> ps[j].url != url
  {
    if ps == [] then None
    else if ps[0].url == url then Some(0)
    else match FirstIndex(ps[1..], url)
      case None => None
      case Some(i) => Some(i + 1)
  }

  /** `report_success` on one record: one more success, and the latency average moved halfway
      to a non-zero sample. */
  function Succeeded(p: Proxy, responseTime: Option<real>): Proxy {
    var p1 := p.(successCount := p.successCount + 1);
    if responseTime.Some? && responseTime.value != 0.0
    then p1.(avgResponseTime := (p.avgResponseTime + responseTime.value) / 2.0)
    else p1
  }

  /** `report_failure` on one record: one more failure; dead when failures exceed 5 and the
      new score is below 0.3. */
  function Failed(p: Proxy): Proxy {
    var p1 := p.(failCount := p.failCount + 1);
    if p1.failCount > 5 && Score(p1) < 0.3 then p1.(isAlive := false) else p1
  }

  function ReportSuccessSpec(ps: seq<Proxy>, url: string, responseTime: Option<real>): seq<Proxy> {
    match FirstIndex(ps, url)
    case None => ps
    case Some(i) => ps[i := Succeeded(ps[i], responseTime)]
  }

  function ReportFailureSpec(ps: seq<Proxy>, url: string): seq<Proxy> {
    match FirstIndex(ps, url)
    case None => ps
    case Some(i) => ps[i := Failed(ps[i])]
  }

  /** Feedback changes only the first proxy with the url, and nothing for an unknown url. */
  lemma ReportSuccessTouchesFirstOnly(ps: seq<Proxy>, url: string, responseTime: Option<real>)
    ensures var ps' := ReportSuccessSpec(ps, url, responseTime);
      && |ps'| == |ps|
      && (forall j :: 0 <= j < |ps| && ps[j].url != url ==> ps'[j] == ps[j])
      && (forall j :: 0 <= j < |ps| && ps[j].url == url ==>
            (ps'[j] == Succeeded(ps[j], responseTime) <==> forall k :: 0 <= k < j ==> ps[k].url != url))
      && ((forall j :: 0 <= j < |ps| ==> ps[j].url != url) ==> ps' == ps)
  {
    var ps' := ReportSuccessSpec(ps, url, responseTime);
    forall j | 0 <= j < |ps| && ps[j].url == url
      ensures ps'[j] == Succeeded(ps[j], responseTime) <==> forall k :: 0 <= k < j ==> ps[k].url != url
    {
      var i := FirstIndex(ps, url).value;
      if j != i {
        assert i < j;
        assert Succeeded(ps[j], responseTime).successCount != ps[j].successCount;
      }
    }
  }

  /** A failure report kills a proxy only past five failures with a score under 0.3; a
      single failure never kills a proxy with five or fewer failures or a good score. */
  lemma FailureDeathRule(ps: seq<Proxy>, url: string, j: nat)
    requires j < |ps|
    ensures var ps' := ReportFailureSpec(ps, url);
      && |ps'| == |ps|
      && (ps[j].isAlive && !ps'[j].isAlive <==>
            FirstIndex(ps, url) == Some(j) && ps[j].isAlive && ps'[j].failCount > 5 && Score(ps'[j]) < 0.3)
      && (!ps[j].isAlive ==> !ps'[j].isAlive)
  {
  }

  /** Number of live proxies. */
  function CountAlive(ps: seq<Proxy>): (n: nat)
    ensures n <= |ps|
    ensures n == |ps| <==> forall j :: 0 <= j < |ps| ==> ps[j].isAlive
  {
    if ps == [] then 0 else (if ps[0].isAlive then 1 else 0) + CountAlive(ps[1..])
  }

  /** `get_stats` */
  datatype PoolStats = PoolStats(total: nat, alive: nat, dead: nat)

  function Stats(ps: seq<Proxy>): (s: PoolStats)
    ensures s.total == |ps| && s.alive + s.dead == s.total
    ensures s.dead == 0 <==> forall j :: 0 <= j < |ps| ==> ps[j].isAlive
  {
    var alive := CountAlive(ps);
    PoolStats(|ps|, alive, |ps| - alive)
  }

  // ----- Proxy-list parsing -----

  /** One line of a proxy list: kept when non-empty after stripping and holding ':'. */
  function ParseProxyLine(line: string): (r: Option<string>)
    ensures r.Some? ==> StartsWith(r.value, "http://") && HasChar(r.value, ':')
                        && r.value == "http://" + Strip(line) && Strip(line) != ""
    ensures r.None? <==> Strip(line) == "" || !HasChar(Strip(line), ':')
  {
    var l := Strip(line);
    if l != [] && HasChar(l, ':') then
      assert ("http://" + l)[..7] == "http://";
      var i :| 0 <= i < |l| && l[i] == ':';
      assert ("http://" + l)[7 + i] == ':';
      Some("http://" + l)
    else None
  }

  predicate HasUrl(ps: seq<Proxy>, url: string) {
    exists j :: 0 <= j < |ps| && ps[j].url == url
  }

  /** One line of a list: its proxy is appended unless its url is already in the pool. */
  function AddLine(ps: seq<Proxy>, line: string): seq<Proxy> {
    match ParseProxyLine(line)
    case Some(url) => if HasUrl(ps, url) then ps else ps + [NewProxy(url)]
    case None => ps
  }

  /** Appends the proxies of these lines, in order. */
  function AddLines(ps: seq<Proxy>, lines: seq<string>): seq<Proxy>
    decreases |lines|
  {
    if lines == [] then ps else AddLines(AddLine(ps, lines[0]), lines[1..])
  }

  /** The lines of a fetched list: `text.strip().split('\n')`. */
  function ListLines(text: string): seq<string> {
    SplitChar(Strip(text), '\n')
  }

  /** `_fetch_free_proxies`: each source's text, or None when its fetch failed or was not 200. */
  function FetchSpec(ps: seq<Proxy>, sources: seq<Option<string>>): seq<Proxy>
    decreases |sources|
  {
    if sources == [] then ps
    else
      var next := if sources[0].Some? then AddLines(ps, ListLines(sources[0].value)) else ps;
      FetchSpec(next, sources[1..])
  }

  predicate DistinctUrls(ps: seq<Proxy>) {
    forall i, j :: 0 <= i < j < |ps| ==> ps[i].url != ps[j].url
  }

  /** What a fetch adds: the old pool stays a prefix, every added proxy is fresh with an
      "http://" url holding ':', and no url already in the pool is added again. */
  predicate GrowsByParsedLines(ps: seq<Proxy>, ps': seq<Proxy>) {
    && |ps| <= |ps'| && ps'[..|ps|] == ps
    && (forall k :: |ps| <= k < |ps'| ==>
          ps'[k] == NewProxy(ps'[k].url) && StartsWith(ps'[k].url, "http://") && HasChar(ps'[k].url, ':'))
    && (forall k, j :: |ps| <= k < |ps'| && 0 <= j < k ==> ps'[j].url != ps'[k].url)
  }

  lemma GrowsTrans(a: seq<Proxy>, b: seq<Proxy>, c: seq<Proxy>)
    requires GrowsByParsedLines(a, b) && GrowsByParsedLines(b, c)
    ensures GrowsByParsedLines(a, c)
  {
    assert c[..|a|] == c[..|b|][..|a|];
  }

  lemma AddLineGrows(ps: seq<Proxy>, line: string)
    ensures GrowsByParsedLines(ps, AddLine(ps, line))
  {
    var next := AddLine(ps, line);
    if next != ps {
      var url := ParseProxyLine(line).value;
      assert next[..|ps|] == ps;
      forall j | 0 <= j < |ps| ensures next[j].url != url { assert !HasUrl(ps, url); }
    } else {
      assert next[..|ps|] == ps;
    }
  }

  lemma {:induction false} AddLinesGrows(ps: seq<Proxy>, lines: seq<string>)
    ensures GrowsByParsedLines(ps, AddLines(ps, lines))
    decreases |lines|
  {
    if lines == [] {
      assert ps[..|ps|] == ps;
    } else {
      var next := AddLine(ps, lines[0]);
      AddLineGrows(ps, lines[0]);
      AddLinesGrows(next, lines[1..]);
      GrowsTrans(ps, next, AddLines(next, lines[1..]));
    }
  }

  lemma {:induction false} FetchGrows(ps: seq<Proxy>, sources: seq<Option<string>>)
    ensures GrowsByParsedLines(ps, FetchSpec(ps, sources))
    decreases |sources|
  {
    if sources != [] {
      var next := if sources[0].Some? then AddLines(ps, ListLines(sources[0].value)) else ps;
      if sources[0].Some? { AddLinesGrows(ps, ListLines(sources[0].value)); }
      FetchGrows(next, sources[1..]);
      GrowsTrans(ps, next, FetchSpec(next, sources[1..]));
    }
  }

  /** Fetching never introduces a duplicate url: a pool with distinct urls keeps them distinct. */
  lemma FetchKeepsUrlsDistinct(ps: seq<Proxy>, sources: seq<Option<string>>)
    requires DistinctUrls(ps)
    ensures DistinctUrls(FetchSpec(ps, sources))
  {
    FetchGrows(ps, sources);
    var ps' := FetchSpec(ps, sources);
    forall i, j | 0 <= i < j < |ps'| ensures ps'[i].url != ps'[j].url {
      if j < |ps| { assert ps'[i] == ps[i] && ps'[j] == ps[j]; }
    }
  }

  // ----- Health check of a fresh pool -----

  /** How many proxies at the front of the pool are probed. */
  const ProbeLimit: nat := 50

  /** `_test_proxy`: a probe answering 200 after `t` seconds, or failing (None). */
  function Probed(p: Proxy, outcome: Option<real>): Proxy {
    match outcome
    case Some(t) => p.(isAlive := true, avgResponseTime := t, successCount := p.successCount + 1)
    case None => p.(isAlive := false, failCount := p.failCount + 1)
  }

  /** The live proxies, in order. */
  function KeepAlive(ps: seq<Proxy>): (r: seq<Proxy>)
    ensures |r| <= |ps|
    ensures forall k :: 0 <= k < |r| ==> r[k].isAlive
    ensures forall p :: p in r <==> p in ps && p.isAlive
  {
    if ps == [] then []
    else if ps[0].isAlive then [ps[0]] + KeepAlive(ps[1..])
    else KeepAlive(ps[1..])
  }

  /** The first `ProbeLimit` proxies probed in place, `probe(k)` being the outcome for position k. */
  function ProbeFront(ps: seq<Proxy>, probe: nat -> Option<real>): (r: seq<Proxy>)
    ensures |r| == |ps|
    ensures forall k :: 0 <= k < |ps| ==> r[k] == if k < ProbeLimit then Probed(ps[k], probe(k)) else ps[k]
  {
    seq(|ps|, k requires 0 <= k < |ps| => if k < ProbeLimit then Probed(ps[k], probe(k)) else ps[k])
  }

  /** `_test_all_proxies` */
  function TestAllSpec(ps: seq<Proxy>, probe: nat -> Option<real>): seq<Proxy> {
    if ps == [] then ps else KeepAlive(ProbeFront(ps, probe))
  }

  /** After the health check every proxy is alive, a probed proxy stays exactly when its probe
      answered, and an unprobed proxy stays exactly when it was alive. */
  lemma TestAllKeepsResponders(ps: seq<Proxy>, probe: nat -> Option<real>, k: nat)
    requires k < |ps|
    ensures forall j :: 0 <= j < |TestAllSpec(ps, probe)| ==> TestAllSpec(ps, probe)[j].isAlive
    ensures k < ProbeLimit ==>
      (Probed(ps[k], probe(k)) in TestAllSpec(ps, probe) <==> probe(k).Some?)
    ensures k >= ProbeLimit ==> (ps[k] in TestAllSpec(ps, probe) <==> ps[k].isAlive)
  {
    assert ProbeFront(ps, probe)[k] in ProbeFront(ps, probe);
  }

  // ----- Selection -----

  /** The pool state `get_proxy` and the feedback methods work on. */
  datatype PoolState = PoolState(proxies: seq<Proxy>, cooldowns: map<string, map<string, real>>)

  /** Seconds a proxy rests after serving a domain. */
  const CooldownSeconds: real := 5.0

  /** `dict.get(url, 0)` */
  function Lookup(cd: map<string, real>, url: string): real {
    if url in cd then cd[url] else 0.0
  }

  /** `domain_cooldowns[domain]`, created empty on first use. */
  function DomainCooldowns(cooldowns: map<string, map<string, real>>, domain: string): map<string, real> {
    if domain in cooldowns then cooldowns[domain] else map[]
  }

  /** Every proxy marked alive (`p.is_alive = True` for each p); see ReviveRestoresPool.
      Its ensures only spells out the comprehension pointwise, for the proofs that use it. */
  function Revive(ps: seq<Proxy>): (r: seq<Proxy>)
    ensures |r| == |ps| && forall k :: 0 <= k < |r| ==> r[k] == ps[k].(isAlive := true)
  {
    seq(|ps|, k requires 0 <= k < |ps| => ps[k].(isAlive := true))
  }

  /** After a revival every proxy counts as alive and none would be filtered out. */
  lemma ReviveRestoresPool(ps: seq<Proxy>)
    ensures Stats(Revive(ps)) == PoolStats(|ps|, |ps|, 0)
    ensures KeepAlive(Revive(ps)) == Revive(ps)
  {
    KeepAliveAllAlive(Revive(ps));
  }

  lemma {:induction false} KeepAliveAllAlive(ps: seq<Proxy>)
    requires forall k :: 0 <= k < |ps| ==> ps[k].isAlive
    ensures KeepAlive(ps) == ps
  {
    if ps != [] {
      KeepAliveAllAlive(ps[1..]);
      assert [ps[0]] + ps[1..] == ps;
    }
  }

  /** The candidates (positions) holding a live proxy, in order. */
  function AliveAmong(ps: seq<Proxy>, cands: seq<nat>): (r: seq<nat>)
    requires InRange(cands, |ps|)
    ensures InRange(r, |ps|)
    ensures forall i :: i in r <==> i in cands && ps[i].isAlive
  {
    if cands == [] then []
    else if ps[cands[0]].isAlive then [cands[0]] + AliveAmong(ps, cands[1..])
    else AliveAmong(ps, cands[1..])
  }

  /** The candidates whose proxy has rested more than the cooldown for this domain. */
  function RestedAmong(ps: seq<Proxy>, cands: seq<nat>, cd: map<string, real>, now: real): (r: seq<nat>)
    requires InRange(cands, |ps|)
    ensures InRange(r, |ps|)
    ensures forall i :: i in r <==> i in cands && now - Lookup(cd, ps[i].url) > CooldownSeconds
  {
    if cands == [] then []
    else if now - Lookup(cd, ps[cands[0]].url) > CooldownSeconds then [cands[0]] + RestedAmong(ps, cands[1..], cd, now)
    else RestedAmong(ps, cands[1..], cd, now)
  }

  function AlivePositions(ps: seq<Proxy>): seq<nat> {
    AliveAmong(ps, Positions(|ps|))
  }

  /** No proxy alive: every proxy is revived and all are candidates. */
  predicate Reviving(ps: seq<Proxy>) {
    AlivePositions(ps) == []
  }

  /** The pool after the liveness step. */
  function LivePool(ps: seq<Proxy>): (r: seq<Proxy>)
    ensures |r| == |ps|
  {
    if Reviving(ps) then Revive(ps) else ps
  }

  function LiveCandidates(ps: seq<Proxy>): (r: seq<nat>)
    ensures InRange(r, |ps|)
  {
    if Reviving(ps) then Positions(|ps|) else AlivePositions(ps)
  }

  /** The live candidates that have rested for this domain (none without a domain). */
  function Rested(st: PoolState, domain: string, now: real): (r: seq<nat>)
    ensures InRange(r, |st.proxies|)
  {
    if domain == "" then []
    else RestedAmong(LivePool(st.proxies), LiveCandidates(st.proxies), DomainCooldowns(st.cooldowns, domain), now)
  }

  /** The list that is sorted: the rested candidates when there are any, else all live ones. */
  function Candidates(st: PoolState, domain: string, now: real): (r: seq<nat>)
    ensures InRange(r, |st.proxies|)
  {
    if Rested(st, domain, now) != [] then Rested(st, domain, now) else LiveCandidates(st.proxies)
  }

  /** In the revive case without rested candidates the sorted list is the pool itself. */
  predicate SortsPoolInPlace(st: PoolState, domain: string, now: real) {
    Reviving(st.proxies) && Rested(st, domain, now) == []
  }

  /** The sort key of each proxy.
      Its ensures only spells out the comprehension pointwise, for the proofs that use it. */
  function Scores(ps: seq<Proxy>): (r: seq<real>)
    ensures |r| == |ps| && forall k :: 0 <= k < |ps| ==> r[k] == Score(ps[k])
  {
    seq(|ps|, k requires 0 <= k < |ps| => Score(ps[k]))
  }

  /** The candidates by descending score, stably. */
  function Ordered(st: PoolState, domain: string, now: real): (r: seq<nat>)
    ensures InRange(r, |st.proxies|)
  {
    SortDesc(Candidates(st, domain, now), Scores(LivePool(st.proxies)))
  }

  /** `max(5, n // 4)` capped by the list length. */
  function TopCount(n: nat): (r: nat)
    ensures r <= n && (n > 0 ==> r > 0)
  {
    var m := if 5 >= n / 4 then 5 else n / 4;
    if m <= n then m else n
  }

  lemma LiveCandidatesNonEmpty(ps: seq<Proxy>)
    requires ps != []
    ensures LiveCandidates(ps) != []
  {
    if !Reviving(ps) {
      assert |AlivePositions(ps)| > 0;
    }
  }

  lemma OrderedLength(st: PoolState, domain: string, now: real)
    ensures |Ordered(st, domain, now)| == |Candidates(st, domain, now)|
  {
    SortDescCorrect(Candidates(st, domain, now), Scores(LivePool(st.proxies)));
  }

  /** The position (in the pool before the call) of the proxy `get_proxy` hands out. */
  function Selected(st: PoolState, domain: string, now: real, choice: nat): (i: nat)
    requires st.proxies != []
    ensures i < |st.proxies|
  {
    LiveCandidatesNonEmpty(st.proxies);
    OrderedLength(st, domain, now);
    var order := Ordered(st, domain, now);
    order[choice % TopCount(|order|)]
  }

  /** `domain_cooldowns[domain][url] = now`, skipped without a domain. */
  function Stamped(cooldowns: map<string, map<string, real>>, domain: string, url: string, now: real)
    : map<string, map<string, real>>
  {
    if domain == "" then cooldowns
    else cooldowns[domain := DomainCooldowns(cooldowns, domain)[url := now]]
  }

  /** `get_proxy(domain)`; the empty domain stands for a missing one. */
  function GetProxySpec(st: PoolState, useProxy: bool, domain: string, now: real, choice: nat)
    : (PoolState, Option<string>)
  {
    if !useProxy || st.proxies == [] then (st, None)
    else
      var live := LivePool(st.proxies);
      var sel := Selected(st, domain, now, choice);
      var stamped := live[sel := live[sel].(lastUsed := now)];
      var pool := if SortsPoolInPlace(st, domain, now) then Permute(stamped, Ordered(st, domain, now)) else stamped;
      (PoolState(pool, Stamped(st.cooldowns, domain, live[sel].url, now)), Some(live[sel].url))
  }

  /** With proxies switched off or an empty pool there is no proxy and nothing changes. */
  lemma GetProxyNone(st: PoolState, useProxy: bool, domain: string, now: real, choice: nat)
    ensures GetProxySpec(st, useProxy, domain, now, choice).1.None? <==> !useProxy || st.proxies == []
    ensures GetProxySpec(st, useProxy, domain, now, choice).1.None? ==> GetProxySpec(st, useProxy, domain, now, choice).0 == st
  {
  }

  /** The proxy handed out is live (after any revival), among the top slice of the candidates
      by score, scores at least as well as every candidate outside that slice, and has rested
      for the domain whenever some live proxy has. */
  lemma {:induction false} GetProxyPicksTopRested(st: PoolState, domain: string, now: real, choice: nat)
    requires st.proxies != []
    ensures var sel := Selected(st, domain, now, choice);
      var live := LivePool(st.proxies);
      var order := Ordered(st, domain, now);
      && live[sel].isAlive
      && sel in Candidates(st, domain, now)
      && sel in order[..TopCount(|order|)]
      && (forall c :: c in Candidates(st, domain, now) && c !in order[..TopCount(|order|)] ==>
            Score(live[c]) <= Score(live[sel]))
      && (Rested(st, domain, now) != [] ==>
            now - Lookup(DomainCooldowns(st.cooldowns, domain), live[sel].url) > CooldownSeconds)
  {
    LiveCandidatesNonEmpty(st.proxies);
    OrderedLength(st, domain, now);
    var cands := Candidates(st, domain, now);
    var keys := Scores(LivePool(st.proxies));
    SortDescCorrect(cands, keys);
    var order := Ordered(st, domain, now);
    var t := TopCount(|order|);
    var p := choice % t;
    var sel := order[p];
    assert sel in multiset(order);
    assert sel in cands;
    assert sel in order[..t] by { assert order[..t][p] == sel; }
    var live := LivePool(st.proxies);
    assert live[sel].isAlive by {
      if !Reviving(st.proxies) {
        assert sel in LiveCandidates(st.proxies);
      }
    }
    forall c | c in cands && c !in order[..t] ensures Score(live[c]) <= Score(live[sel]) {
      assert c in multiset(order);
      var q :| 0 <= q < |order| && order[q] == c;
      assert q >= t;
      assert keys[order[p]] >= keys[order[q]];
    }
  }

  /** The handed-out proxy is stamped with the time; when some proxy was alive the pool keeps
      its order and only that proxy's `lastUsed` changes. */
  lemma GetProxyStamps(st: PoolState, domain: string, now: real, choice: nat)
    requires st.proxies != []
    ensures var (st', r) := GetProxySpec(st, true, domain, now, choice);
      var sel := Selected(st, domain, now, choice);
      && r == Some(LivePool(st.proxies)[sel].url)
      && |st'.proxies| == |st.proxies|
      && (!Reviving(st.proxies) ==> st'.proxies == st.proxies[sel := st.proxies[sel].(lastUsed := now)])
  {
    OrderedLength(st, domain, now);
    if SortsPoolInPlace(st, domain, now) {
      assert |Candidates(st, domain, now)| == |st.proxies|;
    }
  }

  /** When no proxy was alive, `get_proxy` leaves every proxy alive: the pool holds the
      revived proxies, the handed-out one stamped, in score order when they were all sorted. */
  lemma GetProxyRevives(st: PoolState, domain: string, now: real, choice: nat)
    requires st.proxies != [] && Reviving(st.proxies)
    ensures var st' := GetProxySpec(st, true, domain, now, choice).0;
      var revived := Revive(st.proxies);
      var sel := Selected(st, domain, now, choice);
      && (forall p :: p in st'.proxies ==> p.isAlive)
      && multiset(st'.proxies) == multiset(revived[sel := revived[sel].(lastUsed := now)])
  {
    var live := LivePool(st.proxies);
    var sel := Selected(st, domain, now, choice);
    var stamped := live[sel := live[sel].(lastUsed := now)];
    assert forall k :: 0 <= k < |stamped| ==> stamped[k].isAlive;
    var pool := GetProxySpec(st, true, domain, now, choice).0.proxies;
    if SortsPoolInPlace(st, domain, now) {
      assert Candidates(st, domain, now) == Positions(|stamped|);
      SortedPermutationKeepsElements(stamped, Scores(live));
      assert pool == Permute(stamped, SortDesc(Positions(|stamped|), Scores(live)));
    } else {
      assert pool == stamped;
    }
    assert multiset(pool) == multiset(stamped);
    forall p | p in pool
      ensures p.isAlive
    {
      assert p in multiset(stamped);
    }
  }

  /** The handed-out proxy is stamped for the domain; the domain's other urls keep their
      stamps, the other domains keep their maps, and without a domain nothing is stamped. */
  lemma GetProxyCooldowns(st: PoolState, domain: string, now: real, choice: nat)
    requires st.proxies != []
    ensures var (st', r) := GetProxySpec(st, true, domain, now, choice);
      && r.Some?
      && (domain == "" ==> st'.cooldowns == st.cooldowns)
      && (domain != "" ==> domain in st'.cooldowns && st'.cooldowns[domain][r.value] == now)
      && (forall d :: d != domain ==> (d in st'.cooldowns <==> d in st.cooldowns))
      && (forall d :: d != domain && d in st.cooldowns ==> st'.cooldowns[d] == st.cooldowns[d])
      && (domain != "" ==> forall u :: u in DomainCooldowns(st.cooldowns, domain) && u != r.value ==>
            u in st'.cooldowns[domain] && st'.cooldowns[domain][u] == st.cooldowns[domain][u])
  {
    var url := LivePool(st.proxies)[Selected(st, domain, now, choice)].url;
    assert GetProxySpec(st, true, domain, now, choice).0.cooldowns == Stamped(st.cooldowns, domain, url, now);
    assert GetProxySpec(st, true, domain, now, choice).1 == Some(url);
    StampedTouchesOneUrl(st.cooldowns, domain, url, now);
  }

  lemma StampedTouchesOneUrl(cooldowns: map<string, map<string, real>>, domain: string, url: string, now: real)
    ensures var c := Stamped(cooldowns, domain, url, now);
      && (domain == "" ==> c == cooldowns)
      && (domain != "" ==> domain in c && c[domain][url] == now)
      && (forall d :: d != domain ==> (d in c <==> d in cooldowns))
      && (forall d :: d != domain && d in cooldowns ==> c[d] == cooldowns[d])
      && (domain != "" ==> forall u :: u in DomainCooldowns(cooldowns, domain) && u != url ==>
            u in c[domain] && c[domain][u] == cooldowns[domain][u])
  {
  }

  /** `Proxy(url=u)` for each configured url, in order.
      Its ensures only spells out the comprehension pointwise, for the proofs that use it. */
  function FromUrls(urls: seq<string>): (r: seq<Proxy>)
    ensures |r| == |urls| && forall k :: 0 <= k < |urls| ==> r[k] == NewProxy(urls[k])
  {
    seq(|urls|, k requires 0 <= k < |urls| => NewProxy(urls[k]))
  }

  /** The pool `initialize` builds on its first effective call. */
  function InitializedPool(ps: seq<Proxy>, custom: seq<string>, sources: seq<Option<string>>,
                           probe: nat -> Option<real>): seq<Proxy>
  {
    TestAllSpec(FetchSpec(ps + FromUrls(custom), sources), probe)
  }

  /** ProxyManager */
  class ProxyManager {
    var proxies: seq<Proxy>
    var cooldowns: map<string, map<string, real>>
    var initialized: bool
    /** USE_PROXY */
    const useProxy: bool

    function State(): PoolState
      reads this
    {
      PoolState(proxies, cooldowns)
    }

    constructor(useProxy: bool)
      ensures this.useProxy == useProxy
      ensures proxies == [] && cooldowns == map[] && !initialized
    {
      this.useProxy := useProxy;
      proxies := [];
      cooldowns := map[];
      initialized := false;
    }

    /** `initialize`: a no-op after the first call or with proxies switched off. */
    method Initialize(custom: seq<string>, sources: seq<Option<string>>, probe: nat -> Option<real>)
      modifies this
      ensures initialized && cooldowns == old(cooldowns)
      ensures old(initialized) || !useProxy ==> proxies == old(proxies)
      ensures !old(initialized) && useProxy ==> proxies == InitializedPool(old(proxies), custom, sources, probe)
    {
      if initialized || !useProxy {
        initialized := true;
        return;
      }
      var k := 0;
      while k < |custom|
        invariant 0 <= k <= |custom|
        invariant proxies == old(proxies) + FromUrls(custom[..k])
        invariant cooldowns == old(cooldowns)
      {
        proxies := proxies + [NewProxy(custom[k])];
        k := k + 1;
      }
      assert custom[..k] == custom;
      FetchFreeProxies(sources);
      TestAllProxies(probe);
      initialized := true;
    }

    /** `_fetch_free_proxies`, one source text (or failed fetch) per configured source. */
    method FetchFreeProxies(sources: seq<Option<string>>)
      modifies this
      ensures proxies == FetchSpec(old(proxies), sources)
      ensures cooldowns == old(cooldowns) && initialized == old(initialized)
    {
      var i := 0;
      while i < |sources|
        invariant 0 <= i <= |sources|
        invariant FetchSpec(proxies, sources[i..]) == FetchSpec(old(proxies), sources)
        invariant cooldowns == old(cooldowns) && initialized == old(initialized)
      {
        assert sources[i..][1..] == sources[i + 1..];
        if sources[i].Some? {
          AddListLines(ListLines(sources[i].value));
        }
        i := i + 1;
      }
    }

    /** The lines of one fetched list, appended in order without duplicating a url. */
    method AddListLines(lines: seq<string>)
      modifies this
      ensures proxies == AddLines(old(proxies), lines)
      ensures cooldowns == old(cooldowns) && initialized == old(initialized)
    {
      var j := 0;
      while j < |lines|
        invariant 0 <= j <= |lines|
        invariant AddLines(proxies, lines[j..]) == AddLines(old(proxies), lines)
        invariant cooldowns == old(cooldowns) && initialized == old(initialized)
      {
        ghost var before := proxies;
        var parsed := ParseProxyLine(lines[j]);
        if parsed.Some? && !HasUrl(proxies, parsed.value) {
          proxies := proxies + [NewProxy(parsed.value)];
        }
        assert proxies == AddLine(before, lines[j]);
        assert lines[j..][1..] == lines[j + 1..];
        assert AddLines(before, lines[j..]) == AddLines(proxies, lines[j + 1..]);
        j := j + 1;
      }
    }

    /** `_test_all_proxies`, `probe(k)` being the outcome of probing position k. */
    method TestAllProxies(probe: nat -> Option<real>)
      modifies this
      ensures proxies == TestAllSpec(old(proxies), probe)
      ensures cooldowns == old(cooldowns) && initialized == old(initialized)
    {
      if proxies == [] {
        return;
      }
      var k := 0;
      while k < |proxies| && k < ProbeLimit
        invariant 0 <= k <= |proxies| && |proxies| == |old(proxies)| && k <= ProbeLimit
        invariant forall j :: 0 <= j < |proxies| ==>
          proxies[j] == if j < k then Probed(old(proxies)[j], probe(j)) else old(proxies)[j]
        invariant cooldowns == old(cooldowns) && initialized == old(initialized)
      {
        proxies := proxies[k := Probed(proxies[k], probe(k))];
        k := k + 1;
      }
      forall j | 0 <= j < |proxies| ensures proxies[j] == ProbeFront(old(proxies), probe)[j] {
      }
      assert proxies == ProbeFront(old(proxies), probe);
      proxies := KeepAlive(proxies);
    }

    /** `get_proxy`; the empty domain stands for a missing one. */
    method GetProxy(domain: string, now: real, choice: nat) returns (r: Option<string>)
      modifies this
      ensures (State(), r) == GetProxySpec(old(State()), useProxy, domain, now, choice)
      ensures initialized == old(initialized)
    {
      if !useProxy || proxies == [] {
        return None;
      }
      var st := State();
      var reviving := Reviving(proxies);
      if reviving {
        ReviveAll();
      }
      var live := proxies;
      assert live == LivePool(st.proxies);
      var cds := cooldowns;
      var rested: seq<nat> := [];
      if domain != "" {
        var cd := DomainCooldowns(cds, domain);
        rested := RestedAmong(live, LiveCandidates(st.proxies), cd, now);
      }
      assert rested == Rested(st, domain, now);
      var cands := if rested != [] then rested else LiveCandidates(st.proxies);
      var order := SortDesc(cands, Scores(live));
      assert order == Ordered(st, domain, now);
      var sel := Selected(st, domain, now, choice);
      var url := live[sel].url;
      var ps := live[sel := live[sel].(lastUsed := now)];
      if reviving && rested == [] {
        ps := Permute(ps, order);
      }
      if domain != "" {
        cds := cds[domain := DomainCooldowns(cds, domain)[url := now]];
      }
      proxies, cooldowns := ps, cds;
      r := Some(url);
    }

    /** The revival loop of `get_proxy`: every proxy marked alive. */
    method ReviveAll()
      modifies this
      ensures proxies == Revive(old(proxies))
      ensures cooldowns == old(cooldowns) && initialized == old(initialized)
    {
      var k := 0;
      while k < |proxies|
        invariant 0 <= k <= |proxies| && |proxies| == |old(proxies)|
        invariant forall j :: 0 <= j < |proxies| ==>
          proxies[j] == if j < k then old(proxies)[j].(isAlive := true) else old(proxies)[j]
        invariant cooldowns == old(cooldowns) && initialized == old(initialized)
      {
        proxies := proxies[k := proxies[k].(isAlive := true)];
        k := k + 1;
      }
    }

    /** `report_success` */
    method ReportSuccess(url: string, responseTime: Option<real>)
      modifies this
      ensures proxies == ReportSuccessSpec(old(proxies), url, responseTime)
      ensures cooldowns == old(cooldowns) && initialized == old(initialized)
    {
      var i := 0;
      while i < |proxies|
        invariant 0 <= i <= |proxies| && proxies == old(proxies)
        invariant forall j :: 0 <= j < i ==> proxies[j].url != url
      {
        if proxies[i].url == url {
          proxies := proxies[i := Succeeded(proxies[i], responseTime)];
          return;
        }
        i := i + 1;
      }
    }

    /** `report_failure` */
    method ReportFailure(url: string)
      modifies this
      ensures proxies == ReportFailureSpec(old(proxies), url)
      ensures cooldowns == old(cooldowns) && initialized == old(initialized)
    {
      var i := 0;
      while i < |proxies|
        invariant 0 <= i <= |proxies| && proxies == old(proxies)
        invariant forall j :: 0 <= j < i ==> proxies[j].url != url
      {
        if proxies[i].url == url {
          proxies := proxies[i := Failed(proxies[i])];
          return;
        }
        i := i + 1;
      }
    }
  }
}
