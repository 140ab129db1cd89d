/** The cookie pool of `utils/cookie_manager.py`. Cookie records are values at positions of
    the pool. Time is the `now` argument, `random.choice` is an index `choice` taken modulo the
    length of the slice it picks from, and cookie generation (timestamps, hashes, random
    letters) is an oracle `gen` giving the k-th generated cookie string. */
module Cookies {

  import opened Wrappers
  import opened Ranking

  /** The Cookie dataclass. */
  datatype Cookie = Cookie(value: string, createdAt: real, lastUsed: real, successCount: nat,
                           failCount: nat, isValid: bool)

  /** Cookies per generated pool. */
  const PoolSize: nat := 10
  /** `get_cookie` picks among this many best cookies. */
  const TopPick: nat := 3
  /** A cookie is invalidated once its failures exceed this. */
  const MaxFailures: nat := 3

  /** `_generate_initial_cookies`: `gen(k)` is the k-th cookie `_generate_cookie` makes; see
      GeneratedPoolShape.
      Its ensures only spells out the comprehension pointwise, for the proofs that use it. */
  function Generated(gen: nat -> string, now: real): (r: seq<Cookie>)
    ensures |r| == PoolSize
    ensures forall k :: 0 <= k < |r| ==>
      r[k] == Cookie(gen(k), now, 0.0, 0, 0, true)
  {
    seq(PoolSize, k requires 0 <= k => Cookie(gen(k), now, 0.0, 0, 0, true))
  }

  /** The ranking key: successes over attempts, counting at least one attempt. */
  function Ratio(c: Cookie): (r: real)
    ensures 0.0 <= r <= 1.0
    ensures c.successCount == 0 ==> r == 0.0
  {
    var attempts := if c.successCount + c.failCount >= 1 then c.successCount + c.failCount else 1;
    assert c.successCount as real <= attempts as real;
    c.successCount as real / attempts as real
  }

  /** The sort key of each cookie.
      Its ensures only spells out the comprehension pointwise, for the proofs that use it. */
  function Ratios(cs: seq<Cookie>): (r: seq<real>)
    ensures |r| == |cs| && forall k :: 0 <= k < |cs| ==> r[k] == Ratio(cs[k])
  {
    seq(|cs|, k requires 0 <= k < |cs| => Ratio(cs[k]))
  }

  /** The candidates (positions) holding a valid cookie, in order. */
  function ValidAmong(cs: seq<Cookie>, cands: seq<nat>): (r: seq<nat>)
    requires InRange(cands, |cs|)
    ensures InRange(r, |cs|)
    ensures forall i :: i in r <==> i in cands && cs[i].isValid
  {
    if cands == [] then []
    else if cs[cands[0]].isValid then [cands[0]] + ValidAmong(cs, cands[1..])
    else ValidAmong(cs, cands[1..])
  }

  function ValidPositions(cs: seq<Cookie>): seq<nat> {
    ValidAmong(cs, Positions(|cs|))
  }

  /** No valid cookie: the pool is replaced by a generated one. */
  predicate Regenerates(cs: seq<Cookie>) {
    ValidPositions(cs) == []
  }

  /** The pool `get_cookie` ranks: the generated one when nothing is valid. */
  function Working(cs: seq<Cookie>, gen: nat -> string, now: real): seq<Cookie> {
    if Regenerates(cs) then Generated(gen, now) else cs
  }

  function Eligible(cs: seq<Cookie>, gen: nat -> string, now: real): (r: seq<nat>)
    ensures InRange(r, |Working(cs, gen, now)|)
  {
    if Regenerates(cs) then Positions(PoolSize) else ValidPositions(cs)
  }

  lemma EligibleNonEmpty(cs: seq<Cookie>, gen: nat -> string, now: real)
    ensures |Eligible(cs, gen, now)| >= 1
  {
    if !Regenerates(cs) {
      assert |ValidPositions(cs)| != 0;
    }
  }

  /** The eligible positions by descending ratio, stably. */
  function Ranked(cs: seq<Cookie>, gen: nat -> string, now: real): (r: seq<nat>)
    ensures InRange(r, |Working(cs, gen, now)|)
    ensures |r| == |Eligible(cs, gen, now)| >= 1
  {
    EligibleNonEmpty(cs, gen, now);
    SortDescCorrect(Eligible(cs, gen, now), Ratios(Working(cs, gen, now)));
    SortDesc(Eligible(cs, gen, now), Ratios(Working(cs, gen, now)))
  }

  /** Index into the ranked list: one of the first three when there are three, else the first. */
  function PickIndex(n: nat, choice: nat): (k: nat)
    requires n >= 1
    ensures k < n && (n >= TopPick ==> k < TopPick) && (n < TopPick ==> k == 0)
  {
    if n >= TopPick then choice % TopPick else 0
  }

  /** The position (in the ranked pool) of the cookie `get_cookie` hands out. */
  function Chosen(cs: seq<Cookie>, gen: nat -> string, now: real, choice: nat): (i: nat)
    ensures i < |Working(cs, gen, now)|
  {
    var ranked := Ranked(cs, gen, now);
    ranked[PickIndex(|ranked|, choice)]
  }

  /** `get_cookie`: the new pool and the value handed out. A regenerated pool is itself the
      list that is sorted, so it ends in ranked order. */
  function GetCookieSpec(cs: seq<Cookie>, gen: nat -> string, now: real, choice: nat): (seq<Cookie>, string) {
    var pool := Working(cs, gen, now);
    var i := Chosen(cs, gen, now, choice);
    var stamped := pool[i := pool[i].(lastUsed := now)];
    (if Regenerates(cs) then Permute(stamped, Ranked(cs, gen, now)) else stamped, pool[i].value)
  }

  /** A generated pool: ten valid cookies with zero counters, never used, made at `now`. */
  lemma GeneratedPoolShape(gen: nat -> string, now: real)
    ensures var g := Generated(gen, now);
      |g| == 10 && forall k :: 0 <= k < 10 ==>
        g[k].isValid && g[k].successCount == 0 && g[k].failCount == 0 && g[k].lastUsed == 0.0
        && g[k].createdAt == now && g[k].value == gen(k)
  {
  }

  /** With no valid cookie the pool becomes the generated one, in generation order since all
      ratios are equal, with the cookie handed out (one of the first three) stamped. */
  lemma GetCookieRegenerates(cs: seq<Cookie>, gen: nat -> string, now: real, choice: nat)
    requires Regenerates(cs)
    ensures var g := Generated(gen, now);
      var k := choice % TopPick;
      GetCookieSpec(cs, gen, now, choice) == (g[k := g[k].(lastUsed := now)], gen(k))
  {
    var g := Generated(gen, now);
    SortEqualKeysKeepsOrder(Positions(PoolSize), Ratios(g), 0.0);
    var ranked := Ranked(cs, gen, now);
    assert ranked == Positions(PoolSize);
    var k := choice % TopPick;
    var stamped := g[k := g[k].(lastUsed := now)];
    assert Permute(stamped, ranked) == stamped;
  }

  /** With a valid cookie, the one handed out is valid and only its `lastUsed` changes. */
  lemma GetCookieStampsValid(cs: seq<Cookie>, gen: nat -> string, now: real, choice: nat)
    requires !Regenerates(cs)
    ensures var i := Chosen(cs, gen, now, choice);
      && i < |cs| && cs[i].isValid
      && GetCookieSpec(cs, gen, now, choice) == (cs[i := cs[i].(lastUsed := now)], cs[i].value)
  {
    var ranked := Ranked(cs, gen, now);
    SortDescCorrect(ValidPositions(cs), Ratios(cs));
    var i := ranked[PickIndex(|ranked|, choice)];
    assert i in multiset(ranked);
  }

  /** The cookie handed out is among the three best ratios (the best one when fewer than three
      are valid): no valid cookie outside that slice has a better ratio. */
  lemma GetCookieRanks(cs: seq<Cookie>, gen: nat -> string, now: real, choice: nat)
    requires !Regenerates(cs)
    ensures var i := Chosen(cs, gen, now, choice);
      var ranked := Ranked(cs, gen, now);
      var top := ranked[..if |ranked| >= TopPick then TopPick else 1];
      && i in top
      && (forall j :: 0 <= j < |cs| && cs[j].isValid && j !in top ==> Ratio(cs[j]) <= Ratio(cs[i]))
  {
    var ranked := Ranked(cs, gen, now);
    var keys := Ratios(cs);
    assert ranked == SortDesc(ValidPositions(cs), keys);
    var t := if |ranked| >= TopPick then TopPick else 1;
    var p := PickIndex(|ranked|, choice);
    var i := ranked[p];
    assert i in ranked[..t] by { assert ranked[..t][p] == i; }
    forall j | 0 <= j < |cs| && cs[j].isValid && j !in ranked[..t] ensures Ratio(cs[j]) <= Ratio(cs[i]) {
      assert Positions(|cs|)[j] == j;
      assert j in ValidPositions(cs);
      RankedBelow(ValidPositions(cs), keys, t, p, j);
    }
  }

  /** In a descending ranking, an element found after the first t is ranked no higher than
      any element among them. */
  lemma RankedBelow(s: seq<nat>, keys: seq<real>, t: nat, p: nat, j: nat)
    requires InRange(s, |keys|) && p < t <= |SortDesc(s, keys)|
    requires j in s && j !in SortDesc(s, keys)[..t]
    ensures keys[j] <= keys[SortDesc(s, keys)[p]]
  {
    SortDescCorrect(s, keys);
    SortDescKeepsMembers(s, keys, j);
    BelowPrefix(SortDesc(s, keys), keys, t, p, j);
  }

  lemma SortDescKeepsMembers(s: seq<nat>, keys: seq<real>, j: nat)
    requires InRange(s, |keys|) && j in s
    ensures j in SortDesc(s, keys)
  {
    SortDescCorrect(s, keys);
    assert j in multiset(s);
    assert j in multiset(SortDesc(s, keys));
  }

  /** In a descending list, an element outside the first t is ranked no higher than any of them. */
  lemma BelowPrefix(r: seq<nat>, keys: seq<real>, t: nat, p: nat, j: nat)
    requires InRange(r, |keys|) && SortedDesc(r, keys) && p < t <= |r|
    requires j in r && j !in r[..t]
    ensures keys[j] <= keys[r[p]]
  {
    forall i | 0 <= i < t ensures r[i] != j {
      assert r[..t][i] == r[i];
    }
    var q :| 0 <= q < |r| && r[q] == j;
    assert p < q;
  }

  // ----- Feedback -----

  /** Position of the first cookie with this value (the search loops with `break`). */
  function FirstWithValue(cs: seq<Cookie>, value: string): (r: Option<nat>)
    ensures r.Some? ==> r.value < |cs| && cs[r.value].value == value
                        && forall j :: 0 <= j < r.value ==> cs[j].value != value
    ensures r.None? ==> forall j :: 0 <= j < |cs| ==> cs[j].value != value
  {
    if cs == [] then None
    else if cs[0].value == value then Some(0)
    else match FirstWithValue(cs[1..], value)
      case None => None
      case Some(i) => Some(i + 1)
  }

  /** `report_failure` on one record: invalid once failures exceed three. */
  function FailedCookie(c: Cookie): Cookie {
    var c1 := c.(failCount := c.failCount + 1);
    if c1.failCount > MaxFailures then c1.(isValid := false) else c1
  }

  function ReportSuccessSpec(cs: seq<Cookie>, value: string): seq<Cookie> {
    match FirstWithValue(cs, value)
    case None => cs
    case Some(i) => cs[i := cs[i].(successCount := cs[i].successCount + 1)]
  }

  function ReportFailureSpec(cs: seq<Cookie>, value: string): seq<Cookie> {
    match FirstWithValue(cs, value)
    case None => cs
    case Some(i) => cs[i := FailedCookie(cs[i])]
  }

  /** A success report adds one success to the first cookie with the value and to nothing
      else; an unknown value changes nothing. */
  lemma ReportSuccessFirstOnly(cs: seq<Cookie>, value: string, j: nat)
    requires j < |cs|
    ensures var cs' := ReportSuccessSpec(cs, value);
      && |cs'| == |cs|
      && (cs'[j] != cs[j] <==> FirstWithValue(cs, value) == Some(j))
      && (FirstWithValue(cs, value) == Some(j) ==> cs'[j].successCount == cs[j].successCount + 1)
      && (FirstWithValue(cs, value).None? ==> cs' == cs)
  {
  }

  /** A failure report invalidates the first cookie with the value exactly when its failures
      pass three, and invalidity is never undone by either report. */
  lemma ReportFailureInvalidates(cs: seq<Cookie>, value: string, j: nat)
    requires j < |cs|
    ensures var cs' := ReportFailureSpec(cs, value);
      && |cs'| == |cs|
      && (FirstWithValue(cs, value) == Some(j) ==>
            cs'[j].failCount == cs[j].failCount + 1 && (cs'[j].isValid <==> cs[j].isValid && cs[j].failCount + 1 <= MaxFailures))
      && (FirstWithValue(cs, value) != Some(j) ==> cs'[j] == cs[j])
      && (!cs[j].isValid ==> !cs'[j].isValid && !ReportSuccessSpec(cs, value)[j].isValid)
  {
  }

  // ----- Cookie strings -----

  /** The separator of cookie pairs. */
  const Sep: string := "; "

  predicate SepAt(s: string, i: nat) {
    i + 2 <= |s| && s[i] == ';' && s[i + 1] == ' '
  }

  predicate HasSep(s: string) {
    exists i: nat :: i < |s| && SepAt(s, i)
  }

  /** `str.split("; ")`: cuts at each separator, scanning left to right. */
  function SplitSep(s: string): (parts: seq<string>)
    ensures |parts| >= 1
    decreases |s|
  {
    if s == [] then [[]]
    else if SepAt(s, 0) then [[]] + SplitSep(s[2..])
    else
      var rest := SplitSep(s[1..]);
      [[s[0]] + rest[0]] + rest[1..]
  }

  /** `"; ".join(parts)` */
  function JoinSep(parts: seq<string>): string {
    if parts == [] then []
    else if |parts| == 1 then parts[0]
    else parts[0] + Sep + JoinSep(parts[1..])
  }

  lemma {:induction false} SplitNoSep(p: string)
    requires !HasSep(p)
    ensures SplitSep(p) == [p]
    decreases |p|
  {
    if p != [] {
      assert !SepAt(p, 0);
      assert !HasSep(p[1..]) by {
        forall i: nat | SepAt(p[1..], i) ensures false { assert SepAt(p, i + 1); }
      }
      SplitNoSep(p[1..]);
      assert [p[0]] + p[1..] == p;
    }
  }

  lemma {:induction false} SplitFirstPart(p: string, rest: string)
    requires !HasSep(p)
    ensures SplitSep(p + Sep + rest) == [p] + SplitSep(rest)
    decreases |p|
  {
    var s := p + Sep + rest;
    if p == [] {
      assert s == Sep + rest && SepAt(s, 0);
      assert s[2..] == rest;
    } else {
      assert !SepAt(s, 0) by {
        if |p| == 1 { assert s[1] == ';'; } else { assert !SepAt(p, 0); assert s[1] == p[1]; }
      }
      assert !HasSep(p[1..]) by {
        forall i: nat | SepAt(p[1..], i) ensures false { assert SepAt(p, i + 1); }
      }
      assert s[1..] == p[1..] + Sep + rest;
      SplitFirstPart(p[1..], rest);
      assert [p[0]] + p[1..] == p;
    }
  }

  /** Splitting undoes joining when no part holds the separator. */
  lemma {:induction false} SplitJoinSep(parts: seq<string>)
    requires |parts| >= 1
    requires forall k :: 0 <= k < |parts| ==> !HasSep(parts[k])
    ensures SplitSep(JoinSep(parts)) == parts
    decreases |parts|
  {
    if |parts| == 1 {
      SplitNoSep(parts[0]);
    } else {
      SplitJoinSep(parts[1..]);
      SplitFirstPart(parts[0], JoinSep(parts[1..]));
      assert [parts[0]] + parts[1..] == parts;
    }
  }

  /** Index of the first '=' in s. */
  function FirstEq(s: string): (r: Option<nat>)
    ensures r.Some? ==> r.value < |s| && s[r.value] == '=' && forall j :: 0 <= j < r.value ==> s[j] != '='
    ensures r.None? ==> forall j :: 0 <= j < |s| ==> s[j] != '='
  {
    if s == [] then None
    else if s[0] == '=' then Some(0)
    else match FirstEq(s[1..])
      case None => None
      case Some(i) => Some(i + 1)
  }

  /** The pairs loop of `get_cookie_dict`: parts with '=' split at the first one, later keys winning. */
  function AddParts(d: map<string, string>, parts: seq<string>): map<string, string>
    decreases |parts|
  {
    if parts == [] then d
    else
      var d1 := match FirstEq(parts[0])
        case Some(i) => d[parts[0][..i] := parts[0][i + 1..]]
        case None => d;
      AddParts(d1, parts[1..])
  }

  /** The dictionary `get_cookie_dict` builds from a cookie string. */
  function ParseCookieDict(s: string): map<string, string> {
    AddParts(map[], SplitSep(s))
  }

  /** A pair written as `k=v`. */
  function PairText(kv: (string, string)): string {
    kv.0 + "=" + kv.1
  }

  function PairTexts(pairs: seq<(string, string)>): (r: seq<string>)
    ensures |r| == |pairs| && forall k :: 0 <= k < |pairs| ==> r[k] == PairText(pairs[k])
  {
    seq(|pairs|, k requires 0 <= k < |pairs| => PairText(pairs[k]))
  }

  /** A dictionary built from pairs in order, later keys winning. */
  function PairsMap(d: map<string, string>, pairs: seq<(string, string)>): map<string, string>
    decreases |pairs|
  {
    if pairs == [] then d else PairsMap(d[pairs[0].0 := pairs[0].1], pairs[1..])
  }

  /** A well-formed pair: the key has no '=', and neither side holds the separator. */
  predicate GoodPair(kv: (string, string)) {
    (forall j :: 0 <= j < |kv.0| ==> kv.0[j] != '=') && !HasSep(kv.0) && !HasSep(kv.1)
  }

  lemma PairTextSplits(kv: (string, string))
    requires GoodPair(kv)
    ensures FirstEq(PairText(kv)) == Some(|kv.0|)
    ensures PairText(kv)[..|kv.0|] == kv.0 && PairText(kv)[|kv.0| + 1..] == kv.1
    ensures !HasSep(PairText(kv))
  {
    var t := PairText(kv);
    assert t[..|kv.0|] == kv.0 && t[|kv.0| + 1..] == kv.1;
    assert t[|kv.0|] == '=';
    assert forall j :: 0 <= j < |kv.0| ==> t[j] == kv.0[j];
    match FirstEq(t) {
      case None =>
      case Some(v) => assert !(v < |kv.0|) && !(v > |kv.0|);
    }
    forall i: nat ensures !SepAt(t, i) {
      if i + 1 < |kv.0| {
        assert !SepAt(kv.0, i);
        assert t[i] == kv.0[i] && t[i + 1] == kv.0[i + 1];
      } else if i >= |kv.0| + 1 && i + 2 <= |t| {
        var j := i - |kv.0| - 1;
        assert !SepAt(kv.1, j);
        assert t[i] == kv.1[j] && t[i + 1] == kv.1[j + 1];
      }
    }
  }

  lemma {:induction false} AddPairTexts(d: map<string, string>, pairs: seq<(string, string)>)
    requires forall k :: 0 <= k < |pairs| ==> GoodPair(pairs[k])
    ensures AddParts(d, PairTexts(pairs)) == PairsMap(d, pairs)
    decreases |pairs|
  {
    if pairs != [] {
      PairTextSplits(pairs[0]);
      assert PairTexts(pairs)[1..] == PairTexts(pairs[1..]);
      AddPairTexts(d[pairs[0].0 := pairs[0].1], pairs[1..]);
    }
  }

  /** Parsing a "; "-joined list of well-formed `k=v` pairs gives back those pairs, later
      duplicates winning (and the empty string gives the empty dictionary). */
  lemma CookieDictRoundTrip(pairs: seq<(string, string)>)
    requires forall k :: 0 <= k < |pairs| ==> GoodPair(pairs[k])
    ensures ParseCookieDict(JoinSep(PairTexts(pairs))) == PairsMap(map[], pairs)
  {
    if pairs == [] {
      assert SplitSep([]) == [[]];
      assert FirstEq([]) == None;
    } else {
      forall k | 0 <= k < |pairs| ensures !HasSep(PairTexts(pairs)[k]) { PairTextSplits(pairs[k]); }
      SplitJoinSep(PairTexts(pairs));
      AddPairTexts(map[], pairs);
    }
  }

  /** The shape of `_generate_cookie`: five pairs whose values come from hashes and random
      letters (opaque here). */
  function CookieString(ndusDigest: string, browserId: string, csrfToken: string, randomId: string): string {
    JoinSep(PairTexts([("ndus", "Y" + ndusDigest), ("browserid", browserId), ("csrfToken", csrfToken),
                       ("lang", "en"), ("TSID", "A" + randomId)]))
  }

  /** A generated cookie string parses back into its five named values. */
  lemma GeneratedCookieParses(ndusDigest: string, browserId: string, csrfToken: string, randomId: string)
    requires !HasSep(ndusDigest) && !HasSep(browserId) && !HasSep(csrfToken) && !HasSep(randomId)
    ensures var d := ParseCookieDict(CookieString(ndusDigest, browserId, csrfToken, randomId));
      d.Keys == {"ndus", "browserid", "csrfToken", "lang", "TSID"}
      && d["ndus"] == "Y" + ndusDigest && d["browserid"] == browserId && d["csrfToken"] == csrfToken
      && d["lang"] == "en" && d["TSID"] == "A" + randomId
  {
    var pairs := [("ndus", "Y" + ndusDigest), ("browserid", browserId), ("csrfToken", csrfToken),
                  ("lang", "en"), ("TSID", "A" + randomId)];
    assert !HasSep("Y" + ndusDigest) by {
      forall i: nat | SepAt("Y" + ndusDigest, i) ensures false { assert SepAt(ndusDigest, i - 1); }
    }
    assert !HasSep("A" + randomId) by {
      forall i: nat | SepAt("A" + randomId, i) ensures false { assert SepAt(randomId, i - 1); }
    }
    assert !HasSep("en");
    CookieDictRoundTrip(pairs);
    var d1 := map["ndus" := "Y" + ndusDigest];
    var d2 := d1["browserid" := browserId];
    var d3 := d2["csrfToken" := csrfToken];
    var d4 := d3["lang" := "en"];
    var d5 := d4["TSID" := "A" + randomId];
    assert PairsMap(map[], pairs) == PairsMap(d1, pairs[1..]);
    assert PairsMap(d1, pairs[1..]) == PairsMap(d2, pairs[2..]);
    assert PairsMap(d2, pairs[2..]) == PairsMap(d3, pairs[3..]);
    assert PairsMap(d3, pairs[3..]) == PairsMap(d4, pairs[4..]);
    assert PairsMap(d4, pairs[4..]) == PairsMap(d5, pairs[5..]);
    assert pairs[5..] == [];
  }

  /** CookieManager */
  class CookieManager {
    var cookies: seq<Cookie>

    /** A manager starts with a generated pool. */
    constructor(gen: nat -> string, now: real)
      ensures cookies == Generated(gen, now)
    {
      cookies := [];
      new;
      GenerateInitialCookies(gen, now);
    }

    /** `_generate_initial_cookies`: appends a generated pool. */
    method GenerateInitialCookies(gen: nat -> string, now: real)
      modifies this
      ensures cookies == old(cookies) + Generated(gen, now)
    {
      var k := 0;
      while k < PoolSize
        invariant 0 <= k <= PoolSize
        invariant cookies == old(cookies) + Generated(gen, now)[..k]
      {
        cookies := cookies + [Cookie(gen(k), now, 0.0, 0, 0, true)];
        k := k + 1;
      }
    }

    /** `get_cookie` */
    method GetCookie(gen: nat -> string, now: real, choice: nat) returns (value: string)
      modifies this
      ensures (cookies, value) == GetCookieSpec(old(cookies), gen, now, choice)
    {
      var cs := cookies;
      var regenerate := Regenerates(cookies);
      Replenish(gen, now);
      var ranked := Ranked(cs, gen, now);
      var i := Chosen(cs, gen, now, choice);
      value := cookies[i].value;
      cookies := cookies[i := cookies[i].(lastUsed := now)];
      if regenerate {
        cookies := Permute(cookies, ranked);
      }
    }

    /** The first step of `get_cookie`: with no valid cookie left, the pool is replaced by a
        freshly generated one. */
    method Replenish(gen: nat -> string, now: real)
      modifies this
      ensures cookies == Working(old(cookies), gen, now)
    {
      if Regenerates(cookies) {
        cookies := [];
        GenerateInitialCookies(gen, now);
        assert cookies == [] + Generated(gen, now);
      }
    }

    /** `report_success` */
    method ReportSuccess(value: string)
      modifies this
      ensures cookies == ReportSuccessSpec(old(cookies), value)
    {
      var i := 0;
      while i < |cookies|
        invariant 0 <= i <= |cookies| && cookies == old(cookies)
        invariant forall j :: 0 <= j < i ==> cookies[j].value != value
      {
        if cookies[i].value == value {
          cookies := cookies[i := cookies[i].(successCount := cookies[i].successCount + 1)];
          return;
        }
        i := i + 1;
      }
    }

    /** `report_failure` */
    method ReportFailure(value: string)
      modifies this
      ensures cookies == ReportFailureSpec(old(cookies), value)
    {
      var i := 0;
      while i < |cookies|
        invariant 0 <= i <= |cookies| && cookies == old(cookies)
        invariant forall j :: 0 <= j < i ==> cookies[j].value != value
      {
        if cookies[i].value == value {
          cookies := cookies[i := FailedCookie(cookies[i])];
          return;
        }
        i := i + 1;
      }
    }

    /** `get_cookie_dict`: takes a cookie as `get_cookie` does and parses it. */
    method GetCookieDict(gen: nat -> string, now: real, choice: nat) returns (d: map<string, string>)
      modifies this
      ensures cookies == GetCookieSpec(old(cookies), gen, now, choice).0
      ensures d == ParseCookieDict(GetCookieSpec(old(cookies), gen, now, choice).1)
    {
      var s := GetCookie(gen, now, choice);
      var parts := SplitSep(s);
      d := map[];
      var k := 0;
      while k < |parts|
        invariant 0 <= k <= |parts|
        invariant AddParts(d, parts[k..]) == ParseCookieDict(s)
      {
        assert parts[k..][1..] == parts[k + 1..];
        match FirstEq(parts[k]) {
          case Some(e) => d := d[parts[k][..e] := parts[k][e + 1..]];
          case None =>
        }
        k := k + 1;
      }
    }
  }
}
