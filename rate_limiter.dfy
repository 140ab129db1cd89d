/** The token-bucket rate limiter of `utils/rate_limiter.py`: one global bucket and one
    bucket per caller, both refilled lazily from the `now` of each call. */
module RateLimit {

  import opened Wrappers
  import Config

  /** The fields of a RateLimitBucket. */
  datatype BucketState = BucketState(tokens: real, lastUpdate: real, maxTokens: int, refillRate: real)

  /** The bucket invariant: the token count lies in [0, max_tokens] and the refill rate is positive. */
  predicate InBounds(b: BucketState) {
    0.0 <= b.tokens <= b.maxTokens as real && b.refillRate > 0.0
  }

  function Min(x: real, y: real): real {
    if x <= y then x else y
  }

  /** `min(max_tokens, tokens + elapsed * refill_rate)` */
  function Refilled(b: BucketState, now: real): real {
    Min(b.maxTokens as real, b.tokens + (now - b.lastUpdate) * b.refillRate)
  }

  /** `RateLimitBucket.consume`: refill to `now`, then take `n` tokens if there are that many. */
  function ConsumeSpec(b: BucketState, now: real, n: int): (BucketState, bool) {
    var t := Refilled(b, now);
    if t >= n as real then (b.(tokens := t - n as real, lastUpdate := now), true)
    else (b.(tokens := t, lastUpdate := now), false)
  }

  /** `RateLimitBucket.time_until_available`: nothing is refilled and nothing changes. */
  function TimeUntilAvailable(b: BucketState, n: int): (r: real)
    requires b.refillRate > 0.0
    ensures r >= 0.0
    ensures r == 0.0 <==> b.tokens >= n as real
    ensures b.tokens < n as real ==> b.tokens + r * b.refillRate == n as real
  {
    if b.tokens >= n as real then 0.0 else (n as real - b.tokens) / b.refillRate
  }

  /** A new bucket: full, with the given capacity and refill rate. */
  function FullBucket(capacity: nat, rate: real, now: real): BucketState {
    BucketState(capacity as real, now, capacity, rate)
  }

  /** The global bucket: RATE_LIMIT_REQUESTS tokens refilled over RATE_LIMIT_PERIOD seconds. */
  function GlobalBucket(now: real): BucketState {
    FullBucket(Config.RateLimitRequests, Config.RateLimitRequests as real / Config.RateLimitPeriod as real, now)
  }

  /** A caller's bucket: USER_RATE_LIMIT tokens refilled over sixty seconds. */
  function UserBucket(now: real): BucketState {
    FullBucket(Config.UserRateLimit, Config.UserRateLimit as real / 60.0, now)
  }

  /** `if user_id:` — a missing caller and caller 0 are both falsy. */
  predicate Truthy(user: Option<int>) {
    user.Some? && user.value != 0
  }

  /** `RateLimiter.acquire`: the new global bucket, the new caller buckets and the answer. */
  function AcquireSpec(g: BucketState, users: map<int, BucketState>, user: Option<int>, now: real)
    : (BucketState, map<int, BucketState>, bool)
  {
    var (g1, okGlobal) := ConsumeSpec(g, now, 1);
    if !okGlobal then (g1, users, false)
    else if !Truthy(user) then (g1, users, true)
    else
      var ub := if user.value in users then users[user.value] else UserBucket(now);
      var (u1, okUser) := ConsumeSpec(ub, now, 1);
      if okUser then (g1, users[user.value := u1], true)
      else (g1.(tokens := g1.tokens + 1.0), users[user.value := u1], false)
  }

  // ----- Properties -----

  /** Consuming keeps the token count in [0, max_tokens] when the clock has not gone back. */
  lemma ConsumeInBounds(b: BucketState, now: real, n: nat)
    requires InBounds(b) && now >= b.lastUpdate
    ensures InBounds(ConsumeSpec(b, now, n).0)
    ensures ConsumeSpec(b, now, n).0.lastUpdate == now
  {
    assert (now - b.lastUpdate) * b.refillRate >= 0.0;
  }

  /** A refused consume deducts nothing: the count is the refilled value. A granted one deducts exactly n. */
  lemma ConsumeOutcome(b: BucketState, now: real, n: int)
    ensures var (b1, ok) := ConsumeSpec(b, now, n);
      && ok == (Refilled(b, now) >= n as real)
      && (ok ==> b1.tokens == Refilled(b, now) - n as real)
      && (!ok ==> b1.tokens == Refilled(b, now))
      && b1.maxTokens == b.maxTokens && b1.refillRate == b.refillRate
  {
  }

  /** A global refusal answers false before the caller bucket is consulted or created. */
  lemma GlobalRefusal(g: BucketState, users: map<int, BucketState>, user: Option<int>, now: real)
    requires !ConsumeSpec(g, now, 1).1
    ensures AcquireSpec(g, users, user, now) == (ConsumeSpec(g, now, 1).0, users, false)
  {
  }

  /** A falsy caller is admitted by the global bucket alone. */
  lemma FalsyCaller(g: BucketState, users: map<int, BucketState>, user: Option<int>, now: real)
    requires !Truthy(user)
    ensures var (g1, okGlobal) := ConsumeSpec(g, now, 1);
      AcquireSpec(g, users, user, now) == (g1, users, okGlobal)
  {
  }

  /** When the caller's bucket refuses, the global token is refunded: the global count is its
      refilled value again, which is still at most max_tokens. */
  lemma UserRefusalRefunds(g: BucketState, users: map<int, BucketState>, user: Option<int>, now: real)
    requires InBounds(g) && now >= g.lastUpdate
    requires Truthy(user) && ConsumeSpec(g, now, 1).1
    requires !AcquireSpec(g, users, user, now).2
    ensures var g2 := AcquireSpec(g, users, user, now).0;
      g2.tokens == Refilled(g, now) && InBounds(g2) && g2.lastUpdate == now
  {
    ConsumeInBounds(g, now, 1);
  }

  /** Acquire keeps every bucket in bounds, and changes at most the caller's bucket. */
  lemma {:induction false} AcquireKeepsBounds(g: BucketState, users: map<int, BucketState>, user: Option<int>, now: real)
    requires InBounds(g) && now >= g.lastUpdate
    requires forall u :: u in users ==> InBounds(users[u]) && now >= users[u].lastUpdate
    ensures var (g2, users2, _) := AcquireSpec(g, users, user, now);
      && InBounds(g2)
      && (forall u :: u in users2 ==> InBounds(users2[u]))
      && (forall u :: u in users && (!Truthy(user) || u != user.value) ==> u in users2 && users2[u] == users[u])
      && users2.Keys == if Truthy(user) && ConsumeSpec(g, now, 1).1 then users.Keys + {user.value} else users.Keys
  {
    ConsumeInBounds(g, now, 1);
    if Truthy(user) && ConsumeSpec(g, now, 1).1 {
      var ub := if user.value in users then users[user.value] else UserBucket(now);
      ConsumeInBounds(ub, now, 1);
      if !ConsumeSpec(ub, now, 1).1 {
        UserRefusalRefunds(g, users, user, now);
      }
    }
  }

  class Bucket {
    var tokens: real
    var lastUpdate: real
    const maxTokens: int
    const refillRate: real

    function State(): BucketState
      reads this
    {
      BucketState(tokens, lastUpdate, maxTokens, refillRate)
    }

    constructor (init: BucketState)
      ensures State() == init
    {
      tokens, lastUpdate := init.tokens, init.lastUpdate;
      maxTokens, refillRate := init.maxTokens, init.refillRate;
    }

    method Consume(now: real, n: int) returns (ok: bool)
      modifies this
      ensures (State(), ok) == ConsumeSpec(old(State()), now, n)
    {
      var elapsed := now - lastUpdate;
      tokens := Min(maxTokens as real, tokens + elapsed * refillRate);
      lastUpdate := now;
      if tokens >= n as real {
        tokens := tokens - n as real;
        return true;
      }
      return false;
    }
  }

  class RateLimiter {
    const global: Bucket
    var users: map<int, Bucket>
    ghost var Repr: set<object>

    /** The global bucket and the caller buckets are distinct objects, each keeping its invariant. */
    ghost predicate Valid()
      reads this, Repr
    {
      && this in Repr && global in Repr
      && (forall u :: u in users ==> users[u] in Repr && users[u] != global)
      && (forall u, v :: u in users && v in users && u != v ==> users[u] != users[v])
      && InBounds(global.State())
      && (forall u :: u in users ==> InBounds(users[u].State()))
    }

    function UserStates(): map<int, BucketState>
      reads this, users.Values
    {
      map u | u in users :: users[u].State()
    }

    /** Every bucket was last refilled no later than `now`. */
    ghost predicate ClockAfter(now: real)
      reads this, Repr
      requires Valid()
    {
      now >= global.lastUpdate && forall u :: u in users ==> now >= users[u].lastUpdate
    }

    constructor (now: real)
      ensures Valid() && fresh(Repr)
      ensures global.State() == GlobalBucket(now) && users == map[]
    {
      global := new Bucket(GlobalBucket(now));
      users := map[];
      new;
      Repr := {this, global};
    }

    /** `_get_user_bucket`: the caller's bucket, created full on first use; buckets are never removed. */
    method GetUserBucket(user: int, now: real) returns (b: Bucket)
      requires Valid()
      modifies this
      ensures Valid() && fresh(Repr - old(Repr))
      ensures user in users && b == users[user] && b != global
      ensures user in old(users) ==> users == old(users)
      ensures user !in old(users) ==> fresh(b) && b.State() == UserBucket(now) && users == old(users)[user := b]
      ensures UserStates() == old(UserStates())[user := b.State()]
      ensures unchanged(old(Repr) - {this})
    {
      if user !in users {
        b := new Bucket(UserBucket(now));
        users := users[user := b];
        Repr := Repr + {b};
      }
      b := users[user];
    }

    /** The caller half of `acquire`: fetch or create the caller's bucket and consume one token. */
    method ConsumeUser(user: int, now: real) returns (ok: bool)
      requires Valid() && ClockAfter(now)
      modifies Repr
      ensures Valid() && fresh(Repr - old(Repr)) && ClockAfter(now)
      ensures global.State() == old(global.State())
      ensures var ub := if user in old(UserStates()) then old(UserStates())[user] else UserBucket(now);
        (UserStates(), ok) == (old(UserStates())[user := ConsumeSpec(ub, now, 1).0], ConsumeSpec(ub, now, 1).1)
    {
      ghost var us0 := UserStates();
      var b := GetUserBucket(user, now);
      ghost var us1 := UserStates();
      ghost var pre := b.State();
      assert pre == if user in us0 then us0[user] else UserBucket(now);
      assert us1 == us0[user := pre];
      assert ClockAfter(now);
      ConsumeInBounds(pre, now, 1);
      ok := b.Consume(now, 1);
      forall u | u in users && u != user
        ensures users[u] != b && users[u].State() == us1[u]
        ensures InBounds(users[u].State()) && now >= users[u].lastUpdate
      {
      }
      assert Valid();
      assert UserStates() == us1[user := b.State()];
      assert UserStates() == us0[user := b.State()];
    }

    /** `acquire`: global bucket first, then the caller's; a caller refusal refunds the global token. */
    method Acquire(user: Option<int>, now: real) returns (ok: bool)
      requires Valid() && ClockAfter(now)
      modifies Repr
      ensures Valid() && fresh(Repr - old(Repr)) && ClockAfter(now)
      ensures (global.State(), UserStates(), ok) == AcquireSpec(old(global.State()), old(UserStates()), user, now)
    {
      ghost var g0, us0 := global.State(), UserStates();
      AcquireKeepsBounds(g0, us0, user, now);
      ok := ConsumeGlobal(now);
      if !ok {
        return;
      }
      if Truthy(user) {
        var okUser := ConsumeUser(user.value, now);
        if !okUser {
          Refund(now);
          return false;
        }
      }
      return true;
    }

    /** Takes one token from the global bucket; the users' buckets are left alone. */
    method ConsumeGlobal(now: real) returns (ok: bool)
      requires Valid() && ClockAfter(now)
      modifies global
      ensures Valid() && ClockAfter(now)
      ensures (global.State(), ok) == ConsumeSpec(old(global.State()), now, 1)
      ensures UserStates() == old(UserStates())
    {
      ghost var us := UserStates();
      ConsumeInBounds(global.State(), now, 1);
      ok := global.Consume(now, 1);
      assert forall u :: u in users ==> users[u].State() == us[u];
      assert UserStates() == us;
    }

    /** Gives back the global token taken for a request that the user's bucket then refused. */
    method Refund(now: real)
      requires Valid() && ClockAfter(now) && InBounds(global.State().(tokens := global.tokens + 1.0))
      modifies global
      ensures Valid() && ClockAfter(now)
      ensures global.State() == old(global.State()).(tokens := old(global.tokens) + 1.0)
      ensures UserStates() == old(UserStates())
    {
      ghost var us := UserStates();
      global.tokens := global.tokens + 1.0;
      assert forall u :: u in users ==> users[u].State() == us[u];
      assert UserStates() == us;
    }

    /** `wait_and_acquire`: poll every half second from `start` until acquire succeeds or
        `timeout` seconds have passed. `attempts` counts the acquire calls made. */
    method WaitAndAcquire(user: Option<int>, start: real, timeout: real) returns (ok: bool, ghost attempts: nat)
      requires Valid() && ClockAfter(start)
      modifies Repr
      ensures Valid() && fresh(Repr - old(Repr))
      ensures ok ==> attempts >= 1 && ((attempts - 1) as real) * PollInterval < timeout
      ensures !ok ==> (attempts as real) * PollInterval >= timeout
    {
      var k: nat := 0;
      while (k as real) * PollInterval < timeout
        invariant Valid() && fresh(Repr - old(Repr)) && ClockAfter(start + (k as real) * PollInterval)
        invariant k == 0 || ((k - 1) as real) * PollInterval < timeout
        decreases (2.0 * timeout).Floor + 1 - k
      {
        var now := start + (k as real) * PollInterval;
        var got := Acquire(user, now);
        if got {
          return true, k + 1;
        }
        k := k + 1;
        assert now <= start + (k as real) * PollInterval;
      }
      return false, k;
    }

    /** `get_user_remaining`: the whole tokens of the caller's bucket, without refilling it. */
    method GetUserRemaining(user: int, now: real) returns (r: int)
      requires Valid()
      modifies this
      ensures Valid() && fresh(Repr - old(Repr))
      ensures user in users && r == users[user].tokens.Floor
      ensures user in old(users) ==> users == old(users) && r == old(users[user].tokens).Floor
      ensures user !in old(users) ==> r == Config.UserRateLimit
    {
      var b := GetUserBucket(user, now);
      r := b.tokens.Floor;
    }
  }

  /** The `asyncio.sleep(0.5)` between polls. */
  const PollInterval: real := 0.5
}
