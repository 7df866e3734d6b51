/** The rate limiter of link previews: token buckets, one global and one per user, with
    eviction of idle user buckets. Time is in seconds. */
module EmbedRate {
  import opened Sizes

  type UserId = nat

  datatype Bucket = Bucket(tokens: real, max: real, last: real)
  {
    predicate Sound() { 1.0 <= max && 0.0 <= tokens <= max }
  }

  function NewBucket(perMinute: int, now: real): (b: Bucket)
    ensures b.Sound() && b.tokens == b.max
  {
    var rate := if perMinute <= 0 then 1.0 else perMinute as real;
    Bucket(rate, rate, now)
  }

  /** Tokens regained in an interval. */
  function Refill(max: real, elapsed: real): real {
    max * elapsed / 60.0
  }

  function Available(b: Bucket, now: real): real {
    var tokens := b.tokens + Refill(b.max, now - b.last);
    if tokens < b.max then tokens else b.max
  }

  function TakeAt(b: Bucket, now: real): (Bucket, bool) {
    var tokens := Available(b, now);
    if tokens >= 1.0 then (Bucket(tokens - 1.0, b.max, now), true) else (Bucket(tokens, b.max, now), false)
  }

  class TokenBucket {
    var tokens: real
    const max: real
    var last: real

    function Value(): Bucket
      reads this
    {
      Bucket(tokens, max, last)
    }

    constructor (perMinute: int, now: real)
      ensures Value() == NewBucket(perMinute, now)
      ensures tokens == max == (if perMinute >= 1 then perMinute as real else 1.0) && last == now
    {
      var rate := perMinute;
      if rate <= 0 {
        rate := 1;
      }
      tokens, max, last := rate as real, rate as real, now;
    }

    method Take(now: real) returns (ok: bool)
      modifies this
      ensures (Value(), ok) == TakeAt(old(Value()), now)
      ensures var refilled := old(tokens) + max * (now - old(last)) / 60.0;
              var full := if refilled < max then refilled else max;
              ok == (full >= 1.0) && tokens == (if ok then full - 1.0 else full) && last == now
    {
      var refilled := tokens + max * (now - last) / 60.0;
      assert refilled == old(tokens) + Refill(max, now - old(last));
      hide Refill;
      tokens := if refilled < max then refilled else max;
      last := now;
      if tokens >= 1.0 {
        tokens := tokens - 1.0;
        return true;
      }
      return false;
    }

    predicate Stale(now: real, ttl: real)
      reads this
    {
      now - last > ttl
    }
  }

  // ------------------------------------------------------------- one bucket

  predicate Ordered(start: real, times: seq<real>) {
    && (forall i :: 0 <= i < |times| ==> start <= times[i])
    && forall i, j :: 0 <= i < j < |times| ==> times[i] <= times[j]
  }

  function After(b: Bucket, times: seq<real>): Bucket {
    if times == [] then b else TakeAt(After(b, times[..|times| - 1]), times[|times| - 1]).0
  }

  predicate Granted(b: Bucket, times: seq<real>, k: nat)
    requires k < |times|
  {
    TakeAt(After(b, times[..k]), times[k]).1
  }

  /** Successful takes from instant s to instant e, both included. */
  function Grants(b: Bucket, times: seq<real>, s: real, e: real): nat {
    if times == [] then 0
    else
      var n := |times| - 1;
      Grants(b, times[..n], s, e) + if s <= times[n] <= e && Granted(b, times, n) then 1 else 0
  }

  /** The most a bucket may grant in a window of the given length. */
  function Allowance(max: real, window: real): real {
    max + Refill(max, window)
  }

  lemma RefillAdds(max: real, a: real, b: real)
    ensures Refill(max, a + b) == Refill(max, a) + Refill(max, b)
    ensures Refill(max, 0.0) == 0.0
  {
  }

  lemma RefillGrows(max: real, a: real)
    requires max >= 1.0 && a >= 0.0
    ensures Refill(max, a) >= 0.0
    ensures a >= 60.0 ==> Refill(max, a) >= max
    ensures a > 0.0 ==> Refill(max, a) > 0.0
  {
    if a >= 60.0 {
      assert max * (a - 60.0) >= 0.0;
    }
  }

  lemma TakeKeeps(b: Bucket, now: real)
    requires b.Sound() && b.last <= now
    ensures var b' := TakeAt(b, now).0; b'.Sound() && b'.max == b.max && b'.last == now
  {
    RefillGrows(b.max, now - b.last);
  }

  /** What is left in the bucket plus what was granted since s never exceeds the
      allowance of the window that began at s. */
  lemma {:induction false} Credit(b: Bucket, times: seq<real>, s: real, e: real)
    requires b.Sound() && Ordered(b.last, times)
    requires forall i :: 0 <= i < |times| ==> times[i] <= e
    ensures var a := After(b, times);
            && a.Sound() && a.max == b.max
            && a.last == (if times == [] then b.last else times[|times| - 1])
            && (s <= a.last ==> Grants(b, times, s, e) as real + a.tokens <= Allowance(b.max, a.last - s))
            && (a.last < s ==> Grants(b, times, s, e) == 0)
  {
    hide Refill;
    RefillAdds(b.max, 0.0, 0.0);
    if times == [] {
      if s <= b.last {
        RefillGrows(b.max, b.last - s);
      }
    } else {
      var n := |times| - 1;
      var before, now := times[..n], times[n];
      Credit(b, before, s, e);
      var a := After(b, before);
      TakeKeeps(a, now);
      RefillAdds(b.max, a.last - s, now - a.last);
      assert a.last - s + (now - a.last) == now - s;
      if s <= now {
        RefillGrows(b.max, now - s);
      }
    }
  }

  /** No window sees more grants than its allowance. */
  lemma {:induction false} WindowBound(b: Bucket, times: seq<real>, s: real, e: real)
    requires b.Sound() && Ordered(b.last, times) && s <= e
    ensures Grants(b, times, s, e) as real <= Allowance(b.max, e - s)
  {
    hide Refill, TakeAt;
    if times != [] && times[|times| - 1] > e {
      WindowBound(b, times[..|times| - 1], s, e);
    } else {
      Credit(b, times, s, e);
      var a := After(b, times);
      RefillGrows(b.max, e - s);
      if s <= a.last && times != [] {
        RefillAdds(b.max, a.last - s, e - a.last);
        assert a.last - s + (e - a.last) == e - s;
        RefillGrows(b.max, e - a.last);
      } else if times == [] {
        assert Grants(b, times, s, e) == 0;
      }
    }
  }

  /** Since some instant, the bucket holds exactly its allowance less its grants: the last
      instant at which it was full. */
  lemma {:induction false} FullSince(b: Bucket, times: seq<real>, e: real) returns (s: real)
    requires b.Sound() && b.tokens == b.max && Ordered(b.last, times)
    requires forall i :: 0 <= i < |times| ==> times[i] <= e
    ensures b.last <= s <= After(b, times).last
    ensures After(b, times).tokens == Allowance(b.max, After(b, times).last - s) - Grants(b, times, s, e) as real
  {
    hide Refill;
    RefillAdds(b.max, 0.0, 0.0);
    if times == [] {
      s := b.last;
    } else {
      var n := |times| - 1;
      var before, now := times[..n], times[n];
      s := FullSince(b, before, e);
      Credit(b, before, now, e);
      var a := After(b, before);
      RefillAdds(b.max, a.last - s, now - a.last);
      assert a.last - s + (now - a.last) == now - s;
      if a.last < now && Available(a, now) == b.max {
        s := now;
      } else {
        RefillGrows(b.max, now - a.last);
      }
    }
  }

  /** One more grant now would keep every window that ends now within its allowance. */
  ghost predicate Fits(b: Bucket, times: seq<real>, now: real) {
    forall s :: s <= now ==> Grants(b, times, s, now) as real + 1.0 <= Allowance(b.max, now - s)
  }

  lemma GrantedFits(b: Bucket, times: seq<real>, now: real, s: real)
    requires b.Sound() && Ordered(b.last, times + [now]) && s <= now
    requires TakeAt(After(b, times), now).1
    ensures Grants(b, times, s, now) as real + 1.0 <= Allowance(b.max, now - s)
  {
    hide TakeAt, Allowance, Ordered;
    var all := times + [now];
    assert all[..|times|] == times && all[|times|] == now;
    WindowBound(b, all, s, now);
    assert Granted(b, all, |times|);
  }

  lemma RefusedMisses(b: Bucket, times: seq<real>, now: real) returns (s: real)
    requires b.Sound() && b.tokens == b.max && Ordered(b.last, times + [now])
    requires !TakeAt(After(b, times), now).1
    ensures s <= now && Grants(b, times, s, now) as real + 1.0 > Allowance(b.max, now - s)
  {
    hide Refill, Grants, After;
    var all := times + [now];
    assert forall i :: 0 <= i < |times| ==> times[i] == all[i];
    assert all[|times|] == now;
    Credit(b, times, now, now);
    var a := After(b, times);
    s := FullSince(b, times, now);
    RefillAdds(b.max, a.last - s, now - a.last);
    assert a.last - s + (now - a.last) == now - s;
  }

  /** A bucket that starts full grants a call exactly when every window that ends with it
      stays within its allowance: it never refuses a call that the rate permits. */
  lemma GrantsExactlyWhatFits(b: Bucket, times: seq<real>, now: real)
    requires b.Sound() && b.tokens == b.max && Ordered(b.last, times + [now])
    ensures TakeAt(After(b, times), now).1 <==> Fits(b, times, now)
  {
    hide TakeAt, After, Grants, Allowance, Ordered;
    if TakeAt(After(b, times), now).1 {
      forall s | s <= now ensures Grants(b, times, s, now) as real + 1.0 <= Allowance(b.max, now - s) {
        GrantedFits(b, times, now, s);
      }
    } else {
      var s := RefusedMisses(b, times, now);
    }
  }

  // ------------------------------------------------------------ the limiter

  datatype Limiter = Limiter(global: Bucket, users: map<UserId, Bucket>, userRate: int)

  function UserBucket(l: Limiter, user: UserId, now: real): Bucket {
    if user in l.users then l.users[user] else NewBucket(l.userRate, now)
  }

  /** A denial by the user's bucket still costs a global token. */
  function AllowAt(l: Limiter, user: UserId, now: real): (Limiter, bool) {
    var (global, ok) := TakeAt(l.global, now);
    if !ok then (l.(global := global), false)
    else
      var (bucket, granted) := TakeAt(UserBucket(l, user, now), now);
      (l.(global := global, users := l.users[user := bucket]), granted)
  }

  function EvictAt(l: Limiter, now: real, ttl: real): Limiter {
    l.(users := map u | u in l.users && !(now - l.users[u].last > ttl) :: l.users[u])
  }

  /** One hour. */
  const EMBED_RATE_USER_TTL: real := 3600.0

  class EmbedRateLimiter {
    const global: TokenBucket
    var users: map<UserId, TokenBucket>
    const userRate: int

    ghost predicate Valid()
      reads this
    {
      && (forall u :: u in users ==> users[u] != global)
      && forall u, v :: u in users && v in users && u != v ==> users[u] != users[v]
    }

    ghost function Buckets(): set<object>
      reads this
    {
      {global as object} + set u | u in users :: users[u] as object
    }

    ghost function State(): Limiter
      reads this, Buckets()
    {
      Limiter(global.Value(), map u | u in users :: users[u].Value(), userRate)
    }

    constructor (globalRate: int, userRate: int, now: real)
      ensures Valid() && fresh(Buckets())
      ensures State() == Limiter(NewBucket(globalRate, now), map[], userRate)
    {
      global := new TokenBucket(globalRate, now);
      users := map[];
      this.userRate := userRate;
    }

    method EmbedRateAllow(user: UserId, now: real) returns (allowed: bool)
      requires Valid()
      modifies this, Buckets()
      ensures Valid() && fresh(Buckets() - old(Buckets()))
      ensures (State(), allowed) == AllowAt(old(State()), user, now)
    {
      var ok := global.Take(now);
      if !ok {
        assert State().users == old(State().users);
        return false;
      }
      if user !in users {
        var bucket := new TokenBucket(userRate, now);
        users := users[user := bucket];
      }
      ghost var bucket := users[user].Value();
      allowed := users[user].Take(now);
      assert bucket == UserBucket(old(State()), user, now);
      assert State().users == old(State().users)[user := TakeAt(bucket, now).0];
    }

    /** The sweep of the maintenance routine. */
    method CleanupStale(now: real) returns (removed: nat)
      requires Valid()
      modifies this`users
      ensures Valid() && users.Keys <= old(users.Keys)
      ensures State() == EvictAt(old(State()), now, EMBED_RATE_USER_TTL)
      ensures removed == |old(users)| - |users|
      // A bucket stays, as it is, exactly when it was used in the last hour.
      ensures forall u :: u in users <==> u in old(users) && now - old(users)[u].last <= 3600.0
      ensures forall u :: u in users ==> users[u] == old(users)[u]
    {
      ghost var recent := set u | u in users && !users[u].Stale(now, EMBED_RATE_USER_TTL);
      removed := Sweep(now, recent);
      assert State().users == EvictAt(old(State()), now, EMBED_RATE_USER_TTL).users;
    }

    method Sweep(now: real, ghost recent: set<UserId>) returns (removed: nat)
      requires recent <= users.Keys
      requires forall u :: u in users ==> (u in recent <==> !users[u].Stale(now, EMBED_RATE_USER_TTL))
      modifies this`users
      ensures users.Keys == recent
      ensures forall u :: u in users ==> u in old(users) && users[u] == old(users)[u]
      ensures removed == |old(users)| - |users|
    {
      removed := 0;
      var keys := users.Keys;
      var all := users;
      while keys != {}
        invariant users.Keys == keys + recent && users.Keys <= all.Keys
        invariant forall u :: u in users ==> users[u] == all[u]
        invariant removed == |all| - |users|
        decreases keys
      {
        var key :| key in keys;
        keys := keys - {key};
        if all[key].Stale(now, EMBED_RATE_USER_TTL) {
          DropOne(users, key);
          users := users - {key};
          removed := removed + 1;
        }
      }
    }
  }

  // ------------------------------------------------- runs, with and without sweeps

  datatype Event = Call(now: real, user: UserId) | Sweep(now: real)

  /** How long an unused bucket is kept. */
  datatype Policy = Keep | Expire(ttl: real)

  function Handle(l: Limiter, e: Event, policy: Policy): (Limiter, bool) {
    match e
    case Call(now, user) => AllowAt(l, user, now)
    case Sweep(now) => (if policy.Keep? then l else EvictAt(l, now, policy.ttl), false)
  }

  function Run(l: Limiter, events: seq<Event>, policy: Policy): Limiter {
    if events == [] then l
    else Handle(Run(l, events[..|events| - 1], policy), events[|events| - 1], policy).0
  }

  predicate Answer(l: Limiter, events: seq<Event>, k: nat, policy: Policy)
    requires k < |events|
  {
    Handle(Run(l, events[..k], policy), events[k], policy).1
  }

  predicate Timely(start: real, events: seq<Event>) {
    && (forall i :: 0 <= i < |events| ==> start <= events[i].now)
    && forall i, j :: 0 <= i < j < |events| ==> events[i].now <= events[j].now
  }

  predicate SoundLimiter(l: Limiter, now: real) {
    && l.global.Sound() && l.global.last <= now
    && forall u :: u in l.users ==>
         l.users[u].Sound() && l.users[u].last <= now && l.users[u].max == NewBucket(l.userRate, now).max
  }

  /** The same limiter, except that user buckets idle for a minute may be missing. */
  predicate Similar(l: Limiter, kept: Limiter, now: real) {
    && l.global == kept.global && l.userRate == kept.userRate
    && (forall u :: u in l.users ==> u in kept.users && l.users[u] == kept.users[u])
    && forall u :: u in kept.users && u !in l.users ==> now - kept.users[u].last >= 60.0
  }

  lemma HandleKeepsSound(l: Limiter, e: Event, policy: Policy, start: real)
    requires SoundLimiter(l, start) && start <= e.now
    ensures SoundLimiter(Handle(l, e, policy).0, e.now)
  {
    hide TakeAt;
    TakeKeeps(l.global, e.now);
    if e.Call? {
      TakeKeeps(UserBucket(l, e.user, e.now), e.now);
    }
  }

  /** A bucket idle for a minute answers like a new one, and ends in the same state. */
  lemma IdleIsFull(b: Bucket, now: real)
    requires b.Sound() && now - b.last >= 60.0
    ensures TakeAt(b, now) == TakeAt(Bucket(b.max, b.max, now), now)
  {
    RefillGrows(b.max, now - b.last);
    RefillAdds(b.max, 0.0, 0.0);
  }

  lemma HandleKeepsSimilar(l: Limiter, kept: Limiter, e: Event, policy: Policy, start: real)
    requires SoundLimiter(kept, start) && start <= e.now && Similar(l, kept, start)
    requires policy.Keep? || policy.ttl >= 60.0
    ensures Handle(l, e, policy).1 == Handle(kept, e, Keep).1
    ensures Similar(Handle(l, e, policy).0, Handle(kept, e, Keep).0, e.now)
  {
    hide TakeAt;
    if e.Call? && e.user in kept.users && e.user !in l.users {
      IdleIsFull(kept.users[e.user], e.now);
    }
  }

  lemma {:induction false} RunsAreSimilar(l: Limiter, events: seq<Event>, policy: Policy, start: real, now: real)
    requires SoundLimiter(l, start) && Timely(start, events)
    requires policy.Keep? || policy.ttl >= 60.0
    requires now == if events == [] then start else events[|events| - 1].now
    ensures SoundLimiter(Run(l, events, Keep), now)
    ensures Similar(Run(l, events, policy), Run(l, events, Keep), now)
  {
    hide Handle, SoundLimiter, Similar;
    if events == [] {
      assert Similar(l, l, start) by { SimilarToItself(l, start); }
    } else {
      var n := |events| - 1;
      var before := events[..n];
      var earlier := if before == [] then start else before[n - 1].now;
      RunsAreSimilar(l, before, policy, start, earlier);
      HandleKeepsSound(Run(l, before, Keep), events[n], Keep, earlier);
      HandleKeepsSimilar(Run(l, before, policy), Run(l, before, Keep), events[n], policy, earlier);
    }
  }

  lemma SimilarToItself(l: Limiter, now: real)
    ensures Similar(l, l, now)
  {
  }

  /** Sweeping buckets idle for a minute or more changes no answer. */
  lemma EvictionIsInvisible(l: Limiter, events: seq<Event>, ttl: real, start: real, k: nat)
    requires SoundLimiter(l, start) && Timely(start, events) && ttl >= 60.0 && k < |events|
    ensures Answer(l, events, k, Expire(ttl)) <==> Answer(l, events, k, Keep)
  {
    hide Handle, SoundLimiter, Similar;
    var now := if k == 0 then start else events[k - 1].now;
    RunsAreSimilar(l, events[..k], Expire(ttl), start, now);
    HandleKeepsSimilar(Run(l, events[..k], Expire(ttl)), Run(l, events[..k], Keep), events[k], Expire(ttl), now);
  }

  // ------------------------------------------------------- what a run lets through

  /** Calls let through from instant s to instant e; all users' when `who` is empty. */
  function Passed(l: Limiter, events: seq<Event>, policy: Policy, who: set<UserId>, s: real, e: real): nat {
    if events == [] then 0
    else
      var n := |events| - 1;
      Passed(l, events[..n], policy, who, s, e)
      + if && events[n].Call? && (who == {} || events[n].user in who)
           && s <= events[n].now <= e && Answer(l, events, n, policy)
        then 1 else 0
  }

  /** The instants at which the global bucket is asked. */
  function Calls(events: seq<Event>): seq<real> {
    if events == [] then []
    else
      var rest, e := Calls(events[..|events| - 1]), events[|events| - 1];
      if e.Call? then rest + [e.now] else rest
  }

  /** The instants at which a user's bucket is asked: the global one gave a token. */
  function Tries(l: Limiter, events: seq<Event>, user: UserId): seq<real> {
    if events == [] then []
    else
      var n := |events| - 1;
      var rest, e := Tries(l, events[..n], user), events[n];
      if e.Call? && e.user == user && TakeAt(Run(l, events[..n], Keep).global, e.now).1 then rest + [e.now] else rest
  }

  /** The bucket a user's first try creates. */
  function FirstBucket(l: Limiter, times: seq<real>): Bucket {
    NewBucket(l.userRate, if times == [] then 0.0 else times[0])
  }

  lemma TakeMore(b: Bucket, times: seq<real>, t: real, s: real, e: real)
    ensures After(b, times + [t]) == TakeAt(After(b, times), t).0
    ensures Grants(b, times + [t], s, e) ==
            Grants(b, times, s, e) + if s <= t <= e && TakeAt(After(b, times), t).1 then 1 else 0
  {
    hide TakeAt;
    assert (times + [t])[..|times|] == times;
  }

  lemma {:induction false} GlobalFollows(l: Limiter, events: seq<Event>, policy: Policy, start: real, s: real, e: real)
    requires Timely(start, events) && l.global.last <= start
    ensures Run(l, events, policy).global == After(l.global, Calls(events))
    ensures Passed(l, events, policy, {}, s, e) <= Grants(l.global, Calls(events), s, e)
    ensures Ordered(l.global.last, Calls(events))
    ensures forall i :: 0 <= i < |Calls(events)| ==> events != [] && Calls(events)[i] <= events[|events| - 1].now
  {
    hide TakeAt, After, Grants;
    if events == [] {
      assert After(l.global, []) == l.global && Grants(l.global, [], s, e) == 0 by { NoTakes(l.global, s, e); }
    } else {
      var n := |events| - 1;
      GlobalFollows(l, events[..n], policy, start, s, e);
      TakeMore(l.global, Calls(events[..n]), events[n].now, s, e);
    }
  }

  lemma NoTakes(b: Bucket, s: real, e: real)
    ensures After(b, []) == b && Grants(b, [], s, e) == 0
  {
  }

  /** All users together stay within the global allowance. */
  lemma TotalBound(l: Limiter, events: seq<Event>, policy: Policy, start: real, s: real, e: real)
    requires SoundLimiter(l, start) && Timely(start, events) && s <= e
    ensures Passed(l, events, policy, {}, s, e) as real <= Allowance(l.global.max, e - s)
  {
    GlobalFollows(l, events, policy, start, s, e);
    WindowBound(l.global, Calls(events), s, e);
  }

  lemma {:induction false} UserFollows(l: Limiter, events: seq<Event>, user: UserId, start: real, s: real, e: real)
    requires Timely(start, events) && l.users == map[]
    ensures var r, times := Run(l, events, Keep), Tries(l, events, user);
            && r.userRate == l.userRate
            && (user in r.users <==> times != [])
            && (times != [] ==> r.users[user] == After(FirstBucket(l, times), times) && Ordered(times[0], times))
            && Passed(l, events, Keep, {user}, s, e) == Grants(FirstBucket(l, times), times, s, e)
            && forall i :: 0 <= i < |times| ==> events != [] && times[i] <= events[|events| - 1].now
  {
    hide TakeAt, After, Grants, NewBucket;
    if events == [] {
      NoTakes(FirstBucket(l, []), s, e);
    } else {
      var n := |events| - 1;
      var times := Tries(l, events[..n], user);
      UserFollows(l, events[..n], user, start, s, e);
      NoTakes(FirstBucket(l, []), s, e);
      NoTakes(NewBucket(l.userRate, events[n].now), s, e);
      TakeMore(FirstBucket(l, times + [events[n].now]), times, events[n].now, s, e);
    }
  }

  lemma {:induction false} SameAnswers(
    l: Limiter, events: seq<Event>, ttl: real, start: real, who: set<UserId>, s: real, e: real)
    requires SoundLimiter(l, start) && Timely(start, events) && ttl >= 60.0
    ensures Passed(l, events, Expire(ttl), who, s, e) == Passed(l, events, Keep, who, s, e)
  {
    hide Answer;
    if events != [] {
      SameAnswers(l, events[..|events| - 1], ttl, start, who, s, e);
      EvictionIsInvisible(l, events, ttl, start, |events| - 1);
    }
  }

  /** Each user stays within the user allowance, evictions included. */
  lemma UserBound(l: Limiter, events: seq<Event>, ttl: real, user: UserId, start: real, s: real, e: real)
    requires SoundLimiter(l, start) && l.users == map[] && Timely(start, events) && ttl >= 60.0 && s <= e
    ensures Passed(l, events, Expire(ttl), {user}, s, e) as real <= Allowance(NewBucket(l.userRate, start).max, e - s)
  {
    SameAnswers(l, events, ttl, start, {user}, s, e);
    UserFollows(l, events, user, start, s, e);
    var times := Tries(l, events, user);
    if times == [] {
      RefillGrows(NewBucket(l.userRate, start).max, e - s);
      NoTakes(FirstBucket(l, times), s, e);
    } else {
      WindowBound(FirstBucket(l, times), times, s, e);
    }
  }

  // ----------------------------------------------------------- the limiter that runs

  /** The limiter the service starts with. */
  function NewLimiter(globalRate: int, userRate: int, start: real): Limiter {
    Limiter(NewBucket(globalRate, start), map[], userRate)
  }

  /** A rate as configured; less than one a minute counts as one. */
  function PerMinute(rate: int): real {
    if rate >= 1 then rate as real else 1.0
  }

  /** With the limit the sweep uses, every answer is the one given without sweeps. */
  lemma SweepIsInvisible(l: Limiter, events: seq<Event>, start: real, k: nat)
    requires SoundLimiter(l, start) && Timely(start, events) && k < |events|
    ensures Answer(l, events, k, Expire(EMBED_RATE_USER_TTL)) <==> Answer(l, events, k, Keep)
  {
    EvictionIsInvisible(l, events, EMBED_RATE_USER_TTL, start, k);
  }

  /** In numbers: with sweeps or without, in no window do all users together get more than
      the global rate and what it yields in the window's length, nor one user more than that
      of the user rate. */
  lemma RatesHold(globalRate: int, userRate: int, events: seq<Event>, user: UserId, start: real, s: real, e: real)
    requires Timely(start, events) && s <= e
    ensures var l := NewLimiter(globalRate, userRate, start);
            var swept := Expire(EMBED_RATE_USER_TTL);
            && Passed(l, events, swept, {}, s, e) as real <= PerMinute(globalRate) * (1.0 + (e - s) / 60.0)
            && Passed(l, events, swept, {user}, s, e) as real <= PerMinute(userRate) * (1.0 + (e - s) / 60.0)
  {
    hide Passed;
    var l, swept := NewLimiter(globalRate, userRate, start), Expire(EMBED_RATE_USER_TTL);
    TotalBound(l, events, swept, start, s, e);
    UserBound(l, events, EMBED_RATE_USER_TTL, user, start, s, e);
    AllowanceIs(globalRate, start, e - s);
    AllowanceIs(userRate, start, e - s);
  }

  lemma AllowanceIs(rate: int, start: real, window: real)
    ensures Allowance(NewBucket(rate, start).max, window) == PerMinute(rate) * (1.0 + window / 60.0)
  {
    var max := PerMinute(rate);
    assert max * (1.0 + window / 60.0) == max + max * (window / 60.0);
  }

  method ServeOne(limiter: EmbedRateLimiter, e: Event) returns (answer: bool)
    requires limiter.Valid()
    modifies limiter, limiter.Buckets()
    ensures limiter.Valid() && fresh(limiter.Buckets() - old(limiter.Buckets()))
    ensures (limiter.State(), answer) == Handle(old(limiter.State()), e, Expire(EMBED_RATE_USER_TTL))
  {
    hide AllowAt, EvictAt;
    match e
    case Call(now, user) => answer := limiter.EmbedRateAllow(user, now);
    case Sweep(now) =>
      var _ := limiter.CleanupStale(now);
      answer := false;
  }

  /** Calls and sweeps served by the limiter itself: each call gets the answer it would get
      if no bucket were ever removed. */
  method ServeAll(globalRate: int, userRate: int, start: real, events: seq<Event>) returns (answers: seq<bool>)
    requires Timely(start, events)
    ensures |answers| == |events|
    ensures forall k :: 0 <= k < |events| ==>
              answers[k] == Answer(NewLimiter(globalRate, userRate, start), events, k, Keep)
  {
    hide Answer, Handle, Run, SoundLimiter, NewBucket, Timely;
    ghost var l, swept := NewLimiter(globalRate, userRate, start), Expire(EMBED_RATE_USER_TTL);
    NewIsSound(globalRate, userRate, start);
    var limiter := new EmbedRateLimiter(globalRate, userRate, start);
    answers := [];
    assert events[..0] == [] && Run(l, [], swept) == l by { NothingRun(l, swept); }
    for n := 0 to |events|
      invariant limiter.Valid() && fresh(limiter) && fresh(limiter.Buckets())
      invariant limiter.State() == Run(l, events[..n], swept)
      invariant |answers| == n
      invariant forall k :: 0 <= k < n ==> answers[k] == Answer(l, events, k, Keep)
    {
      RunStep(l, events, n, swept);
      SweepIsInvisible(l, events, start, n);
      var answer := ServeOne(limiter, events[n]);
      answers := answers + [answer];
    }
    assert events[..|events|] == events;
  }

  lemma NewIsSound(globalRate: int, userRate: int, start: real)
    ensures SoundLimiter(NewLimiter(globalRate, userRate, start), start)
  {
  }

  lemma NothingRun(l: Limiter, policy: Policy)
    ensures Run(l, [], policy) == l
  {
  }

  lemma RunStep(l: Limiter, events: seq<Event>, n: nat, policy: Policy)
    requires n < |events|
    ensures var before := Run(l, events[..n], policy);
            && Run(l, events[..n + 1], policy) == Handle(before, events[n], policy).0
            && Answer(l, events, n, policy) == Handle(before, events[n], policy).1
  {
    assert events[..n + 1][..n] == events[..n];
  }

  lemma GlobalFits(l: Limiter, events: seq<Event>, start: real, now: real)
    requires SoundLimiter(l, start) && l.global.tokens == l.global.max
    requires Timely(start, events) && start <= now && forall i :: 0 <= i < |events| ==> events[i].now <= now
    ensures TakeAt(Run(l, events, Keep).global, now).1 <==> Fits(l.global, Calls(events), now)
  {
    hide TakeAt, Fits, Grants, After, Run, Passed, Calls;
    GlobalFollows(l, events, Keep, start, now, now);
    GrantsExactlyWhatFits(l.global, Calls(events), now);
  }

  lemma UserFits(l: Limiter, events: seq<Event>, user: UserId, start: real, now: real)
    requires l.users == map[]
    requires Timely(start, events) && start <= now && forall i :: 0 <= i < |events| ==> events[i].now <= now
    ensures var times := Tries(l, events, user);
            TakeAt(UserBucket(Run(l, events, Keep), user, now), now).1 <==> Fits(FirstBucket(l, times), times, now)
  {
    hide TakeAt, Fits, Grants, After, Run, Passed, Tries;
    var times := Tries(l, events, user);
    UserFollows(l, events, user, start, now, now);
    if times == [] {
      NothingTried(l, now);
    } else {
      GrantsExactlyWhatFits(FirstBucket(l, times), times, now);
    }
  }

  /** A call is let through exactly when it fits the global rate and the user's. */
  lemma AllowsExactlyWhatFits(l: Limiter, events: seq<Event>, user: UserId, start: real, now: real)
    requires SoundLimiter(l, start) && l.global.tokens == l.global.max && l.users == map[]
    requires Timely(start, events) && start <= now && forall i :: 0 <= i < |events| ==> events[i].now <= now
    ensures AllowAt(Run(l, events, Keep), user, now).1 <==>
            Fits(l.global, Calls(events), now) &&
            Fits(FirstBucket(l, Tries(l, events, user)), Tries(l, events, user), now)
  {
    hide TakeAt, Fits, Run, Calls, Tries, UserBucket, FirstBucket;
    GlobalFits(l, events, start, now);
    UserFits(l, events, user, start, now);
  }

  lemma NothingTried(l: Limiter, now: real)
    ensures Fits(FirstBucket(l, []), [], now)
    ensures TakeAt(NewBucket(l.userRate, now), now).1
  {
    RefillAdds(NewBucket(l.userRate, now).max, 0.0, 0.0);
    var b := FirstBucket(l, []);
    forall s | s <= now ensures Grants(b, [], s, now) as real + 1.0 <= Allowance(b.max, now - s) {
      RefillGrows(FirstBucket(l, []).max, now - s);
    }
  }

  lemma ThirdAnswer(l: Limiter, a: Event, b: Event, c: Event, policy: Policy)
    ensures Answer(l, [a, b, c], 2, policy) == Handle(Handle(Handle(l, a, policy).0, b, policy).0, c, policy).1
  {
    hide Handle;
    var events := [a, b, c];
    assert events[..2][..1] == events[..1] && events[..1][..0] == [];
    assert Run(l, events[..1], policy) == Handle(l, a, policy).0;
  }

  lemma OneTokenIsSpent(late: real)
    requires 0.0 <= late < 60.0
    ensures var used := Limiter(Bucket(1.0, 2.0, 0.0), map[0 := Bucket(0.0, 1.0, 0.0)], 1);
            && AllowAt(Limiter(NewBucket(2, 0.0), map[], 1), 0, 0.0).0 == used
            && !AllowAt(used, 0, late).1
            && AllowAt(used.(users := map[]), 0, late).1
  {
  }

  /** Sweeping buckets idle for less than a minute does change an answer: one minute is
      exactly what makes eviction invisible. */
  lemma ShortTtlShows(ttl: real)
    requires 0.0 <= ttl < 60.0
    ensures exists l, events :: SoundLimiter(l, 0.0) && Timely(0.0, events) && |events| == 3 &&
              Answer(l, events, 2, Expire(ttl)) != Answer(l, events, 2, Keep)
  {
    hide AllowAt, Answer;
    var late := (ttl + 60.0) / 2.0;
    var l := Limiter(NewBucket(2, 0.0), map[], 1);
    var a, b, c := Call(0.0, 0), Sweep(late), Call(late, 0);
    var used := Limiter(Bucket(1.0, 2.0, 0.0), map[0 := Bucket(0.0, 1.0, 0.0)], 1);
    OneTokenIsSpent(late);
    assert EvictAt(used, late, ttl) == used.(users := map[]);
    ThirdAnswer(l, a, b, c, Expire(ttl));
    ThirdAnswer(l, a, b, c, Keep);
    assert Timely(0.0, [a, b, c]);
  }
}
