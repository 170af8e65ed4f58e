/** The sliding-window rate limiter (backend/app/identity/rate_limit.py). */
module RateLimit {
  import opened Common

  /** Attempts allowed and window length in seconds, by action. */
  const RATE_LIMITS: map<string, (int, real)> := map[
    "register" := (5, 60.0),
    "login" := (10, 60.0),
    "forgot_password" := (5, 60.0),
    "reset_password" := (10, 60.0),
    "verify_resend" := (5, 60.0),
    "change_password" := (10, 60.0),
    "verify_confirm" := (10, 60.0)
  ]

  /** A limit below one makes the code read the head of an empty deque, which fails. */
  datatype Outcome = Admitted | Refused(retryAfter: real) | EmptyDequeRead

  function Expire(hits: seq<real>, now: real, window: real): seq<real>
  {
    if hits != [] && now - hits[0] > window then Expire(hits[1..], now, window) else hits
  }

  /** What one check makes of a bucket's deque, and what it answers. */
  function Checked(hits: seq<real>, now: real, limit: int, window: real): (seq<real>, Outcome)
  {
    var live := Expire(hits, now, window);
    if |live| >= limit then
      if live == [] then (live, EmptyDequeRead)
      else
        var wait := window - (now - live[0]);
        (live, Refused(if wait > 0.0 then wait else 0.0))
    else (live + [now], Admitted)
  }

  function Bucket(action: string, key: string): string
  {
    action + ":" + key
  }

  function HitsOf(hits: map<string, seq<real>>, bucket: string): seq<real>
  {
    if bucket in hits then hits[bucket] else []
  }

  class InMemoryRateLimiter {
    var hits: map<string, seq<real>>

    constructor ()
      ensures hits == map[]
    {
      hits := map[];
    }

    method Check(action: string, key: string, limit: int, window: real, now: real) returns (outcome: Outcome)
      modifies this
      ensures (HitsOf(hits, Bucket(action, key)), outcome) == Checked(HitsOf(old(hits), Bucket(action, key)), now, limit, window)
      ensures hits == old(hits)[Bucket(action, key) := HitsOf(hits, Bucket(action, key))]
    {
      var bucket := Bucket(action, key);
      var deque := HitsOf(hits, bucket);
      while deque != [] && now - deque[0] > window
        invariant Expire(deque, now, window) == Expire(HitsOf(hits, bucket), now, window)
        decreases |deque|
      {
        deque := deque[1..];
      }
      if |deque| >= limit {
        if deque == [] {
          outcome := EmptyDequeRead;
        } else {
          var wait := window - (now - deque[0]);
          outcome := Refused(if wait > 0.0 then wait else 0.0);
        }
      } else {
        deque := deque + [now];
        outcome := Admitted;
      }
      hits := hits[bucket := deque];
    }

    /** Check each key's bucket in turn; the first refusal ends it. `times` are the clock readings. */
    method EnforceRateLimit(action: string, keys: seq<string>, times: seq<real>) returns (refusal: Option<Outcome>)
      requires action in RATE_LIMITS && |times| == |keys|
      modifies this
      ensures (hits, refusal) == Enforced(old(hits), action, keys, times)
    {
      var (limit, window) := RATE_LIMITS[action];
      for i := 0 to |keys|
        invariant Enforced(hits, action, keys[i..], times[i..]) == Enforced(old(hits), action, keys, times)
      {
        var outcome := Check(action, keys[i], limit, window, times[i]);
        assert keys[i..][1..] == keys[i + 1..] && times[i..][1..] == times[i + 1..];
        if outcome != Admitted {
          return Some(outcome);
        }
      }
      return None;
    }
  }

  function Enforced(hits: map<string, seq<real>>, action: string, keys: seq<string>, times: seq<real>): (map<string, seq<real>>, Option<Outcome>)
    requires action in RATE_LIMITS && |times| == |keys|
    decreases |keys|
  {
    if keys == [] then (hits, None)
    else
      var bucket := Bucket(action, keys[0]);
      var (deque, outcome) := Checked(HitsOf(hits, bucket), times[0], RATE_LIMITS[action].0, RATE_LIMITS[action].1);
      if outcome != Admitted then (hits[bucket := deque], Some(outcome))
      else Enforced(hits[bucket := deque], action, keys[1..], times[1..])
  }

  /** Two requests share a bucket only when they are for the same action and the same key. */
  lemma BucketsDistinct(action: string, key: string, action': string, key': string)
    requires ':' !in action && ':' !in action'
    ensures Bucket(action, key) == Bucket(action', key') <==> action == action' && key == key'
  {
    if Bucket(action, key) == Bucket(action', key') {
      var b, b' := Bucket(action, key), Bucket(action', key');
      assert forall i :: 0 <= i < |action| ==> b[i] == action[i] && action[i] in action;
      assert forall i :: 0 <= i < |action'| ==> b'[i] == action'[i] && action'[i] in action';
      assert b[|action|] == ':' == b'[|action'|];
      assert |action| == |action'|;
      assert action == b[..|action|] && key == b[|action| + 1..];
    }
  }

  lemma SameBucketSameKey(action: string, key: string, key': string)
    requires Bucket(action, key) == Bucket(action, key')
    ensures key == key'
  {
    assert key == Bucket(action, key)[|action| + 1..] && key' == Bucket(action, key')[|action| + 1..];
  }

  lemma {:induction false} EnforceTouches(hits: map<string, seq<real>>, action: string, keys: seq<string>, times: seq<real>)
    requires action in RATE_LIMITS && |times| == |keys|
    ensures forall b :: (forall k :: k in keys ==> Bucket(action, k) != b) ==> HitsOf(Enforced(hits, action, keys, times).0, b) == HitsOf(hits, b)
    decreases |keys|
  {
    if keys != [] {
      var bucket := Bucket(action, keys[0]);
      var (deque, outcome) := Checked(HitsOf(hits, bucket), times[0], RATE_LIMITS[action].0, RATE_LIMITS[action].1);
      if outcome == Admitted {
        EnforceTouches(hits[bucket := deque], action, keys[1..], times[1..]);
      }
    }
  }

  /** Checking one list of keys and then another is checking both in one go, unless the first was refused. */
  lemma {:induction false} EnforceJoin(
    hits: map<string, seq<real>>, action: string, keys: seq<string>, times: seq<real>, keys': seq<string>, times': seq<real>)
    requires action in RATE_LIMITS && |times| == |keys| && |times'| == |keys'|
    ensures var (mid, refusal) := Enforced(hits, action, keys, times);
      Enforced(hits, action, keys + keys', times + times') == if refusal.Some? then (mid, refusal) else Enforced(mid, action, keys', times')
    decreases |keys|
  {
    if keys == [] {
      assert keys + keys' == keys' && times + times' == times';
    } else {
      var bucket := Bucket(action, keys[0]);
      var (deque, outcome) := Checked(HitsOf(hits, bucket), times[0], RATE_LIMITS[action].0, RATE_LIMITS[action].1);
      assert (keys + keys')[1..] == keys[1..] + keys' && (times + times')[1..] == times[1..] + times';
      if outcome == Admitted {
        EnforceJoin(hits[bucket := deque], action, keys[1..], times[1..], keys', times');
      }
    }
  }

  /** What the i-th key is answered when every key before it was admitted. */
  function Answer(hits: map<string, seq<real>>, action: string, keys: seq<string>, times: seq<real>, i: nat): Outcome
    requires action in RATE_LIMITS && |times| == |keys| && i < |keys|
  {
    Checked(HitsOf(Enforced(hits, action, keys[..i], times[..i]).0, Bucket(action, keys[i])),
            times[i], RATE_LIMITS[action].0, RATE_LIMITS[action].1).1
  }

  /** How many keys are admitted before the first refusal; all of them when there is none. */
  function PassedKeys(hits: map<string, seq<real>>, action: string, keys: seq<string>, times: seq<real>): (n: nat)
    requires action in RATE_LIMITS && |times| == |keys|
    ensures n <= |keys|
    ensures Enforced(hits, action, keys, times).1.None? <==> n == |keys|
    decreases |keys|
  {
    if keys == [] then 0
    else
      var bucket := Bucket(action, keys[0]);
      var (deque, outcome) := Checked(HitsOf(hits, bucket), times[0], RATE_LIMITS[action].0, RATE_LIMITS[action].1);
      if outcome != Admitted then 0 else 1 + PassedKeys(hits[bucket := deque], action, keys[1..], times[1..])
  }

  lemma {:induction false} PrefixPasses(hits: map<string, seq<real>>, action: string, keys: seq<string>, times: seq<real>, i: nat)
    requires action in RATE_LIMITS && |times| == |keys| && i <= PassedKeys(hits, action, keys, times)
    ensures Enforced(hits, action, keys[..i], times[..i]).1.None?
    ensures i < |keys| ==> (Answer(hits, action, keys, times, i) == Admitted <==> i < PassedKeys(hits, action, keys, times))
    decreases |keys|
  {
    if i > 0 {
      var bucket := Bucket(action, keys[0]);
      var (deque, outcome) := Checked(HitsOf(hits, bucket), times[0], RATE_LIMITS[action].0, RATE_LIMITS[action].1);
      PrefixPasses(hits[bucket := deque], action, keys[1..], times[1..], i - 1);
      assert keys[..i][1..] == keys[1..][..i - 1] && times[..i][1..] == times[1..][..i - 1];
    }
  }

  lemma EnforceSingle(hits: map<string, seq<real>>, action: string, key: string, time: real)
    requires action in RATE_LIMITS
    ensures var (deque, outcome) := Checked(HitsOf(hits, Bucket(action, key)), time, RATE_LIMITS[action].0, RATE_LIMITS[action].1);
      Enforced(hits, action, [key], [time]) == (hits[Bucket(action, key) := deque], if outcome == Admitted then None else Some(outcome))
  {
    assert [key][1..] == [] && [time][1..] == [];
    hide Checked, Bucket, HitsOf;
  }

  /** From a point up to which nothing was refused, the rest is checked from the state reached there. */
  lemma FromHere(hits: map<string, seq<real>>, action: string, keys: seq<string>, times: seq<real>, j: nat, m: nat)
    requires action in RATE_LIMITS && |times| == |keys| && j <= m <= |keys|
    ensures var (mid, refusal) := Enforced(hits, action, keys[..j], times[..j]);
      Enforced(hits, action, keys[..m], times[..m]) ==
        if refusal.Some? then (mid, refusal) else Enforced(mid, action, keys[j..m], times[j..m])
  {
    hide Enforced;
    assert keys[..j] + keys[j..m] == keys[..m] && times[..j] + times[j..m] == times[..m];
    EnforceJoin(hits, action, keys[..j], times[..j], keys[j..m], times[j..m]);
  }

  /** What checking one more key leaves. */
  lemma OneMoreKey(hits: map<string, seq<real>>, action: string, keys: seq<string>, times: seq<real>, j: nat)
    requires action in RATE_LIMITS && |times| == |keys| && j < |keys| && Enforced(hits, action, keys[..j], times[..j]).1.None?
    ensures var mid, bucket := Enforced(hits, action, keys[..j], times[..j]).0, Bucket(action, keys[j]);
      var (deque, outcome) := Checked(HitsOf(mid, bucket), times[j], RATE_LIMITS[action].0, RATE_LIMITS[action].1);
      Enforced(hits, action, keys[..j + 1], times[..j + 1]) == (mid[bucket := deque], if outcome == Admitted then None else Some(outcome))
  {
    hide Enforced, Checked, Bucket, HitsOf;
    FromHere(hits, action, keys, times, j, j + 1);
    assert keys[j..j + 1] == [keys[j]] && times[j..j + 1] == [times[j]];
    EnforceSingle(Enforced(hits, action, keys[..j], times[..j]).0, action, keys[j], times[j]);
  }

  /** Stopping at the refused key gives the same result as the whole list. */
  lemma RefusalEndsIt(hits: map<string, seq<real>>, action: string, keys: seq<string>, times: seq<real>, i: nat)
    requires action in RATE_LIMITS && |times| == |keys| && i == PassedKeys(hits, action, keys, times) < |keys|
    ensures Enforced(hits, action, keys, times) == Enforced(hits, action, keys[..i + 1], times[..i + 1])
    ensures Enforced(hits, action, keys, times).1 == Some(Answer(hits, action, keys, times, i))
  {
    hide Enforced, Checked, Bucket, HitsOf, PassedKeys;
    PrefixPasses(hits, action, keys, times, i);
    OneMoreKey(hits, action, keys, times, i);
    FromHere(hits, action, keys, times, i + 1, |keys|);
    assert keys[..|keys|] == keys && times[..|times|] == times;
  }

  lemma AdmittedEnds(hits: seq<real>, now: real, limit: int, window: real)
    requires Checked(hits, now, limit, window).1 == Admitted
    ensures var deque := Checked(hits, now, limit, window).0; deque != [] && deque[|deque| - 1] == now
  {
  }

  lemma AdmittedIsRecorded(hits: map<string, seq<real>>, action: string, keys: seq<string>, times: seq<real>, i: nat, j: nat)
    requires action in RATE_LIMITS && |times| == |keys| && i == PassedKeys(hits, action, keys, times) < |keys| && j < i
    requires forall l :: j < l <= i ==> keys[l] != keys[j]
    ensures var deque := HitsOf(Enforced(hits, action, keys, times).0, Bucket(action, keys[j]));
      deque != [] && deque[|deque| - 1] == times[j]
  {
    hide Enforced, Checked, Bucket, PassedKeys;
    RefusalEndsIt(hits, action, keys, times, i);
    PrefixPasses(hits, action, keys, times, j);
    OneMoreKey(hits, action, keys, times, j);
    var before := Enforced(hits, action, keys[..j], times[..j]).0;
    AdmittedEnds(HitsOf(before, Bucket(action, keys[j])), times[j], RATE_LIMITS[action].0, RATE_LIMITS[action].1);
    FromHere(hits, action, keys, times, j + 1, i + 1);
    var mid := Enforced(hits, action, keys[..j + 1], times[..j + 1]).0;
    forall k | k in keys[j + 1..i + 1]
      ensures Bucket(action, k) != Bucket(action, keys[j])
    {
      if Bucket(action, k) == Bucket(action, keys[j]) {
        SameBucketSameKey(action, k, keys[j]);
      }
    }
    EnforceTouches(mid, action, keys[j + 1..i + 1], times[j + 1..i + 1]);
  }

  lemma LaterKeysUntouched(hits: map<string, seq<real>>, action: string, keys: seq<string>, times: seq<real>, i: nat, l: nat)
    requires action in RATE_LIMITS && |times| == |keys| && i == PassedKeys(hits, action, keys, times) < |keys|
    requires i < l < |keys| && keys[l] !in keys[..i + 1]
    ensures HitsOf(Enforced(hits, action, keys, times).0, Bucket(action, keys[l])) == HitsOf(hits, Bucket(action, keys[l]))
  {
    RefusalEndsIt(hits, action, keys, times, i);
    forall k | k in keys[..i + 1]
      ensures Bucket(action, k) != Bucket(action, keys[l])
    {
      if Bucket(action, k) == Bucket(action, keys[l]) {
        SameBucketSameKey(action, k, keys[l]);
      }
    }
    EnforceTouches(hits, action, keys[..i + 1], times[..i + 1]);
  }

  /** Every key before the i-th was admitted and its hit is on record; the i-th was refused; keys only named later are untouched. */
  ghost predicate SpentBefore(
    hits: map<string, seq<real>>, after: map<string, seq<real>>, refusal: Outcome, action: string, keys: seq<string>, times: seq<real>, i: nat)
    requires action in RATE_LIMITS && |times| == |keys| && i < |keys|
  {
    && (forall j :: 0 <= j < i ==> Answer(hits, action, keys, times, j) == Admitted)
    && refusal == Answer(hits, action, keys, times, i) && refusal != Admitted
    && (forall j :: 0 <= j < i && (forall l :: j < l <= i ==> keys[l] != keys[j]) ==>
        var deque := HitsOf(after, Bucket(action, keys[j])); deque != [] && deque[|deque| - 1] == times[j])
    && (forall l :: i < l < |keys| && keys[l] !in keys[..i + 1] ==>
        HitsOf(after, Bucket(action, keys[l])) == HitsOf(hits, Bucket(action, keys[l])))
  }

  /**
   Enforcing touches only the buckets of its own keys and passes exactly when each key in turn is
   admitted. When it refuses, it has spent the hits of the keys before the refused one.
   */
  lemma EnforceSpendsPrefix(hits: map<string, seq<real>>, action: string, keys: seq<string>, times: seq<real>)
    requires action in RATE_LIMITS && |times| == |keys|
    ensures var (after, refusal) := Enforced(hits, action, keys, times);
      && (forall b :: (forall k :: k in keys ==> Bucket(action, k) != b) ==> HitsOf(after, b) == HitsOf(hits, b))
      && (refusal.None? <==> forall i :: 0 <= i < |keys| ==> Answer(hits, action, keys, times, i) == Admitted)
      && (refusal.Some? ==> exists i :: 0 <= i < |keys| && SpentBefore(hits, after, refusal.value, action, keys, times, i))
  {
    EnforceTouches(hits, action, keys, times);
    var n := PassedKeys(hits, action, keys, times);
    hide RATE_LIMITS, Enforced, Answer, SpentBefore;
    forall i | 0 <= i < n
      ensures Answer(hits, action, keys, times, i) == Admitted
    {
      PrefixPasses(hits, action, keys, times, i);
    }
    if n < |keys| {
      PrefixPasses(hits, action, keys, times, n);
      RefusalSpends(hits, action, keys, times, n);
    }
  }

  lemma RefusalSpends(hits: map<string, seq<real>>, action: string, keys: seq<string>, times: seq<real>, n: nat)
    requires action in RATE_LIMITS && |times| == |keys| && n == PassedKeys(hits, action, keys, times) < |keys|
    ensures var (after, refusal) := Enforced(hits, action, keys, times);
      refusal.Some? && SpentBefore(hits, after, refusal.value, action, keys, times, n)
  {
    hide RATE_LIMITS, Enforced, Answer, PassedKeys;
    PrefixPasses(hits, action, keys, times, n);
    RefusalEndsIt(hits, action, keys, times, n);
    var after := Enforced(hits, action, keys, times).0;
    forall j | 0 <= j < n
      ensures Answer(hits, action, keys, times, j) == Admitted
    {
      PrefixPasses(hits, action, keys, times, j);
    }
    forall j | 0 <= j < n && forall l :: j < l <= n ==> keys[l] != keys[j]
      ensures var deque := HitsOf(after, Bucket(action, keys[j])); deque != [] && deque[|deque| - 1] == times[j]
    {
      AdmittedIsRecorded(hits, action, keys, times, n, j);
    }
    forall l | n < l < |keys| && keys[l] !in keys[..n + 1]
      ensures HitsOf(after, Bucket(action, keys[l])) == HitsOf(hits, Bucket(action, keys[l]))
    {
      LaterKeysUntouched(hits, action, keys, times, n, l);
    }
  }

  /** Registering from an address with room to spare for an account whose bucket is full: refused, and the address has one hit more. */
  lemma RefusedRequestSpends(address: string, account: string)
    requires address != account
    ensures var full := map[Bucket("register", account) := [0.0, 0.0, 0.0, 0.0, 0.0]];
      var (after, refusal) := Enforced(full, "register", [address, account], [1.0, 1.0]);
      && refusal == Some(Refused(59.0))
      && HitsOf(full, Bucket("register", address)) == [] && HitsOf(after, Bucket("register", address)) == [1.0]
  {
    var full := map[Bucket("register", account) := [0.0, 0.0, 0.0, 0.0, 0.0]];
    if Bucket("register", address) == Bucket("register", account) {
      SameBucketSameKey("register", address, account);
    }
    hide Bucket;
    var mid := full[Bucket("register", address) := [1.0]];
    var none: seq<real> := [];
    assert none + [1.0] == [1.0] && Checked(none, 1.0, 5, 60.0) == ([1.0], Admitted);
    assert [address, account][1..] == [account] && [1.0, 1.0][1..] == [1.0] && [account][1..] == [];
    assert Enforced(full, "register", [address, account], [1.0, 1.0]) == Enforced(mid, "register", [account], [1.0]);
  }

  // ---- one bucket's whole history ----

  /** The deque, and every hit ever admitted, after a run of checks of one bucket. */
  datatype Run = Run(deque: seq<real>, admitted: seq<real>)

  function RunChecks(times: seq<real>, limit: int, window: real): Run
  {
    if times == [] then Run([], [])
    else
      var before, now := RunChecks(times[..|times| - 1], limit, window), times[|times| - 1];
      var (deque, outcome) := Checked(before.deque, now, limit, window);
      Run(deque, if outcome == Admitted then before.admitted + [now] else before.admitted)
  }

  predicate Nondecreasing(times: seq<real>)
  {
    forall i, j :: 0 <= i < j < |times| ==> times[i] <= times[j]
  }

  /** The hits that lie in the closed window from one time to another. */
  function Between(hits: seq<real>, from: real, to: real): seq<real>
  {
    if hits == [] then []
    else
      var n := |hits| - 1;
      Between(hits[..n], from, to) + if from <= hits[n] <= to then [hits[n]] else []
  }

  lemma {:induction false} BetweenMeaning(hits: seq<real>, from: real, to: real, x: real)
    ensures x in Between(hits, from, to) <==> x in hits && from <= x <= to
  {
    if hits != [] {
      var n := |hits| - 1;
      BetweenMeaning(hits[..n], from, to, x);
      assert hits == hits[..n] + [hits[n]];
    }
  }

  lemma {:induction false} BetweenAll(hits: seq<real>, from: real, to: real)
    requires forall i :: 0 <= i < |hits| ==> from <= hits[i] <= to
    ensures Between(hits, from, to) == hits
  {
    if hits != [] {
      BetweenAll(hits[..|hits| - 1], from, to);
    }
  }

  lemma {:induction false} BetweenNone(hits: seq<real>, from: real, to: real)
    requires forall i :: 0 <= i < |hits| ==> !(from <= hits[i] <= to)
    ensures Between(hits, from, to) == []
  {
    if hits != [] {
      BetweenNone(hits[..|hits| - 1], from, to);
    }
  }

  lemma {:induction false} BetweenConcat(a: seq<real>, b: seq<real>, from: real, to: real)
    ensures Between(a + b, from, to) == Between(a, from, to) + Between(b, from, to)
  {
    if b == [] {
      assert a + b == a;
    } else {
      var n := |b| - 1;
      assert (a + b)[..|a| + n] == a + b[..n];
      BetweenConcat(a, b[..n], from, to);
    }
  }

  lemma {:induction false} BetweenNarrower(hits: seq<real>, from: real, to: real, from': real, to': real)
    requires forall i :: 0 <= i < |hits| && from <= hits[i] <= to ==> from' <= hits[i] <= to'
    ensures |Between(hits, from, to)| <= |Between(hits, from', to')|
  {
    if hits != [] {
      BetweenNarrower(hits[..|hits| - 1], from, to, from', to');
    }
  }

  /** Expiring drops a prefix, and all of it is out of the window. */
  lemma {:induction false} ExpireDropsPrefix(hits: seq<real>, now: real, window: real)
    ensures var k := |hits| - |Expire(hits, now, window)|;
      && 0 <= k && Expire(hits, now, window) == hits[k..]
      && (forall i :: 0 <= i < k ==> now - hits[i] > window)
      && (k < |hits| ==> now - hits[k] <= window)
  {
    if hits != [] && now - hits[0] > window {
      ExpireDropsPrefix(hits[1..], now, window);
    }
  }

  predicate NoneAfter(hits: seq<real>, time: real)
  {
    forall i :: 0 <= i < |hits| ==> hits[i] <= time
  }

  /** What the window ending at `now` holds of the given hits. */
  function Held(hits: seq<real>, now: real, window: real): seq<real>
  {
    Between(hits, now - window, now)
  }

  /** On a sorted deque no later than now, what survives expiry is exactly what the window holds. */
  lemma ExpireIsWindow(hits: seq<real>, now: real, window: real)
    requires Nondecreasing(hits) && NoneAfter(hits, now)
    ensures Expire(hits, now, window) == Held(hits, now, window)
  {
    ExpireDropsPrefix(hits, now, window);
    var k := |hits| - |Expire(hits, now, window)|;
    assert hits == hits[..k] + hits[k..];
    DropExpired(hits[..k], hits[k..], now, window);
    LiveIsHeld(hits, k, now, window);
  }

  lemma LiveIsHeld(hits: seq<real>, k: nat, now: real, window: real)
    requires Nondecreasing(hits) && NoneAfter(hits, now)
    requires k <= |hits| && (k < |hits| ==> now - hits[k] <= window)
    ensures Held(hits[k..], now, window) == hits[k..]
  {
    forall i | 0 <= i < |hits[k..]| ensures now - window <= hits[k..][i] <= now {
      assert hits[k] <= hits[k + i] || i == 0;
    }
    BetweenAll(hits[k..], now - window, now);
  }

  lemma DropExpired(expired: seq<real>, live: seq<real>, now: real, window: real)
    requires forall i :: 0 <= i < |expired| ==> now - expired[i] > window
    ensures Held(expired + live, now, window) == Held(live, now, window)
  {
    BetweenConcat(expired, live, now - window, now);
    BetweenNone(expired, now - window, now);
  }

  /** What the deque has to do with the history: from the last check on, every window holds the same of both. */
  ghost predicate Refines(run: Run, last: real, window: real)
  {
    && Nondecreasing(run.deque) && NoneAfter(run.deque, last) && NoneAfter(run.admitted, last)
    && (forall now :: now >= last ==> Held(run.deque, now, window) == Held(run.admitted, now, window))
  }

  lemma RefinesExpire(run: Run, last: real, now: real, window: real)
    requires Refines(run, last, window) && now >= last
    ensures Refines(Run(Expire(run.deque, now, window), run.admitted), now, window)
  {
    var live := Expire(run.deque, now, window);
    ExpireDropsPrefix(run.deque, now, window);
    var k := |run.deque| - |live|;
    forall later | later >= now
      ensures Held(live, later, window) == Held(run.admitted, later, window)
    {
      assert run.deque == run.deque[..k] + live;
      DropExpired(run.deque[..k], live, later, window);
    }
  }

  lemma RefinesAdmit(run: Run, now: real, window: real)
    requires Refines(run, now, window)
    ensures Refines(Run(run.deque + [now], run.admitted + [now]), now, window)
  {
    forall later | later >= now
      ensures Held(run.deque + [now], later, window) == Held(run.admitted + [now], later, window)
    {
      BetweenConcat(run.deque, [now], later - window, later);
      BetweenConcat(run.admitted, [now], later - window, later);
      assert Held(run.deque, later, window) == Held(run.admitted, later, window);
    }
  }

  /** Over any run of checks at nondecreasing times the deque refines the full history. */
  lemma {:induction false} DequeRefinesHistory(times: seq<real>, last: real, limit: int, window: real)
    requires Nondecreasing(times)
    requires times != [] ==> times[|times| - 1] <= last
    ensures Refines(RunChecks(times, limit, window), last, window)
  {
    if times != [] {
      var n := |times| - 1;
      DequeRefinesHistory(times[..n], times[n], limit, window);
      var before := RunChecks(times[..n], limit, window);
      RefinesExpire(before, times[n], times[n], window);
      RefinesAdmit(Run(Expire(before.deque, times[n], window), before.admitted), times[n], window);
    }
  }

  /**
   A check is admitted exactly when the closed window ending now holds fewer than `limit` of the
   hits admitted so far; the deque plays no part in the statement.
   */
  lemma AdmittedIff(times: seq<real>, now: real, limit: int, window: real)
    requires Nondecreasing(times + [now])
    ensures var run := RunChecks(times, limit, window);
      var held := |Held(run.admitted, now, window)|;
      && (Checked(run.deque, now, limit, window).1 == Admitted <==> held < limit)
      && (Checked(run.deque, now, limit, window).1.Refused? <==> held >= limit && held > 0)
  {
    PrefixNondecreasing(times, now);
    DequeRefinesHistory(times, now, limit, window);
    ExpireIsWindow(RunChecks(times, limit, window).deque, now, window);
  }

  lemma PrefixNondecreasing(times: seq<real>, now: real)
    requires Nondecreasing(times + [now])
    ensures Nondecreasing(times) && (times != [] ==> times[|times| - 1] <= now)
  {
    var all := times + [now];
    forall i, j | 0 <= i < j < |times| ensures times[i] <= times[j] {
      assert all[i] <= all[j];
    }
    if times != [] {
      assert all[|times| - 1] <= all[|times|];
    }
  }

  /** No closed window of the given length, wherever it is placed, holds more than `limit` admitted hits. */
  lemma {:induction false} WindowNeverOverfull(times: seq<real>, limit: int, window: real, from: real)
    requires Nondecreasing(times)
    ensures |Between(RunChecks(times, limit, window).admitted, from, from + window)| <= if limit > 0 then limit else 0
  {
    if times != [] {
      var n := |times| - 1;
      assert times == times[..n] + [times[n]];
      PrefixNondecreasing(times[..n], times[n]);
      WindowNeverOverfull(times[..n], limit, window, from);
      WindowAfterOne(times[..n], times[n], limit, window, from);
    }
  }

  lemma OneMoreCheck(times: seq<real>, now: real, limit: int, window: real)
    ensures var before := RunChecks(times, limit, window);
      RunChecks(times + [now], limit, window).admitted ==
        if Checked(before.deque, now, limit, window).1 == Admitted then before.admitted + [now] else before.admitted
  {
    hide Checked;
    assert (times + [now])[..|times|] == times;
  }

  lemma BetweenOne(now: real, from: real, to: real)
    ensures Between([now], from, to) == if from <= now <= to then [now] else []
  {
    assert [now][..0] == [];
  }

  lemma WindowAfterOne(times: seq<real>, now: real, limit: int, window: real, from: real)
    requires Nondecreasing(times + [now])
    requires |Between(RunChecks(times, limit, window).admitted, from, from + window)| <= if limit > 0 then limit else 0
    ensures |Between(RunChecks(times + [now], limit, window).admitted, from, from + window)| <= if limit > 0 then limit else 0
  {
    var admitted := RunChecks(times, limit, window).admitted;
    OneMoreCheck(times, now, limit, window);
    PrefixNondecreasing(times, now);
    AdmittedIff(times, now, limit, window);
    BetweenConcat(admitted, [now], from, from + window);
    BetweenOne(now, from, from + window);
    hide RunChecks, Checked, Nondecreasing, Between;
    if from <= now <= from + window {
      AdmittedSoFar(times, now, limit, window);
      hide Held;
      BetweenInWindow(admitted, now, window, from);
    }
  }

  lemma AdmittedSoFar(times: seq<real>, now: real, limit: int, window: real)
    requires Nondecreasing(times) && (times != [] ==> times[|times| - 1] <= now)
    ensures NoneAfter(RunChecks(times, limit, window).admitted, now)
  {
    hide RunChecks, Nondecreasing;
    DequeRefinesHistory(times, now, limit, window);
  }

  /** Of hits that are over, a window that reaches past now holds no more than the window ending now. */
  lemma BetweenInWindow(hits: seq<real>, now: real, window: real, from: real)
    requires NoneAfter(hits, now) && from <= now <= from + window
    ensures |Between(hits, from, from + window)| <= |Held(hits, now, window)|
  {
    BetweenNarrower(hits, from, from + window, now - window, now);
  }

  /**
   After a refusal the next check is admitted at every time strictly later than the announced
   wait, and refused at every earlier one, the announced moment itself included.
   */
  lemma RetryAfterExact(times: seq<real>, now: real, later: real, limit: int, window: real)
    requires Nondecreasing(times + [now]) && now <= later && limit >= 1
    requires Checked(RunChecks(times, limit, window).deque, now, limit, window).1.Refused?
    ensures var (deque, outcome) := Checked(RunChecks(times, limit, window).deque, now, limit, window);
      && (Checked(deque, later, limit, window).1 == Admitted <==> later > now + outcome.retryAfter)
      && (Checked(deque, later, limit, window).1.Refused? <==> later <= now + outcome.retryAfter)
  {
    var deque := RunChecks(times, limit, window).deque;
    var live := Expire(deque, now, window);
    FullOnRefusal(times, now, limit, window);
    ExpireDropsPrefix(deque, now, window);
    ExpireDropsPrefix(live, later, window);
  }

  /** A refusal means the live deque holds exactly `limit` hits. */
  lemma FullOnRefusal(times: seq<real>, now: real, limit: int, window: real)
    requires Nondecreasing(times + [now]) && limit >= 1
    requires Checked(RunChecks(times, limit, window).deque, now, limit, window).1.Refused?
    ensures |Expire(RunChecks(times, limit, window).deque, now, window)| == limit
  {
    PrefixNondecreasing(times, now);
    DequeRefinesHistory(times, now, limit, window);
    ExpireIsWindow(RunChecks(times, limit, window).deque, now, window);
    WindowNeverOverfull(times, limit, window, now - window);
    assert now - window + window == now;
  }
}
