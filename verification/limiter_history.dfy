/**
 The whole limiter through any history of requests over any buckets: each bucket sees exactly the
 checks made of its own key, so what holds of one bucket's history holds of the limiter
 (backend/app/identity/rate_limit.py:46-72).
 */
module LimiterHistory {
  import opened Common
  import opened RateLimit

  /** One call of `enforce_rate_limit`, with the clock reading of each key's check. */
  datatype Request = Request(action: string, keys: seq<string>, times: seq<real>)

  datatype Check = Check(action: string, key: string, time: real)

  predicate WellFormed(r: Request)
  {
    r.action in RATE_LIMITS && |r.times| == |r.keys|
  }

  predicate Known(checks: seq<Check>)
  {
    forall i :: 0 <= i < |checks| ==> checks[i].action in RATE_LIMITS
  }

  // ---- requests are checks, one after another ----

  /** The checks a request makes: up to the first refusal, that one included. */
  function ChecksOf(hits: map<string, seq<real>>, r: Request): (checks: seq<Check>)
    requires WellFormed(r)
    ensures Known(checks)
  {
    var n := PassedKeys(hits, r.action, r.keys, r.times);
    seq(if n < |r.keys| then n + 1 else n, i requires 0 <= i < |r.keys| => Check(r.action, r.keys[i], r.times[i]))
  }

  predicate AllWellFormed(requests: seq<Request>)
  {
    forall i :: 0 <= i < |requests| ==> WellFormed(requests[i])
  }

  /** The limiter's buckets after these requests. */
  function After(requests: seq<Request>): map<string, seq<real>>
    requires AllWellFormed(requests)
  {
    if requests == [] then map[]
    else
      var last := requests[|requests| - 1];
      Enforced(After(requests[..|requests| - 1]), last.action, last.keys, last.times).0
  }

  /** Every check these requests made, in order. */
  function Made(requests: seq<Request>): (checks: seq<Check>)
    requires AllWellFormed(requests)
    ensures Known(checks)
  {
    if requests == [] then []
    else
      var front := requests[..|requests| - 1];
      Made(front) + ChecksOf(After(front), requests[|requests| - 1])
  }

  function CheckOne(hits: map<string, seq<real>>, c: Check): (map<string, seq<real>>, Outcome)
    requires c.action in RATE_LIMITS
  {
    var bucket := Bucket(c.action, c.key);
    var (deque, outcome) := Checked(HitsOf(hits, bucket), c.time, RATE_LIMITS[c.action].0, RATE_LIMITS[c.action].1);
    (hits[bucket := deque], outcome)
  }

  function Replay(checks: seq<Check>): map<string, seq<real>>
    requires Known(checks)
  {
    if checks == [] then map[] else CheckOne(Replay(checks[..|checks| - 1]), checks[|checks| - 1]).0
  }

  lemma ReplayMore(checks: seq<Check>, c: Check)
    requires Known(checks) && c.action in RATE_LIMITS
    ensures Replay(checks + [c]) == CheckOne(Replay(checks), c).0
  {
    hide RATE_LIMITS;
    hide CheckOne;
    assert (checks + [c])[..|checks|] == checks;
  }

  lemma RequestStep(hits: map<string, seq<real>>, r: Request, k: nat)
    requires WellFormed(r) && k < |ChecksOf(hits, r)|
    ensures k < |r.keys| && ChecksOf(hits, r)[k] == Check(r.action, r.keys[k], r.times[k])
    ensures Enforced(hits, r.action, r.keys[..k + 1], r.times[..k + 1]).0 ==
      CheckOne(Enforced(hits, r.action, r.keys[..k], r.times[..k]).0, Check(r.action, r.keys[k], r.times[k])).0
  {
    hide RATE_LIMITS;
    hide Checked, Enforced, Bucket, HitsOf, PassedKeys;
    PrefixPasses(hits, r.action, r.keys, r.times, k);
    OneMoreKey(hits, r.action, r.keys, r.times, k);
  }

  lemma RequestNone(hits: map<string, seq<real>>, r: Request)
    requires WellFormed(r)
    ensures Enforced(hits, r.action, r.keys[..0], r.times[..0]).0 == hits && |ChecksOf(hits, r)| <= |r.keys|
  {
  }

  lemma {:induction false} RequestReplays(before: seq<Check>, r: Request, made: seq<Check>, m: nat)
    requires Known(before) && WellFormed(r) && made == ChecksOf(Replay(before), r) && m <= |made| <= |r.keys|
    ensures Enforced(Replay(before), r.action, r.keys[..m], r.times[..m]).0 == Replay(before + made[..m])
  {
    hide RATE_LIMITS;
    hide CheckOne, Enforced, Replay, ChecksOf;
    if m == 0 {
      RequestNone(Replay(before), r);
      assert before + made[..0] == before;
    } else {
      RequestReplays(before, r, made, m - 1);
      RequestStep(Replay(before), r, m - 1);
      ReplayMore(before + made[..m - 1], made[m - 1]);
      assert before + made[..m] == before + made[..m - 1] + [made[m - 1]];
    }
  }

  /** Serving requests is replaying the checks they make. */
  lemma {:induction false} RequestsReplay(requests: seq<Request>)
    requires AllWellFormed(requests)
    ensures After(requests) == Replay(Made(requests))
  {
    if requests != [] {
      var front, last := requests[..|requests| - 1], requests[|requests| - 1];
      RequestsReplay(front);
      var hits, made := After(front), ChecksOf(After(front), last);
      RequestNone(hits, last);
      RequestReplays(Made(front), last, made, |made|);
      assert made[..|made|] == made;
      WholeRequest(hits, last);
      hide Enforced, Replay, ChecksOf;
    }
  }

  lemma WholeRequest(hits: map<string, seq<real>>, r: Request)
    requires WellFormed(r)
    ensures var m := |ChecksOf(hits, r)|;
      m <= |r.keys| && Enforced(hits, r.action, r.keys, r.times).0 == Enforced(hits, r.action, r.keys[..m], r.times[..m]).0
  {
    var n := PassedKeys(hits, r.action, r.keys, r.times);
    if n < |r.keys| {
      RefusalEndsIt(hits, r.action, r.keys, r.times, n);
    } else {
      assert r.keys[..n] == r.keys && r.times[..n] == r.times;
    }
  }

  // ---- each bucket has its own history ----

  /** When this key was checked for this action. */
  function TimesOf(checks: seq<Check>, action: string, key: string): seq<real>
  {
    if checks == [] then []
    else
      var front, last := TimesOf(checks[..|checks| - 1], action, key), checks[|checks| - 1];
      if last.action == action && last.key == key then front + [last.time] else front
  }

  /** When a check of this key for this action was admitted. */
  function AdmittedTimes(checks: seq<Check>, action: string, key: string): seq<real>
    requires Known(checks)
  {
    if checks == [] then []
    else
      var front, last := checks[..|checks| - 1], checks[|checks| - 1];
      if last.action == action && last.key == key && CheckOne(Replay(front), last).1 == Admitted
      then AdmittedTimes(front, action, key) + [last.time] else AdmittedTimes(front, action, key)
  }

  lemma LimitsPositive(action: string)
    requires action in RATE_LIMITS
    ensures RATE_LIMITS[action].0 >= 1
  {
  }

  lemma NoColons(action: string)
    requires action in RATE_LIMITS
    ensures ':' !in action
  {
  }

  /** What the limiter holds in a bucket, and admitted from it, is what that bucket alone would have. */
  lemma {:induction false} BucketOnItsOwn(checks: seq<Check>, action: string, key: string)
    requires Known(checks) && action in RATE_LIMITS
    ensures var run := RunChecks(TimesOf(checks, action, key), RATE_LIMITS[action].0, RATE_LIMITS[action].1);
      HitsOf(Replay(checks), Bucket(action, key)) == run.deque && AdmittedTimes(checks, action, key) == run.admitted
  {
    if checks != [] {
      var front, last := checks[..|checks| - 1], checks[|checks| - 1];
      BucketOnItsOwn(front, action, key);
      NoColons(action);
      NoColons(last.action);
      BucketsDistinct(last.action, last.key, action, key);
      var times := TimesOf(front, action, key);
      assert (times + [last.time])[..|times|] == times;
      hide Checked, Bucket;
    }
  }

  predicate OneClock(checks: seq<Check>)
  {
    forall i, j :: 0 <= i < j < |checks| ==> checks[i].time <= checks[j].time
  }

  lemma {:induction false} TimesInOrder(checks: seq<Check>, action: string, key: string)
    requires OneClock(checks)
    ensures var times := TimesOf(checks, action, key);
      Nondecreasing(times) && forall i :: 0 <= i < |times| ==> exists j :: 0 <= j < |checks| && checks[j].time == times[i]
  {
    if checks != [] {
      var front, last := checks[..|checks| - 1], checks[|checks| - 1];
      TimesInOrder(front, action, key);
      var times, times' := TimesOf(front, action, key), TimesOf(checks, action, key);
      forall i | 0 <= i < |times'|
        ensures times'[i] <= last.time && exists j :: 0 <= j < |checks| && checks[j].time == times'[i]
      {
        if i < |times| {
          var j :| 0 <= j < |front| && front[j].time == times[i];
          assert checks[j].time == times'[i] && checks[|checks| - 1] == last;
        } else {
          assert checks[|checks| - 1].time == times'[i];
        }
      }
    }
  }

  /** The history of one bucket through all requests. */
  lemma BucketHistory(requests: seq<Request>, action: string, key: string)
    requires AllWellFormed(requests) && action in RATE_LIMITS
    ensures var run := RunChecks(TimesOf(Made(requests), action, key), RATE_LIMITS[action].0, RATE_LIMITS[action].1);
      HitsOf(After(requests), Bucket(action, key)) == run.deque && AdmittedTimes(Made(requests), action, key) == run.admitted
  {
    hide RATE_LIMITS;
    hide RunChecks, TimesOf, Replay, After, Made, Bucket, HitsOf;
    RequestsReplay(requests);
    BucketOnItsOwn(Made(requests), action, key);
  }

  /**
   Of the limiter itself: over any history of requests on a clock that never goes back, no closed
   window holds more than the action's limit of admitted hits for any one key.
   */
  lemma LimiterNeverOverfull(requests: seq<Request>, action: string, key: string, from: real)
    requires AllWellFormed(requests) && action in RATE_LIMITS && OneClock(Made(requests))
    ensures |Between(AdmittedTimes(Made(requests), action, key), from, from + RATE_LIMITS[action].1)| <= RATE_LIMITS[action].0
  {
    LimitsPositive(action);
    hide RATE_LIMITS;
    var (limit, window) := RATE_LIMITS[action];
    NeverOverfullFor(requests, action, key, limit, window, from);
    hide Between, AdmittedTimes, Made;
  }

  lemma NeverOverfullFor(requests: seq<Request>, action: string, key: string, limit: int, window: real, from: real)
    requires AllWellFormed(requests) && action in RATE_LIMITS && OneClock(Made(requests))
    requires RATE_LIMITS[action] == (limit, window) && limit >= 1
    ensures |Between(AdmittedTimes(Made(requests), action, key), from, from + window)| <= limit
  {
    hide RATE_LIMITS;
    hide Between, RunChecks, TimesOf, Made, AdmittedTimes, OneClock, AllWellFormed;
    BucketHistory(requests, action, key);
    TimesInOrder(Made(requests), action, key);
    WindowNeverOverfull(TimesOf(Made(requests), action, key), limit, window, from);
  }
}
