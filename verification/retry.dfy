/** The retry policy shared by the agent loop and the scheduler (backend/app/reliability/retry.py). */
module Retry {
  import opened Common

  datatype FailureCategory =
    | LlmProviderError | LlmTimeout | LlmRateLimit | InvalidModelOutput | ScheduledReportFailure

  datatype RetryRule = RetryRule(maxAttempts: int, initialDelay: real, maxDelay: real)

  /** Rules by failing operation and category; a pair without a rule is never retried. */
  type RetryPolicy = map<(string, FailureCategory), RetryRule>

  const DEFAULT_LLM_POLICY: RetryPolicy := map[
    ("llm", LlmTimeout) := RetryRule(3, 0.05, 0.5),
    ("llm", LlmRateLimit) := RetryRule(3, 0.05, 0.5),
    ("llm", LlmProviderError) := RetryRule(2, 0.05, 0.5),
    ("llm", InvalidModelOutput) := RetryRule(2, 0.0, 0.0)
  ]

  const DEFAULT_REPORT_POLICY: RetryPolicy := map[
    ("scheduled_report", ScheduledReportFailure) := RetryRule(3, 0.5, 5.0)
  ]

  function PowerOfTwo(n: nat): (p: real)
    ensures p >= 1.0
  {
    if n == 0 then 1.0 else 2.0 * PowerOfTwo(n - 1)
  }

  function Backoff(rule: RetryRule, attempt: nat): real
    requires attempt >= 1
  {
    rule.initialDelay * PowerOfTwo(attempt - 1)
  }

  /** The wait before another attempt, or None when there is to be none. */
  function RetryDelay(policy: RetryPolicy, source: string, category: FailureCategory, retryable: bool, attempt: nat): Option<real>
    requires attempt >= 1
  {
    if !retryable || (source, category) !in policy || attempt >= policy[(source, category)].maxAttempts then None
    else
      var rule := policy[(source, category)];
      var delay := Backoff(rule, attempt);
      Some(if delay <= rule.maxDelay then delay else rule.maxDelay)
  }

  lemma {:induction false} PowerOfTwoMonotone(m: nat, n: nat)
    requires m <= n
    ensures PowerOfTwo(m) <= PowerOfTwo(n)
    decreases n
  {
    if m < n {
      PowerOfTwoMonotone(m, n - 1);
    }
  }

  /**
   Backing off never shortens: a later attempt of the same kind waits at least as long, never
   longer than the rule's ceiling, and once one attempt is the last no later one is retried.
   */
  lemma BackoffGrows(policy: RetryPolicy, source: string, category: FailureCategory, retryable: bool, attempt: nat, later: nat)
    requires 1 <= attempt <= later
    requires (source, category) in policy ==> policy[(source, category)].initialDelay >= 0.0
    ensures var d, d' := RetryDelay(policy, source, category, retryable, attempt), RetryDelay(policy, source, category, retryable, later);
      && (d.None? ==> d'.None?) && (!retryable ==> d.None?)
      && (d'.Some? ==> d.Some? && d.value <= d'.value <= policy[(source, category)].maxDelay)
  {
    if RetryDelay(policy, source, category, retryable, later).Some? {
      var rule := policy[(source, category)];
      PowerOfTwoMonotone(attempt - 1, later - 1);
      assert Backoff(rule, attempt) <= Backoff(rule, later) by {
        assert rule.initialDelay * (PowerOfTwo(later - 1) - PowerOfTwo(attempt - 1)) >= 0.0;
      }
    }
  }

  // ---- running an operation under the policy ----

  /** What attempt number k comes to: success, or a failure of some category. */
  type Attempts = nat -> Option<FailureCategory>

  /** The attempt is the last: it succeeds, or its failure is not retried. */
  predicate Stops(policy: RetryPolicy, source: string, attempts: Attempts, k: nat)
    requires k >= 1
  {
    attempts(k).None? || RetryDelay(policy, source, attempts(k).value, true, k).None?
  }

  /** No attempt from this number on is retried, whatever it fails with. */
  ghost function AttemptBound(rules: set<RetryRule>): (bound: nat)
    ensures forall rule :: rule in rules ==> rule.maxAttempts <= bound
  {
    if rules == {} then 0
    else
      var rule :| rule in rules;
      var rest := AttemptBound(rules - {rule});
      if rule.maxAttempts <= rest then rest else rule.maxAttempts
  }

  lemma BoundStops(policy: RetryPolicy, source: string, attempts: Attempts, k: nat)
    requires k >= 1 && k >= AttemptBound(policy.Values)
    ensures Stops(policy, source, attempts, k)
  {
    if attempts(k).Some? && (source, attempts(k).value) in policy {
      assert policy[(source, attempts(k).value)] in policy.Values;
    }
  }

  /** The number of the last attempt made when the operation starts at attempt k. */
  function LastAttempt(policy: RetryPolicy, source: string, attempts: Attempts, k: nat): (last: nat)
    requires k >= 1
    ensures last >= k && Stops(policy, source, attempts, last)
    ensures forall j :: k <= j < last ==> !Stops(policy, source, attempts, j)
    ensures last <= k || last <= AttemptBound(policy.Values)
    decreases AttemptBound(policy.Values) - k
  {
    BoundStopsOrLess(policy, source, attempts, k);
    if Stops(policy, source, attempts, k) then k else LastAttempt(policy, source, attempts, k + 1)
  }

  lemma BoundStopsOrLess(policy: RetryPolicy, source: string, attempts: Attempts, k: nat)
    requires k >= 1
    ensures Stops(policy, source, attempts, k) || k < AttemptBound(policy.Values)
  {
    if k >= AttemptBound(policy.Values) {
      BoundStops(policy, source, attempts, k);
    }
  }

  /**
   The attempt loop of backend/app/runtime/runner.py and backend/app/scheduling/worker.py: try, and on
   a failure wait and try again until the policy says no.
   */
  method CallWithRetries(policy: RetryPolicy, source: string, attempts: Attempts) returns (attempt: nat, failure: Option<FailureCategory>)
    ensures attempt == LastAttempt(policy, source, attempts, 1)
    ensures failure == attempts(attempt)
  {
    attempt := 1;
    while true
      invariant attempt >= 1
      invariant LastAttempt(policy, source, attempts, attempt) == LastAttempt(policy, source, attempts, 1)
      decreases AttemptBound(policy.Values) - attempt
    {
      failure := attempts(attempt);
      if failure.None? {
        return;
      }
      var delay := RetryDelay(policy, source, failure.value, true, attempt);
      if delay.None? {
        return;
      }
      BoundStopsOrLess(policy, source, attempts, attempt);
      attempt := attempt + 1;
    }
  }

  /** The operation fails only when every attempt failed and the last was not retried. */
  predicate Succeeds(policy: RetryPolicy, source: string, attempts: Attempts)
  {
    attempts(LastAttempt(policy, source, attempts, 1)).None?
  }

  /** With the default rules an operation is tried at most three times. */
  lemma DefaultPoliciesBound(attempts: Attempts)
    ensures LastAttempt(DEFAULT_LLM_POLICY, "llm", attempts, 1) <= 3
    ensures LastAttempt(DEFAULT_REPORT_POLICY, "scheduled_report", attempts, 1) <= 3
  {
    assert Stops(DEFAULT_LLM_POLICY, "llm", attempts, 3);
    assert Stops(DEFAULT_REPORT_POLICY, "scheduled_report", attempts, 3);
  }

  /**
   An operation succeeds exactly when some attempt does before the policy gives up, that is,
   when every attempt before it failed in a way that was to be retried.
   */
  lemma SucceedsIff(policy: RetryPolicy, source: string, attempts: Attempts)
    ensures Succeeds(policy, source, attempts) <==>
      exists k: nat :: k >= 1 && attempts(k).None? && forall j :: 1 <= j < k ==> !Stops(policy, source, attempts, j)
  {
    var last := LastAttempt(policy, source, attempts, 1);
    if k: nat :| k >= 1 && attempts(k).None? && forall j :: 1 <= j < k ==> !Stops(policy, source, attempts, j) {
      assert Stops(policy, source, attempts, k);
      assert last == k;
    }
  }

  /** The waits double: the first is the initial delay, each later one twice the one before, and none is longer than the ceiling. */
  lemma DelaysDouble(policy: RetryPolicy, source: string, category: FailureCategory, attempt: nat)
    requires attempt >= 1 && (source, category) in policy && attempt + 1 < policy[(source, category)].maxAttempts
    requires 0.0 <= policy[(source, category)].initialDelay <= policy[(source, category)].maxDelay
    ensures RetryDelay(policy, source, category, true, 1) == Some(policy[(source, category)].initialDelay)
    ensures var rule := policy[(source, category)];
      var d, d' := RetryDelay(policy, source, category, true, attempt), RetryDelay(policy, source, category, true, attempt + 1);
      d.Some? && d' == Some(if 2.0 * d.value <= rule.maxDelay then 2.0 * d.value else rule.maxDelay)
  {
    BackoffDoubles(policy[(source, category)], attempt);
    hide Backoff;
  }

  lemma BackoffDoubles(rule: RetryRule, attempt: nat)
    requires attempt >= 1
    ensures Backoff(rule, 1) == rule.initialDelay && Backoff(rule, attempt + 1) == 2.0 * Backoff(rule, attempt)
  {
    var power := PowerOfTwo(attempt - 1);
    assert PowerOfTwo(attempt) == 2.0 * power;
    hide PowerOfTwo;
    assert rule.initialDelay * (2.0 * power) == 2.0 * (rule.initialDelay * power);
  }

  /** An operation that always fails the same way is tried as often as its rule says, and once when no rule covers it. */
  lemma AlwaysFailingIsTried(policy: RetryPolicy, source: string, category: FailureCategory)
    ensures var tries := LastAttempt(policy, source, _ => Some(category), 1);
      if (source, category) in policy && policy[(source, category)].maxAttempts >= 1 then tries == policy[(source, category)].maxAttempts
      else tries == 1
  {
    var attempts: Attempts := _ => Some(category);
    var tries := LastAttempt(policy, source, attempts, 1);
    assert Stops(policy, source, attempts, tries);
    if (source, category) in policy && policy[(source, category)].maxAttempts >= 1 {
      var most := policy[(source, category)].maxAttempts;
      assert Stops(policy, source, attempts, most);
      if tries > 1 {
        assert !Stops(policy, source, attempts, tries - 1);
      }
    } else {
      assert Stops(policy, source, attempts, 1);
    }
  }
}
