/**
 * The remote call gateway (`JiraClient`): a minimum spacing between calls and a
 * bounded retry loop that retries rate-limit failures only. Time is an integer
 * number of milliseconds on a modelled clock; the remote SDK is an oracle that
 * gives the outcome of each successive invocation.
 */
module Gateway {
  import opened Tracker
  import PyText

  /** `max_retries` in `_api_call_with_retry`. */
  const MaxRetries: nat := 3
  /** `base_delay` (1 s), in ms. */
  const BaseDelayMs: nat := 1000
  /** `min_delay` (0.2 s), in ms. */
  const MinDelayMs: nat := 200
  /** The text of the exception raised after the retry loop. */
  const MaxRetriesMessage: string := "Max retries (3) exceeded"

  function Pow2(n: nat): (r: nat)
    ensures r >= 1
  {
    if n == 0 then 1 else 2 * Pow2(n - 1)
  }

  /** The pause before the attempt that follows 0-based attempt `attempt`: `base_delay * 2 ** attempt`, in ms. */
  function BackoffMs(attempt: nat): nat
  {
    BaseDelayMs * Pow2(attempt)
  }

  /** The rate-limit test on `str(e).lower()`. */
  predicate IsRateLimitError(message: string)
  {
    var m := PyText.Lower(message);
    PyText.Contains(m, "rate limit") || PyText.Contains(m, "too many requests") || PyText.Contains(m, "429")
  }

  /** An outcome the loop retries: an exception whose text marks a rate limit. */
  predicate IsRateLimited<T>(o: Outcome<T>)
  {
    o.Raised? && IsRateLimitError(o.message)
  }

  /**
   * What one run of the retry loop produced: the value returned or the exception raised,
   * how many times the wrapped function was invoked, and the backoff pauses taken.
   */
  datatype RetryRun<T> = RetryRun(result: Outcome<T>, invocations: nat, backoffsMs: seq<nat>)

  /**
   * The retry loop as written, from 0-based attempt `attempt` on; `respond(n)` is the outcome
   * of the n-th invocation of the wrapped function. The first branch is the raise after the loop.
   */
  function RetryFrom<T>(respond: nat -> Outcome<T>, attempt: nat): RetryRun<T>
    decreases MaxRetries - attempt
  {
    if attempt >= MaxRetries then
      RetryRun(Raised(MaxRetriesMessage), 0, [])
    else
      var o := respond(attempt);
      if IsRateLimited(o) && attempt < MaxRetries - 1 then
        var rest := RetryFrom(respond, attempt + 1);
        RetryRun(rest.result, rest.invocations + 1, [BackoffMs(attempt)] + rest.backoffsMs)
      else
        RetryRun(o, 1, [])
  }

  /**
   * From any attempt before the last, the loop invokes the function at least once and at most
   * until the last attempt; every invocation but the last raised a rate-limit error; it stops at
   * the first outcome that is not one, or at the last attempt; its result is the outcome of its
   * last invocation (so the raise after the loop is never reached); and it pauses `BackoffMs(j)`
   * after each retried attempt `j`.
   */
  lemma {:induction false} RetryFromShape<T>(respond: nat -> Outcome<T>, attempt: nat)
    requires attempt < MaxRetries
    decreases MaxRetries - attempt
    ensures var run := RetryFrom(respond, attempt);
      && 1 <= run.invocations <= MaxRetries - attempt
      && run.result == respond(attempt + run.invocations - 1)
      && (forall j :: attempt <= j < attempt + run.invocations - 1 ==> IsRateLimited(respond(j)))
      && (attempt + run.invocations < MaxRetries ==> !IsRateLimited(run.result))
      && |run.backoffsMs| == run.invocations - 1
      && (forall j :: 0 <= j < |run.backoffsMs| ==> run.backoffsMs[j] == BackoffMs(attempt + j))
  {
    var o := respond(attempt);
    if IsRateLimited(o) && attempt < MaxRetries - 1 {
      RetryFromShape(respond, attempt + 1);
      var rest := RetryFrom(respond, attempt + 1);
      var run := RetryFrom(respond, attempt);
      assert run.backoffsMs == [BackoffMs(attempt)] + rest.backoffsMs;
      forall j | 0 <= j < |run.backoffsMs|
        ensures run.backoffsMs[j] == BackoffMs(attempt + j)
      {
        if j > 0 {
          assert run.backoffsMs[j] == rest.backoffsMs[j - 1];
        }
      }
    }
  }

  /** The whole call: at most three invocations, and the result is always the last invocation's own outcome. */
  lemma RetryBounded<T>(respond: nat -> Outcome<T>)
    ensures var run := RetryFrom(respond, 0);
      && 1 <= run.invocations <= MaxRetries
      && run.result == respond(run.invocations - 1)
      && |run.backoffsMs| == run.invocations - 1
  {
    RetryFromShape(respond, 0);
  }

  /** An error that is not a rate limit propagates right after the attempt that raised it. */
  lemma OtherErrorPropagates<T>(respond: nat -> Outcome<T>, k: nat)
    requires k < MaxRetries
    requires forall j :: 0 <= j < k ==> IsRateLimited(respond(j))
    requires respond(k).Raised? && !IsRateLimitError(respond(k).message)
    ensures RetryFrom(respond, 0).result == respond(k)
    ensures RetryFrom(respond, 0).invocations == k + 1
  {
    RetryFromShape(respond, 0);
  }

  /**
   * Three rate-limit failures in a row: the third is re-raised as it is (no separate
   * "max retries" exception), after pauses of 1 s and 2 s.
   */
  lemma ThirdRateLimitFailureReraised<T>(respond: nat -> Outcome<T>)
    requires IsRateLimited(respond(0)) && IsRateLimited(respond(1)) && IsRateLimited(respond(2))
    ensures RetryFrom(respond, 0) == RetryRun(respond(2), 3, [1000, 2000])
  {
    RetryFromShape(respond, 0);
  }

  /** Rate-limited on attempts 1 and 2, success on attempt 3: the call succeeds after two pauses. */
  lemma RateLimitedTwiceThenSucceeds<T>(respond: nat -> Outcome<T>, v: T)
    requires IsRateLimited(respond(0)) && IsRateLimited(respond(1)) && respond(2) == Returned(v)
    ensures RetryFrom(respond, 0) == RetryRun(Returned(v), 3, [1000, 2000])
  {
    RetryFromShape(respond, 0);
  }

  /** Any exception text that mentions status 429 is a rate limit, whatever else it says. */
  lemma StatusCode429IsRateLimit(message: string, i: nat)
    requires PyText.OccursAt(message, "429", i)
    ensures IsRateLimitError(message)
  {
    var m := PyText.Lower(message);
    assert m[i..i + 3] == message[i..i + 3];
    assert PyText.OccursAt(m, "429", i);
  }

  /** The successive answers of an SDK endpoint to one request. */
  function AnswersFor<A>(api: (IssueKey, nat) -> A, key: IssueKey): nat -> A
  {
    (n: nat) => api(key, n)
  }

  /** The successive answers of the SDK's field update to one update request. */
  function UpdateAnswers(api: (IssueKey, FieldId, string, nat) -> Outcome<()>, key: IssueKey, fieldId: FieldId, value: string): nat -> Outcome<()>
  {
    (n: nat) => api(key, fieldId, value, n)
  }

  /** The successive answers of the SDK's search to the page starting at `startAt`. */
  function SearchAnswers(api: (nat, nat) -> Outcome<seq<IssueKey>>, startAt: nat): nat -> Outcome<seq<IssueKey>>
  {
    (n: nat) => api(startAt, n)
  }

  /**
   * What `search_issues` gives for the page starting at `startAt` (the query and page size are
   * fixed by its one caller): the outcome of the search through the retry loop.
   */
  function Searched(searchApi: (nat, nat) -> Outcome<seq<IssueKey>>, startAt: nat): Outcome<seq<IssueKey>>
  {
    RetryFrom(SearchAnswers(searchApi, startAt), 0).result
  }

  /** What `get_issue(key)` gives: the outcome of the fetch through the retry loop. */
  function Fetched(issueApi: (IssueKey, nat) -> Outcome<Option<Issue>>, key: IssueKey): Outcome<Option<Issue>>
  {
    RetryFrom(AnswersFor(issueApi, key), 0).result
  }

  /** Whether `get_issue(key)` gives an issue: the fetch returns and the issue exists. */
  predicate IssueFound(issueApi: (IssueKey, nat) -> Outcome<Option<Issue>>, key: IssueKey)
  {
    var fetched := Fetched(issueApi, key);
    fetched.Returned? && fetched.value.Some?
  }

  /**
   * Whether `update_issue_field(key, fieldId, value)` reports success: the issue is fetched and
   * exists, and the update returns (through the retry loop).
   */
  predicate UpdateAccepted(key: IssueKey, fieldId: FieldId, value: string,
                           issueApi: (IssueKey, nat) -> Outcome<Option<Issue>>,
                           updateApi: (IssueKey, FieldId, string, nat) -> Outcome<()>)
  {
    IssueFound(issueApi, key) && RetryFrom(UpdateAnswers(updateApi, key, fieldId, value), 0).result.Returned?
  }

  /** One `issue.update(fields={fieldId: value})` request sent to the tracker for the issue `key`. */
  datatype FieldWrite = FieldWrite(key: IssueKey, fieldId: FieldId, value: string)

  /** The total of a list of pauses, in ms. */
  function TotalMs(pauses: seq<nat>): nat
  {
    if pauses == [] then 0 else TotalMs(pauses[..|pauses| - 1]) + pauses[|pauses| - 1]
  }

  /**
   * One attempt of the retry loop, seen from the whole run: when `backoffs` are the pauses taken
   * before `attempt`, a retried attempt adds its backoff and moves to the next attempt, and any
   * other outcome is the result of the whole run.
   */
  lemma RetryAdvance<T>(respond: nat -> Outcome<T>, attempt: nat, backoffs: seq<nat>)
    requires attempt < MaxRetries
    requires var rest := RetryFrom(respond, attempt);
      RetryFrom(respond, 0) == RetryRun(rest.result, attempt + rest.invocations, backoffs + rest.backoffsMs)
    ensures IsRateLimited(respond(attempt)) && attempt < MaxRetries - 1 ==>
      var rest := RetryFrom(respond, attempt + 1);
      RetryFrom(respond, 0) == RetryRun(rest.result, attempt + 1 + rest.invocations, (backoffs + [BackoffMs(attempt)]) + rest.backoffsMs)
    ensures !(IsRateLimited(respond(attempt)) && attempt < MaxRetries - 1) ==>
      RetryFrom(respond, 0) == RetryRun(respond(attempt), attempt + 1, backoffs)
  {
    if IsRateLimited(respond(attempt)) && attempt < MaxRetries - 1 {
      var rest := RetryFrom(respond, attempt + 1);
      assert (backoffs + [BackoffMs(attempt)]) + rest.backoffsMs == backoffs + ([BackoffMs(attempt)] + rest.backoffsMs);
    } else {
      assert backoffs + [] == backoffs;
    }
  }

  /** Adding one pause to the end adds it to the total. */
  lemma TotalMsSnoc(pauses: seq<nat>, ms: nat)
    ensures TotalMs(pauses + [ms]) == TotalMs(pauses) + ms
  {
    assert (pauses + [ms])[..|pauses|] == pauses;
  }

  class JiraClient {
    /** The modelled wall clock, `time.time()`, in ms. */
    var now: int
    /** `last_api_call`: the clock reading taken just before the latest call. */
    var lastApiCall: int
    /** The update requests sent to the tracker so far, oldest first. */
    ghost var writes: seq<FieldWrite>

    ghost predicate Valid()
      reads this
    {
      lastApiCall <= now
    }

    constructor (startMs: int)
      requires startMs >= 0
      ensures Valid() && now == startMs && lastApiCall == 0 && writes == []
    {
      now := startMs;
      lastApiCall := 0;
      writes := [];
    }

    /** `time.sleep(ms / 1000)`. */
    method Sleep(ms: nat)
      requires Valid()
      modifies this
      ensures Valid()
      ensures now == old(now) + ms && lastApiCall == old(lastApiCall) && writes == old(writes)
    {
      now := now + ms;
    }

    /**
     * `_rate_limit_delay`: wait out what is left of the minimum spacing, then stamp the clock.
     * Two successive stamps are always at least `MinDelayMs` apart.
     */
    method RateLimitDelay() returns (waited: nat)
      requires Valid()
      modifies this
      ensures Valid() && lastApiCall == now
      ensures waited == if old(now - lastApiCall) < MinDelayMs then MinDelayMs - old(now - lastApiCall) else 0
      ensures now == old(now) + waited
      ensures lastApiCall >= old(lastApiCall) + MinDelayMs
      ensures writes == old(writes)
    {
      var elapsed := now - lastApiCall;
      waited := 0;
      if elapsed < MinDelayMs {
        waited := MinDelayMs - elapsed;
        Sleep(waited);
      }
      lastApiCall := now;
    }

    /**
     * `_api_call_with_retry`: its result, invocation count and pauses are those of `RetryFrom`,
     * every invocation was paced at least `MinDelayMs` after the one before, the clock advanced by
     * at least the backoff pauses, and no update request was sent by the loop itself.
     */
    method ApiCallWithRetry<T>(respond: nat -> Outcome<T>) returns (r: Outcome<T>, invocations: nat, backoffs: seq<nat>)
      requires Valid()
      modifies this
      ensures Valid()
      ensures RetryRun(r, invocations, backoffs) == RetryFrom(respond, 0)
      ensures lastApiCall >= old(lastApiCall) + MinDelayMs * invocations
      ensures now >= old(now) + TotalMs(backoffs)
      ensures writes == old(writes)
    {
      invocations, backoffs := 0, [];
      var attempt := 0;
      while attempt < MaxRetries
        invariant Valid()
        invariant 0 <= attempt <= MaxRetries && invocations == attempt
        invariant lastApiCall >= old(lastApiCall) + MinDelayMs * attempt
        invariant now >= old(now) + TotalMs(backoffs) && writes == old(writes)
        invariant var rest := RetryFrom(respond, attempt);
          RetryFrom(respond, 0) == RetryRun(rest.result, attempt + rest.invocations, backoffs + rest.backoffsMs)
      {
        var _ := RateLimitDelay();
        var o := respond(attempt);
        invocations := invocations + 1;
        RetryAdvance(respond, attempt, backoffs);
        if o.Returned? {
          return o, invocations, backoffs;
        }
        if IsRateLimitError(o.message) {
          if attempt < MaxRetries - 1 {
            var delay := BackoffMs(attempt);
            Sleep(delay);
            TotalMsSnoc(backoffs, delay);
            backoffs := backoffs + [delay];
            attempt := attempt + 1;
            continue;
          }
        }
        return o, invocations, backoffs;
      }
      r := Raised(MaxRetriesMessage);
    }

    /** `get_issue`: the SDK's issue fetch for `key`, through the retry loop. */
    method GetIssue(key: IssueKey, issueApi: (IssueKey, nat) -> Outcome<Option<Issue>>) returns (r: Outcome<Option<Issue>>)
      requires Valid()
      modifies this
      ensures Valid()
      ensures r == Fetched(issueApi, key)
      ensures now >= old(now) && writes == old(writes)
    {
      var invocations, backoffs;
      r, invocations, backoffs := ApiCallWithRetry(AnswersFor(issueApi, key));
    }

    /** `search_issues` for the page starting at `startAt`, through the retry loop; it returns the page's issue keys. */
    method SearchIssues(startAt: nat, searchApi: (nat, nat) -> Outcome<seq<IssueKey>>) returns (r: Outcome<seq<IssueKey>>)
      requires Valid()
      modifies this
      ensures Valid()
      ensures r == Searched(searchApi, startAt)
      ensures now >= old(now) && writes == old(writes)
    {
      var invocations, backoffs;
      r, invocations, backoffs := ApiCallWithRetry(SearchAnswers(searchApi, startAt));
    }

    /**
     * `update_issue_field`: fetch the issue again, then update the one field, each through the
     * retry loop. True exactly when the fetch gave an issue and the update returned; every
     * exception is swallowed. The update request is sent exactly when the fetch gave an issue.
     */
    method UpdateIssueField(key: IssueKey, fieldId: FieldId, value: string,
                            issueApi: (IssueKey, nat) -> Outcome<Option<Issue>>,
                            updateApi: (IssueKey, FieldId, string, nat) -> Outcome<()>)
      returns (ok: bool, updateInvocations: nat)
      requires Valid()
      modifies this
      ensures Valid()
      ensures ok == UpdateAccepted(key, fieldId, value, issueApi, updateApi)
      ensures var fetched := Fetched(issueApi, key);
        && (fetched.Returned? && fetched.value.Some? ==>
              updateInvocations == RetryFrom(UpdateAnswers(updateApi, key, fieldId, value), 0).invocations)
        && (!(fetched.Returned? && fetched.value.Some?) ==> updateInvocations == 0)
      ensures writes == old(writes) + (if IssueFound(issueApi, key) then [FieldWrite(key, fieldId, value)] else [])
      ensures now >= old(now)
    {
      var issue := GetIssue(key, issueApi);
      if issue.Raised? || issue.value.None? {
        return false, 0;
      }
      writes := writes + [FieldWrite(key, fieldId, value)];
      var r, backoffs;
      r, updateInvocations, backoffs := ApiCallWithRetry(UpdateAnswers(updateApi, key, fieldId, value));
      ok := r.Returned?;
    }
  }
}
