/** `crawler/requester.py`: the retry loop of `make_request`, `parse_retry_after`,
    the adaptive delay update and the link filter of `find_article_links`.

    The network is an oracle: `Responses` gives, for each attempt number, what
    `requests.get` produced.  `time.sleep` is not performed: every wait is
    recorded, in order, in a wait log.
 */
module Requester {
  import opened Common
  import opened Urls

  /** `config.py`: MAX_RETRIES, MIN_DELAY and MAX_DELAY. */
  const MaxRetries: int := 5
  const MinDelay: real := 2.0
  const MaxDelay: real := 30.0

  /** What one `requests.get` attempt produced. */
  datatype Attempt =
    | Response(status: int, retryAfter: Option<string>)  // status code and the Retry-After header, if any
    | RequestFailed                                      // requests raised a RequestException (timeout, connection error, ...)

  /** `responses(k)` is what the k-th attempt (k >= 1) produces. */
  type Responses = nat -> Attempt

  datatype RequestOutcome =
    | Fetched(attempt: nat)        // the response of this attempt is returned
    | Exhausted                    // HTTPError after max_retries attempts
    | SleepRejected(attempt: nat)  // time.sleep raised ValueError or OverflowError; it escapes make_request

  function Pow2(n: nat): (r: nat)
    ensures r >= 1
  {
    if n == 0 then 1 else 2 * Pow2(n - 1)
  }

  /** `delay * 2 ** (attempt - 1)`, with no ceiling. */
  function Backoff(delay: real, attempt: nat): real
    requires attempt >= 1
  {
    delay * Pow2(attempt - 1) as real
  }

  /** The backoff written out. */
  lemma BackoffIs(delay: real, attempt: nat)
    requires attempt >= 1
    ensures Backoff(delay, attempt) == delay * Pow2(attempt - 1) as real
  {
  }

  /** 429 Too Many Requests, 503 Service Unavailable and 403 Forbidden. */
  predicate IsThrottled(status: int) {
    status == 429 || status == 503 || status == 403
  }

  /** `raise_for_status()` raises HTTPError, a RequestException, exactly for 4xx and 5xx. */
  predicate RaisesForStatus(status: int) {
    400 <= status < 600
  }

  /** What the loop body does with one attempt. */
  datatype Step =
    | Done           // status 200: return the response
    | Wait(seconds: real)  // sleep, then go on to the next attempt
    | Skip           // any other status below 400 or from 600: next attempt at once
    | Crash          // time.sleep was handed a duration it refuses

  /** `time.sleep(w)`: it sleeps, or it raises on a negative or overlong `w`. */
  function Pause(w: real): Step {
    if SleepOk(w) then Wait(w) else Crash
  }

  function AttemptStep(a: Attempt, delay: real, attempt: nat): Step
    requires attempt >= 1
  {
    match a
    case RequestFailed => Pause(Backoff(delay, attempt))
    case Response(status, retryAfter) =>
      if status == 200 then Done
      else if IsThrottled(status) then
        if retryAfter.Some? && retryAfter.value != "" then
          match ParseInt(retryAfter.value)
          case Some(n) => Pause(n as real)
          case None => Pause(Backoff(delay, attempt))
        else Pause(Backoff(delay, attempt))
      else if RaisesForStatus(status) then Pause(Backoff(delay, attempt))
      else Skip
  }

  /** An attempt after which the loop goes on to the next one. */
  predicate Continues(s: Step) {
    s.Wait? || s.Skip?
  }

  /** The loop of `make_request` from attempt `attempt` on: the outcome and the waits slept. */
  function Retry(responses: Responses, maxRetries: int, delay: real, attempt: nat): (RequestOutcome, seq<real>)
    requires attempt >= 1
    decreases if attempt > maxRetries then 0 else maxRetries - attempt + 1
  {
    if attempt > maxRetries then (Exhausted, [])
    else
      match AttemptStep(responses(attempt), delay, attempt)
      case Done => (Fetched(attempt), [])
      case Crash => (SleepRejected(attempt), [])
      case Skip => Retry(responses, maxRetries, delay, attempt + 1)
      case Wait(w) =>
        var rest := Retry(responses, maxRetries, delay, attempt + 1);
        (rest.0, [w] + rest.1)
  }

  /** The returned attempt is one of those made, there is at most one wait per attempt,
      and every wait is one `time.sleep` accepts (any other ends the loop instead). */
  lemma {:induction false} RetryBounds(responses: Responses, maxRetries: int, delay: real, attempt: nat)
    requires attempt >= 1
    ensures var r := Retry(responses, maxRetries, delay, attempt);
      && (r.0.Fetched? ==> attempt <= r.0.attempt <= maxRetries)
      && (r.0.SleepRejected? ==> attempt <= r.0.attempt <= maxRetries)
      && |r.1| <= (if attempt > maxRetries then 0 else maxRetries - attempt + 1)
      && forall j :: 0 <= j < |r.1| ==> SleepOk(r.1[j])
    decreases if attempt > maxRetries then 0 else maxRetries - attempt + 1
  {
    if attempt <= maxRetries {
      RetryBounds(responses, maxRetries, delay, attempt + 1);
    }
  }

  /** One turn of the loop of `make_request`: either the request ends here with the outcome
      of the whole loop, or the attempt's wait is slept and the loop goes on with the next. */
  method Turn(responses: Responses, maxRetries: int, delay: real, attempt: nat) returns (stop: bool, outcome: RequestOutcome, wait: seq<real>)
    requires 1 <= attempt <= maxRetries
    ensures stop ==> (outcome, wait) == Retry(responses, maxRetries, delay, attempt)
    ensures !stop ==> var rest := Retry(responses, maxRetries, delay, attempt + 1);
      Retry(responses, maxRetries, delay, attempt) == (rest.0, wait + rest.1)
  {
    match AttemptStep(responses(attempt), delay, attempt)
    case Done =>
      return true, Fetched(attempt), [];
    case Crash =>
      return true, SleepRejected(attempt), [];
    case Skip =>
      assert [] + Retry(responses, maxRetries, delay, attempt + 1).1 == Retry(responses, maxRetries, delay, attempt + 1).1;
      return false, Exhausted, [];
    case Wait(w) =>
      return false, Exhausted, [w];
  }

  /** `make_request(url, headers, max_retries)` with `delay` as the base of the backoff. */
  method MakeRequest(responses: Responses, maxRetries: int, delay: real) returns (outcome: RequestOutcome, waits: seq<real>)
    ensures (outcome, waits) == Retry(responses, maxRetries, delay, 1)
    ensures maxRetries <= 0 ==> outcome == Exhausted && waits == []
  {
    ghost var total := Retry(responses, maxRetries, delay, 1);
    waits := [];
    outcome := Exhausted;
    var attempt := 1;
    var stop := false;
    assert [] + total.1 == total.1 && total == (total.0, total.1);
    while attempt <= maxRetries && !stop
      invariant attempt >= 1
      invariant !stop ==> outcome == Exhausted && total.0 == Retry(responses, maxRetries, delay, attempt).0
      invariant !stop ==> total.1 == waits + Retry(responses, maxRetries, delay, attempt).1
      invariant stop ==> (outcome, waits) == total
      decreases maxRetries - attempt + (if stop then 0 else 1)
    {
      ghost var rest := Retry(responses, maxRetries, delay, attempt + 1);
      var result, wait;
      stop, result, wait := Turn(responses, maxRetries, delay, attempt);
      if stop {
        outcome := result;
      } else {
        assert (waits + wait) + rest.1 == waits + (wait + rest.1);
        attempt := attempt + 1;
      }
      waits := waits + wait;
    }
    if !stop {
      assert Retry(responses, maxRetries, delay, attempt) == (Exhausted, []);
      assert waits + [] == waits;
    }
  }

  /** A status-200 response. */
  predicate IsOk(a: Attempt) {
    a.Response? && a.status == 200
  }

  /** An attempt ends the request with its response exactly when it answered 200. */
  lemma DoneIffOk(a: Attempt, delay: real, attempt: nat)
    requires attempt >= 1
    ensures AttemptStep(a, delay, attempt).Done? <==> IsOk(a)
  {
  }

  /** The outcome of the loop from an attempt that is made, given the attempt's step. */
  lemma RetryOutcomeStep(responses: Responses, maxRetries: int, delay: real, attempt: nat)
    requires 1 <= attempt <= maxRetries
    ensures var step := AttemptStep(responses(attempt), delay, attempt);
      var r := Retry(responses, maxRetries, delay, attempt).0;
      && (step.Done? ==> r == Fetched(attempt))
      && (step.Crash? ==> r == SleepRejected(attempt))
      && (Continues(step) ==> r == Retry(responses, maxRetries, delay, attempt + 1).0)
  {
  }

  /** `make_request` returns the response of attempt k exactly when k is within
      max_retries, attempt k answered 200, and every earlier attempt went on. */
  lemma {:induction false} RetryFetchedIff(responses: Responses, maxRetries: int, delay: real, attempt: nat, k: nat)
    requires attempt >= 1
    ensures Retry(responses, maxRetries, delay, attempt).0 == Fetched(k) <==>
      && attempt <= k <= maxRetries
      && IsOk(responses(k))
      && forall j :: attempt <= j < k ==> Continues(AttemptStep(responses(j), delay, j))
    decreases if attempt > maxRetries then 0 else maxRetries - attempt + 1
  {
    if attempt <= maxRetries {
      var step := AttemptStep(responses(attempt), delay, attempt);
      var r := Retry(responses, maxRetries, delay, attempt).0;
      RetryOutcomeStep(responses, maxRetries, delay, attempt);
      DoneIffOk(responses(attempt), delay, attempt);
      if Continues(step) {
        RetryFetchedIff(responses, maxRetries, delay, attempt + 1, k);
        assert r == Retry(responses, maxRetries, delay, attempt + 1).0;
        if k == attempt {
          assert !IsOk(responses(k));
        }
      } else if step.Done? {
        assert r == Fetched(attempt);
      } else {
        assert r == SleepRejected(attempt);
      }
    }
  }

  /** HTTPError is raised exactly when every one of the max_retries attempts went on;
      with max_retries <= 0 that holds at once, and no request is made. */
  lemma {:induction false} RetryExhaustedIff(responses: Responses, maxRetries: int, delay: real, attempt: nat)
    requires attempt >= 1
    ensures Retry(responses, maxRetries, delay, attempt).0 == Exhausted <==>
      forall j :: attempt <= j <= maxRetries ==> Continues(AttemptStep(responses(j), delay, j))
    decreases if attempt > maxRetries then 0 else maxRetries - attempt + 1
  {
    if attempt <= maxRetries {
      var step := AttemptStep(responses(attempt), delay, attempt);
      RetryOutcomeStep(responses, maxRetries, delay, attempt);
      if Continues(step) {
        RetryExhaustedIff(responses, maxRetries, delay, attempt + 1);
      }
    }
  }

  /** A failure that `make_request` catches and backs off from: a RequestException,
      or an error status outside 429/503/403. */
  predicate IsTransientError(a: Attempt) {
    a.RequestFailed? || (!IsThrottled(a.status) && RaisesForStatus(a.status))
  }

  /** A transient failure costs one exponential wait, or ends the request when that wait is
      longer than `time.sleep` accepts. */
  lemma TransientStep(a: Attempt, delay: real, attempt: nat)
    requires attempt >= 1 && delay >= 0.0 && IsTransientError(a)
    ensures Backoff(delay, attempt) <= MaxSleep ==> AttemptStep(a, delay, attempt) == Wait(Backoff(delay, attempt))
    ensures Backoff(delay, attempt) > MaxSleep ==> AttemptStep(a, delay, attempt) == Crash
  {
  }

  /** Later attempts back off at least as long. */
  lemma {:induction false} BackoffGrows(delay: real, attempt: nat, later: nat)
    requires 1 <= attempt <= later && delay >= 0.0
    ensures 0.0 <= Backoff(delay, attempt) <= Backoff(delay, later)
    decreases later - attempt
  {
    if attempt < later {
      BackoffGrows(delay, attempt, later - 1);
      assert Pow2(later - 1) == 2 * Pow2(later - 2);
    }
  }

  /** With the configured base (at most `MaxDelay`) all `MaxRetries` backoffs are short enough
      for `time.sleep`. */
  lemma ConfiguredBackoffFits(delay: real, attempt: nat)
    requires 0.0 <= delay <= MaxDelay && 1 <= attempt <= MaxRetries
    ensures SleepOk(Backoff(delay, attempt))
  {
    BackoffGrows(delay, attempt, MaxRetries);
    assert Pow2(MaxRetries - 1) == 16;
  }

  /** The waits of `n` backed-off attempts from attempt `attempt` on. */
  function BackoffSchedule(delay: real, attempt: nat, n: nat): (r: seq<real>)
    requires attempt >= 1
    ensures |r| == n
    decreases n
  {
    if n == 0 then [] else [Backoff(delay, attempt)] + BackoffSchedule(delay, attempt + 1, n - 1)
  }

  /** The schedule doubles from `delay * 2^(attempt-1)` with no ceiling. */
  lemma {:induction false} BackoffScheduleDoubles(delay: real, attempt: nat, n: nat)
    requires attempt >= 1
    ensures forall i :: 0 <= i < n ==> BackoffSchedule(delay, attempt, n)[i] == delay * Pow2(attempt - 1 + i) as real
    decreases n
  {
    if n > 0 {
      BackoffScheduleDoubles(delay, attempt + 1, n - 1);
      var rest := BackoffSchedule(delay, attempt + 1, n - 1);
      forall i | 1 <= i < n
        ensures BackoffSchedule(delay, attempt, n)[i] == delay * Pow2(attempt - 1 + i) as real
      {
        assert BackoffSchedule(delay, attempt, n)[i] == rest[i - 1];
        assert attempt + 1 - 1 + (i - 1) == attempt - 1 + i;
      }
    }
  }

  /** When every attempt fails this way and the last backoff is one `time.sleep` accepts,
      all max_retries attempts are made, each followed by its exponential wait, and then
      HTTPError is raised. */
  lemma {:induction false} TransientErrorsBackOffExponentially(responses: Responses, maxRetries: int, delay: real, attempt: nat)
    requires attempt >= 1 && delay >= 0.0
    requires forall j :: attempt <= j <= maxRetries ==> IsTransientError(responses(j))
    requires attempt <= maxRetries ==> Backoff(delay, maxRetries) <= MaxSleep
    ensures Retry(responses, maxRetries, delay, attempt)
         == (Exhausted, BackoffSchedule(delay, attempt, if attempt > maxRetries then 0 else maxRetries - attempt + 1))
    decreases if attempt > maxRetries then 0 else maxRetries - attempt + 1
  {
    if attempt <= maxRetries {
      BackoffGrows(delay, attempt, maxRetries);
      TransientStep(responses(attempt), delay, attempt);
      TransientErrorsBackOffExponentially(responses, maxRetries, delay, attempt + 1);
    }
  }

  /** When every attempt fails this way and the backoff of attempt k is too long for
      `time.sleep`, the waits before k are slept and the OverflowError of attempt k escapes. */
  lemma {:induction false} OverlongBackoffEscapes(responses: Responses, maxRetries: int, delay: real, attempt: nat, k: nat)
    requires 1 <= attempt <= k <= maxRetries && delay >= 0.0
    requires forall j :: attempt <= j <= k ==> IsTransientError(responses(j))
    requires Backoff(delay, k) > MaxSleep && (attempt < k ==> Backoff(delay, k - 1) <= MaxSleep)
    ensures Retry(responses, maxRetries, delay, attempt) == (SleepRejected(k), BackoffSchedule(delay, attempt, k - attempt))
    decreases k - attempt
  {
    TransientStep(responses(attempt), delay, attempt);
    if attempt < k {
      BackoffGrows(delay, attempt, k - 1);
      OverlongBackoffEscapes(responses, maxRetries, delay, attempt + 1, k);
    }
  }

  /** A status below 400 (other than 200) or from 600 up uses an attempt but no wait:
      if every attempt answers so, HTTPError follows with an empty wait log. */
  lemma {:induction false} NonErrorStatusesNeverWait(responses: Responses, maxRetries: int, delay: real, attempt: nat)
    requires attempt >= 1
    requires forall j :: attempt <= j <= maxRetries ==>
      responses(j).Response? && responses(j).status != 200 && !IsThrottled(responses(j).status)
      && !RaisesForStatus(responses(j).status)
    ensures Retry(responses, maxRetries, delay, attempt) == (Exhausted, [])
    decreases if attempt > maxRetries then 0 else maxRetries - attempt + 1
  {
    if attempt <= maxRetries {
      NonErrorStatusesNeverWait(responses, maxRetries, delay, attempt + 1);
    }
  }

  /** The largest whole number of seconds `time.sleep` accepts. */
  const MaxSleepSeconds: nat := 9223372036

  /** A whole number of seconds up to `MaxSleepSeconds` fits in `int()`'s digit limit. */
  lemma SleepSecondsDigits(n: nat)
    requires n <= MaxSleepSeconds
    ensures |Magnitude(n)| <= MaxStrDigits
  {
    NatDigitsBound(n, 10);
  }

  /** A 429/503/403 whose Retry-After is the decimal n, 0 <= n <= `MaxSleepSeconds`,
      sleeps exactly n seconds, then the loop carries on with the next attempt. */
  lemma RetryAfterSecondsHonoured(responses: Responses, maxRetries: int, delay: real, attempt: nat, n: nat)
    requires 1 <= attempt <= maxRetries && n <= MaxSleepSeconds
    requires responses(attempt).Response? && IsThrottled(responses(attempt).status)
    requires responses(attempt).retryAfter == Some(Decimal(n))
    ensures Retry(responses, maxRetries, delay, attempt)
         == (Retry(responses, maxRetries, delay, attempt + 1).0, [n as real] + Retry(responses, maxRetries, delay, attempt + 1).1)
  {
    SleepSecondsDigits(n);
    ParseIntRoundTrip(n);
  }

  /** A negative Retry-After makes time.sleep raise ValueError, which make_request does not catch. */
  lemma NegativeRetryAfterEscapes(responses: Responses, maxRetries: int, delay: real, attempt: nat, n: int)
    requires 1 <= attempt <= maxRetries && n < 0 && |Magnitude(n)| <= MaxStrDigits
    requires responses(attempt).Response? && IsThrottled(responses(attempt).status)
    requires responses(attempt).retryAfter == Some(Decimal(n))
    ensures Retry(responses, maxRetries, delay, attempt) == (SleepRejected(attempt), [])
  {
    ParseIntRoundTrip(n);
  }

  /** A Retry-After beyond `MaxSleepSeconds` makes time.sleep raise OverflowError, which
      make_request does not catch either. */
  lemma RetryAfterTooLongEscapes(responses: Responses, maxRetries: int, delay: real, attempt: nat, n: nat)
    requires 1 <= attempt <= maxRetries && n > MaxSleepSeconds && |Magnitude(n)| <= MaxStrDigits
    requires responses(attempt).Response? && IsThrottled(responses(attempt).status)
    requires responses(attempt).retryAfter == Some(Decimal(n))
    ensures Retry(responses, maxRetries, delay, attempt) == (SleepRejected(attempt), [])
  {
    ParseIntRoundTrip(n);
  }

  /** A Retry-After integer with more digits than `int()` accepts is treated like any other
      unparsable value: the request backs off exponentially instead. */
  lemma OverlongRetryAfterBacksOff(responses: Responses, maxRetries: int, delay: real, attempt: nat, n: int)
    requires 1 <= attempt <= maxRetries && |Magnitude(n)| > MaxStrDigits
    requires responses(attempt).Response? && IsThrottled(responses(attempt).status)
    requires responses(attempt).retryAfter == Some(Decimal(n))
    ensures AttemptStep(responses(attempt), delay, attempt) == Pause(Backoff(delay, attempt))
  {
    ParseIntRejectsLongDecimal(n);
  }

  /** 503 with `Retry-After: 2`, then 200: one wait of exactly two seconds, and the second response is returned. */
  lemma ServiceUnavailableThenOk(responses: Responses, delay: real)
    requires responses(1) == Response(503, Some("2"))
    requires responses(2) == Response(200, None)
    ensures Retry(responses, MaxRetries, delay, 1) == (Fetched(2), [2.0])
  {
    assert Decimal(2) == "2";
    RetryAfterSecondsHonoured(responses, MaxRetries, delay, 1, 2);
    assert Retry(responses, MaxRetries, delay, 2) == (Fetched(2), []);
    assert [2 as real] + [] == [2.0];
  }

  // ---------------------------------------------------------------------
  // parse_retry_after

  /** `parse_retry_after` as written: an integer is returned as is (None stands for an
      exception).  Any other value reaches `parsedate_to_datetime`, which raises on a
      non-date, and for a date the next line reads `datetime.timezone` on the class
      `datetime`, which raises AttributeError: that branch never returns. */
  function ParseRetryAfter(retryAfter: string, delay: real, attempt: nat): (r: Option<real>)
    requires attempt >= 1
    ensures r.Some? <==> ParseInt(retryAfter).Some?
    ensures r.Some? ==> r.value == ParseInt(retryAfter).value as real
  {
    match ParseInt(retryAfter)
    case Some(n) => Some(n as real)
    case None => None
  }

  /** Any value that starts with a letter, as every HTTP date (section 7.1.1.1 of RFC 7231)
      does, makes the code as written raise. */
  lemma ParseRetryAfterRaisesOnHttpDate(retryAfter: string, delay: real, attempt: nat)
    requires attempt >= 1
    requires retryAfter != [] && IsAsciiLetter(retryAfter[0]) && !IsSpace(retryAfter[|retryAfter| - 1])
    ensures ParseRetryAfter(retryAfter, delay, attempt).None?
  {
    StripUnchanged(retryAfter);
    if IsDigitGroup(retryAfter) {
      DigitGroupEnds(retryAfter);
    }
  }

  /** The behaviour the docstring describes: integer seconds, or the time from now until an
      HTTP date (`untilDate`, None when the value is not a date), falling back to the
      exponential wait when that date is already past. */
  function ParseRetryAfterIntended(retryAfter: string, untilDate: Option<real>, delay: real, attempt: nat): (r: Option<real>)
    requires attempt >= 1
    ensures ParseInt(retryAfter).Some? ==> r == Some(ParseInt(retryAfter).value as real)
    ensures ParseInt(retryAfter).None? ==> (r.Some? <==> untilDate.Some?)
    ensures ParseInt(retryAfter).None? && untilDate.Some? && delay >= 0.0 ==> r.value >= 0.0
  {
    match ParseInt(retryAfter)
    case Some(n) => Some(n as real)
    case None =>
      match untilDate
      case None => None
      case Some(offset) => Some(if offset < 0.0 then Backoff(delay, attempt) else offset)
  }

  /** For a date the intended parser returns the offset when it lies ahead, else the backoff. */
  lemma IntendedRetryAfterDate(retryAfter: string, offset: real, delay: real, attempt: nat)
    requires attempt >= 1 && ParseInt(retryAfter).None?
    ensures ParseRetryAfterIntended(retryAfter, Some(offset), delay, attempt)
         == Some(if offset >= 0.0 then offset else delay * Pow2(attempt - 1) as real)
  {
    var r := ParseRetryAfterIntended(retryAfter, Some(offset), delay, attempt);
    assert r == Some(if offset < 0.0 then Backoff(delay, attempt) else offset);
    BackoffIs(delay, attempt);
  }

  // ---------------------------------------------------------------------
  // Adaptive delay

  /** `max(1, delay / 2)` after a successful fetch. */
  function AfterSuccess(delay: real): (r: real)
    ensures r >= 1.0
    ensures delay >= 1.0 ==> r <= delay
    ensures delay >= 2.0 ==> r * 2.0 == delay
  {
    if 1.0 >= delay / 2.0 then 1.0 else delay / 2.0
  }

  /** `min(ceiling, delay * 2)` after a failed one. */
  function AfterFailure(delay: real, ceiling: real): (r: real)
    ensures r <= ceiling
    ensures 0.0 <= delay <= ceiling ==> delay <= r
    ensures delay * 2.0 <= ceiling ==> r == delay * 2.0
  {
    if ceiling <= delay * 2.0 then ceiling else delay * 2.0
  }

  /** The delay after a run of fetches (true for success, false for failure). */
  function DelayAfter(delay: real, ceiling: real, outcomes: seq<bool>): real
    decreases |outcomes|
  {
    if outcomes == [] then delay
    else DelayAfter(if outcomes[0] then AfterSuccess(delay) else AfterFailure(delay, ceiling), ceiling, outcomes[1..])
  }

  /** A delay in [1, ceiling] stays there whatever the fetches do. */
  lemma {:induction false} DelayStaysInRange(delay: real, ceiling: real, outcomes: seq<bool>)
    requires 1.0 <= delay <= ceiling
    ensures 1.0 <= DelayAfter(delay, ceiling, outcomes) <= ceiling
    decreases |outcomes|
  {
    if outcomes != [] {
      var next := if outcomes[0] then AfterSuccess(delay) else AfterFailure(delay, ceiling);
      DelayStaysInRange(next, ceiling, outcomes[1..]);
    }
  }

  /** The floor is 1 second, below MIN_DELAY: one success takes MIN_DELAY out of [MIN_DELAY, MAX_DELAY]. */
  lemma SuccessDropsBelowMinDelay()
    ensures AfterSuccess(MinDelay) == 1.0 < MinDelay
  {
  }

  // ---------------------------------------------------------------------
  // The link filter of find_article_links

  /** The link up to its first `#` or `?`: the fragment and the query string are dropped. */
  function Cut(link: string): string {
    UpTo(link, {'#', '?'})
  }

  /** The cut link is a prefix of the link holding neither `#` nor `?`, and a link
      without them is left as it is. */
  lemma CutSpec(link: string)
    ensures '#' !in Cut(link) && '?' !in Cut(link)
    ensures StartsWith(link, Cut(link))
    ensures '#' !in link && '?' !in link ==> Cut(link) == link
  {
    var r := Cut(link);
    assert forall j :: 0 <= j < |r| ==> r[j] != '#' && r[j] != '?';
  }

  /** `Cut` is `link.split('#')[0].split('?')[0]`. */
  lemma CutSplitsTwice(link: string)
    ensures Cut(link) == Before(Before(link, '#'), '?')
  {
    UpToBeforeTwice(link, '#', '?');
  }

  lemma CutIdempotent(link: string)
    ensures Cut(Cut(link)) == Cut(link)
  {
  }

  /** Cutting after a prefix free of `#` and `?` leaves the prefix alone. */
  lemma CutAfterPrefix(a: string, b: string)
    requires '#' !in a && '?' !in a
    ensures Cut(a + b) == a + Cut(b)
  {
    IndexOfAnyAppend(a, b, {'#', '?'});
    assert (a + b)[..|a| + IndexOfAny(b, {'#', '?'})] == a + b[..IndexOfAny(b, {'#', '?'})];
  }

  /** The link one href gives on a page whose base URL is `base`, or None where the loop `continue`s:
      an href starting with `/` is joined to the base URL, one starting with the base URL
      (a plain string-prefix test) is kept, and either is cut at `#` and `?`. */
  function LinkFor(base: string, href: string): Option<string>
  {
    if StartsWith(href, "/") then Some(Cut(UrlJoin(base, href)))
    else if StartsWith(href, base) then Some(Cut(href))
    else None
  }

  /** What each href gives, in href order. */
  function HrefLinks(base: string, hrefs: seq<string>): seq<Option<string>> {
    MapSeq(hrefs, href => LinkFor(base, href))
  }

  /** The links the loop appends, given what each href gives: the links present and not in
      `visited`, in order. */
  function Unvisited(heads: seq<Option<string>>, visited: set<string>): seq<string> {
    if heads == [] then []
    else
      (if heads[0].Some? && heads[0].value !in visited then [heads[0].value] else [])
      + Unvisited(heads[1..], visited)
  }

  /** The links the loop appends, in href order, dropping those already in `visited`. */
  function ArticleLinks(base: string, hrefs: seq<string>, visited: set<string>): seq<string> {
    Unvisited(HrefLinks(base, hrefs), visited)
  }

  /** One step of the loop: the links gathered so far, followed by what the rest gives. */
  lemma UnvisitedStep(heads: seq<Option<string>>, visited: set<string>, i: nat, links: seq<string>)
    requires i < |heads|
    ensures links + Unvisited(heads[i..], visited)
      == (if heads[i].Some? && heads[i].value !in visited then links + [heads[i].value] else links)
         + Unvisited(heads[i + 1..], visited)
  {
    assert heads[i..][1..] == heads[i + 1..];
  }

  /** One pass of the loop body: the link an href gives, or None where it `continue`s. */
  method LinkOf(base: string, href: string) returns (link: Option<string>)
    ensures link == LinkFor(base, href)
  {
    var target: string;
    if StartsWith(href, "/") {
      target := UrlJoin(base, href);
    } else if StartsWith(href, base) {
      target := href;
    } else {
      return None;
    }
    link := Some(Cut(target));
  }

  /** The `for link_tag in soup.find_all('a', href=True)` loop, once `base_url` is computed. */
  method CollectLinks(base: string, hrefs: seq<string>, visited: set<string>) returns (links: seq<string>)
    ensures links == ArticleLinks(base, hrefs, visited)
  {
    ghost var heads := HrefLinks(base, hrefs);
    links := [];
    for i := 0 to |hrefs|
      invariant links + Unvisited(heads[i..], visited) == Unvisited(heads, visited)
    {
      UnvisitedStep(heads, visited, i, links);
      var link := LinkOf(base, hrefs[i]);
      assert link == heads[i];
      if link.Some? && link.value !in visited {
        links := links + [link.value];
      }
    }
    assert heads[|hrefs|..] == [];
  }

  /** The filter of a concatenation is the concatenation of the filters. */
  lemma {:induction false} UnvisitedConcat(a: seq<Option<string>>, b: seq<Option<string>>, visited: set<string>)
    ensures Unvisited(a + b, visited) == Unvisited(a, visited) + Unvisited(b, visited)
  {
    if a == [] {
      assert a + b == b;
    } else {
      assert (a + b)[1..] == a[1..] + b;
      UnvisitedConcat(a[1..], b, visited);
    }
  }

  /** Links keep href order: the links of two runs of hrefs are those of the first run
      followed by those of the second. */
  lemma ArticleLinksConcat(base: string, a: seq<string>, b: seq<string>, visited: set<string>)
    ensures ArticleLinks(base, a + b, visited) == ArticleLinks(base, a, visited) + ArticleLinks(base, b, visited)
  {
    MapSeqAppend(a, b, href => LinkFor(base, href));
    UnvisitedConcat(HrefLinks(base, a), HrefLinks(base, b), visited);
  }

  /** Every link the filter keeps is present among the heads and not in `visited`. */
  lemma {:induction false} UnvisitedSound(heads: seq<Option<string>>, visited: set<string>)
    ensures forall l :: l in Unvisited(heads, visited) ==>
      l !in visited && exists i :: 0 <= i < |heads| && heads[i] == Some(l)
  {
    if heads != [] {
      UnvisitedSound(heads[1..], visited);
      forall l | l in Unvisited(heads[1..], visited)
        ensures exists i :: 0 <= i < |heads| && heads[i] == Some(l)
      {
        var i :| 0 <= i < |heads[1..]| && heads[1..][i] == Some(l);
        assert heads[i + 1] == heads[1..][i];
      }
    }
  }

  /** A link an href gives holds neither `#` nor `?`. */
  lemma LinkForCut(base: string, href: string)
    ensures LinkFor(base, href).Some? ==> '#' !in LinkFor(base, href).value && '?' !in LinkFor(base, href).value
  {
    if StartsWith(href, "/") {
      CutSpec(UrlJoin(base, href));
    } else {
      CutSpec(href);
    }
  }

  /** Every returned link is free of `#` and `?`, is not in `visited`, and is what some href gives. */
  lemma ArticleLinksSound(base: string, hrefs: seq<string>, visited: set<string>)
    ensures forall l :: l in ArticleLinks(base, hrefs, visited) ==>
      && '#' !in l && '?' !in l && l !in visited
      && exists i :: 0 <= i < |hrefs| && LinkFor(base, hrefs[i]) == Some(l)
  {
    var heads := HrefLinks(base, hrefs);
    UnvisitedSound(heads, visited);
    forall l | l in ArticleLinks(base, hrefs, visited)
      ensures '#' !in l && '?' !in l
      ensures exists i :: 0 <= i < |hrefs| && LinkFor(base, hrefs[i]) == Some(l)
    {
      var i :| 0 <= i < |heads| && heads[i] == Some(l);
      LinkForCut(base, hrefs[i]);
    }
  }

  /** Every head present and not in `visited` is kept. */
  lemma {:induction false} UnvisitedComplete(heads: seq<Option<string>>, visited: set<string>, i: nat)
    requires i < |heads| && heads[i].Some? && heads[i].value !in visited
    ensures heads[i].value in Unvisited(heads, visited)
  {
    if i > 0 {
      assert heads[1..][i - 1] == heads[i];
      UnvisitedComplete(heads[1..], visited, i - 1);
    }
  }

  /** Every href that gives a link not yet visited contributes that link. */
  lemma ArticleLinksComplete(base: string, hrefs: seq<string>, visited: set<string>, i: nat)
    requires i < |hrefs|
    requires LinkFor(base, hrefs[i]).Some? && LinkFor(base, hrefs[i]).value !in visited
    ensures LinkFor(base, hrefs[i]).value in ArticleLinks(base, hrefs, visited)
  {
    UnvisitedComplete(HrefLinks(base, hrefs), visited, i);
  }

  /** A larger visited set only removes links. */
  lemma {:induction false} UnvisitedAntitone(heads: seq<Option<string>>, v1: set<string>, v2: set<string>)
    requires v1 <= v2
    ensures forall l :: l in Unvisited(heads, v2) ==> l in Unvisited(heads, v1)
  {
    if heads != [] {
      UnvisitedAntitone(heads[1..], v1, v2);
    }
  }

  /** A larger visited set returns no new links. */
  lemma ArticleLinksAntitone(base: string, hrefs: seq<string>, v1: set<string>, v2: set<string>)
    requires v1 <= v2
    ensures forall l :: l in ArticleLinks(base, hrefs, v2) ==> l in ArticleLinks(base, hrefs, v1)
  {
    UnvisitedAntitone(HrefLinks(base, hrefs), v1, v2);
  }

  /** Filtering a link the filter produced, on a page of the same site, gives it back.
      (Every page's base URL is non-empty and does not start with `/`.) */
  lemma LinkForIdempotent(base: string, href: string)
    requires base != [] && base[0] != '/'
    requires LinkFor(base, href).Some? && StartsWith(LinkFor(base, href).value, base)
    ensures LinkFor(base, LinkFor(base, href).value) == LinkFor(base, href)
  {
    var l := LinkFor(base, href).value;
    LinkForCut(base, href);
    var rest := l[|base|..];
    assert l == base + rest;
    assert '#' !in base && '?' !in base && '#' !in rest && '?' !in rest by {
      assert forall c :: c in base ==> c in l;
      assert forall c :: c in rest ==> c in l;
    }
    PrefixTestAdmitsLookalikeHost(base, rest);
  }

  /** Cutting what `urlunsplit` writes leaves the part before the query, when that part
      holds no `#` or `?`. */
  lemma CutUnsplit(scheme: string, netloc: string, url: string, query: string, fragment: string)
    requires '#' !in UnsplitHead(scheme, netloc, url) && '?' !in UnsplitHead(scheme, netloc, url)
    ensures Cut(UrlUnsplit(scheme, netloc, url, query, fragment)) == UnsplitHead(scheme, netloc, url)
  {
    var head := UnsplitHead(scheme, netloc, url);
    var tail := (if query != "" then "?" + query else "") + (if fragment != "" then "#" + fragment else "");
    assert UrlUnsplit(scheme, netloc, url, query, fragment) == head + tail;
    CutAfterPrefix(head, tail);
    assert tail != [] ==> tail[0] in {'#', '?'};
    assert Cut(tail) == [];
    assert head + [] == head;
  }

  /** The page's own site: a scheme `urljoin` resolves against and a network location. */
  predicate OnSite(page: string) {
    Scheme(page) != "" && UsesRelative(Scheme(page)) && Netloc(page) != ""
  }

  /** The path the link of a root-relative href ends with: the href's path with its dot
      segments resolved and its parameters put back, under a leading `/`; nothing when the
      href's path is empty. */
  function SitePath(r: ParseResult): string {
    if r.path == "" then "" else Rooted(WithParams(ResolvePath(r.path), r.params))
  }

  /** An href `/path` without a network location of its own stays on the page's site: its
      link is the base URL followed by nothing or by `/` and the resolved path, with the
      query and fragment dropped. (So it never lands on a host that merely starts with the
      page's host.) */
  lemma RootRelativeStaysOnSite(page: string, href: string)
    requires OnSite(page)
    requires StartsWith(href, "/") && Netloc(href) == ""
    ensures LinkFor(BaseUrl(page), href) == Some(BaseUrl(page) + SitePath(UrlParse(href, Scheme(page))))
    ensures var link := LinkFor(BaseUrl(page), href).value;
      StartsWith(link, BaseUrl(page)) && (|link| == |BaseUrl(page)| || link[|BaseUrl(page)|] == '/')
  {
    var scheme, netloc, base := Scheme(page), Netloc(page), BaseUrl(page);
    var r := UrlParse(href, scheme);
    RefParts(href, scheme);
    JoinOnBase(page, href);
    var path, params := if r.path == "" then "" else ResolvePath(r.path), if r.path == "" then "" else r.params;
    ResolvedUncut(r.path);
    BaseUrlUncut(page);
    var joined := UrlUnparse(ParseResult(scheme, netloc, path, params, r.query, r.fragment));
    assert UrlJoin(base, href) == joined;
    CutUnparse(scheme, netloc, path, params, r.query, r.fragment);
    assert SitePath(r) == Rooted(WithParams(path, params));
    SiteLink(base, SitePath(r));
  }

  /** Resolving a path that holds no `#` or `?` introduces none. */
  lemma ResolvedUncut(path: string)
    requires '#' !in path && '?' !in path
    ensures path != "" ==> '#' !in ResolvePath(path) && '?' !in ResolvePath(path)
  {
    if path != "" {
      ResolvePathAvoids(path, '#');
      ResolvePathAvoids(path, '?');
    }
  }

  /** Cutting what `urlunparse` writes for a scheme and a network location leaves
      `scheme://netloc` and the rooted path with its parameters. */
  lemma CutUnparse(scheme: string, netloc: string, path: string, params: string, query: string, fragment: string)
    requires scheme != "" && netloc != ""
    requires '#' !in scheme && '?' !in scheme && '#' !in netloc && '?' !in netloc
    requires '#' !in path && '?' !in path && '#' !in params && '?' !in params
    ensures Cut(UrlUnparse(ParseResult(scheme, netloc, path, params, query, fragment)))
      == scheme + "://" + netloc + Rooted(WithParams(path, params))
  {
    var url := WithParams(path, params);
    var rooted := Rooted(url);
    assert '#' !in url && '?' !in url;
    assert '#' !in rooted && '?' !in rooted;
    var head := UnsplitHead(scheme, netloc, url);
    assert head == scheme + ":" + ("//" + netloc + rooted);
    assert head == scheme + "://" + netloc + rooted;
    assert '#' !in head && '?' !in head;
    CutUnsplit(scheme, netloc, url, query, fragment);
  }

  /** The base URL followed by nothing or a rooted path starts with the base URL, then `/`. */
  lemma SiteLink(base: string, path: string)
    requires path == "" || path[0] == '/'
    ensures StartsWith(base + path, base)
    ensures |base + path| == |base| || (base + path)[|base|] == '/'
  {
    assert (base + path)[..|base|] == base;
  }

  /** A plain href (a single leading `/`, no tab, CR, LF or `;`, no `.` or `..` segment
      before its query) gives the base URL followed by the href up to its `#` or `?`. */
  lemma PlainHrefAppended(page: string, href: string)
    requires OnSite(page)
    requires StartsWith(href, "/") && !StartsWith(href, "//")
    requires forall c :: c in href ==> !IsUnsafe(c) && c != ';'
    requires NoDotSegment(Split(Cut(href), '/'))
    ensures LinkFor(BaseUrl(page), href) == Some(BaseUrl(page) + Cut(href))
  {
    var scheme := Scheme(page);
    var r := UrlParse(href, scheme);
    PlainRefPath(href, scheme);
    CutSplitsTwice(href);
    assert r.path == Cut(href) && r.params == "";
    CutLeadingSlash(href);
    ResolvePathPlain(Cut(href));
    assert SitePath(r) == Cut(href);
    RootRelativeStaysOnSite(page, href);
  }

  /** The cut of a text starting with `/` starts with `/`. */
  lemma CutLeadingSlash(link: string)
    requires StartsWith(link, "/")
    ensures Cut(link) != [] && Cut(link)[0] == '/'
  {
    CutSpec(link);
    assert link[0] !in {'#', '?'};
  }

  /** A protocol-relative href (`//host/...`) leaves the site: its link keeps the href's
      own host and its path as written (no dot segment is resolved), under the page's
      scheme; without a `;` it is the scheme and `:` followed by the href up to its `#` or
      `?`. */
  lemma ProtocolRelativeLeavesSite(page: string, href: string)
    requires Scheme(page) != "" && UsesRelative(Scheme(page))
    requires StartsWith(href, "/") && Netloc(href) != ""
    ensures var r := UrlParse(href, Scheme(page));
      LinkFor(BaseUrl(page), href) == Some(Scheme(page) + "://" + Netloc(href) + WithParams(r.path, r.params))
    ensures ';' !in href ==> LinkFor(BaseUrl(page), href) == Some(Scheme(page) + ":" + Cut(RemoveUnsafe(href)))
  {
    var scheme, netloc := Scheme(page), Netloc(href);
    var r := UrlParse(href, scheme);
    ForeignJoin(page, href);
    BaseUrlUncut(page);
    CutUnparse(scheme, netloc, r.path, r.params, r.query, r.fragment);
    RootedWithParams(r.path, r.params);
    if ';' !in href {
      ProtocolRelativeCut(href, scheme);
      SchemeColon(scheme, "//" + netloc, r.path);
    }
  }

  /** A path that is empty or rooted, with parameters only when non-empty, stays rooted
      once its parameters are put back. */
  lemma RootedWithParams(path: string, params: string)
    requires (path == "" ==> params == "") && (path != "" ==> path[0] == '/')
    ensures Rooted(WithParams(path, params)) == WithParams(path, params)
  {
  }

  /** `scheme://host` followed by a path is `scheme:` followed by `//host` and the path. */
  lemma SchemeColon(scheme: string, host: string, path: string)
    requires StartsWith(host, "//")
    ensures scheme + "://" + host[2..] + path == scheme + ":" + (host + path)
  {
    assert host == "//" + host[2..];
  }

  /** `urljoin` re-assembles a protocol-relative href under the page's scheme; its path is
      empty or rooted and has parameters only when non-empty. */
  lemma ForeignJoin(page: string, href: string)
    requires Scheme(page) != "" && UsesRelative(Scheme(page))
    requires StartsWith(href, "/") && Netloc(href) != ""
    ensures var r := UrlParse(href, Scheme(page));
      && LinkFor(BaseUrl(page), href)
         == Some(Cut(UrlUnparse(ParseResult(Scheme(page), Netloc(href), r.path, r.params, r.query, r.fragment))))
      && (r.path == "" ==> r.params == "") && (r.path != "" ==> r.path[0] == '/')
  {
    var r := UrlParse(href, Scheme(page));
    RefParts(href, Scheme(page));
    JoinOnBase(page, href);
    assert r == ParseResult(Scheme(page), Netloc(href), r.path, r.params, r.query, r.fragment);
  }

  /** Without a `;`, the path of a protocol-relative href is what follows its host, up to
      its `#` or `?`. */
  lemma ProtocolRelativeCut(href: string, scheme: string)
    requires StartsWith(href, "/") && Netloc(href) != "" && ';' !in href
    ensures var r := UrlParse(href, scheme);
      r.params == "" && "//" + Netloc(href) + r.path == Cut(RemoveUnsafe(href))
  {
    ProtocolRelativeParse(href, scheme);
    var u := RemoveUnsafe(href);
    CutAfterHost(Netloc(href), AfterNetloc(u));
  }

  /** Cutting `//host` and a tail cuts the tail alone, which leaves its `urlsplit` path. */
  lemma CutAfterHost(netloc: string, tail: string)
    requires '#' !in netloc && '?' !in netloc
    ensures Cut("//" + netloc + tail) == "//" + netloc + PathOf(tail)
  {
    CutSplitsTwice(tail);
    assert '#' !in "//" + netloc && '?' !in "//" + netloc;
    CutAfterPrefix("//" + netloc, tail);
  }

  /** The origin test is a string prefix test: any href that extends the base URL passes
      it, including one whose host only starts with the page's host. */
  lemma PrefixTestAdmitsLookalikeHost(base: string, rest: string)
    requires base != [] && base[0] != '/' && '#' !in base && '?' !in base
    requires '#' !in rest && '?' !in rest
    ensures LinkFor(base, base + rest) == Some(base + rest)
  {
    var href := base + rest;
    assert href[0] != '/';
    assert !StartsWith(href, "/");
    assert href[..|base|] == base;
    CutSpec(href);
  }

  /** On `https://a.com`, the href `https://a.com.evil/p` is kept as a link of the site. */
  lemma LookalikeHostExample()
    ensures LinkFor("https://a.com", "https://a.com.evil/p") == Some("https://a.com.evil/p")
  {
    LookalikeParts("https://a.com", ".evil/p");
    PrefixTestAdmitsLookalikeHost("https://a.com", ".evil/p");
  }

  /** The site and the tail of the lookalike URL hold no `#` or `?`, and the site does not
      start with `/`. */
  lemma LookalikeParts(base: string, rest: string)
    requires base == "https://a.com" && rest == ".evil/p"
    ensures base != [] && base[0] != '/' && '#' !in base && '?' !in base
    ensures '#' !in rest && '?' !in rest
    ensures base + rest == "https://a.com.evil/p"
  {
  }

  /** `/a` is a plain href whose one segment is not a dot segment. */
  lemma PlainHrefA()
    ensures StartsWith("/a", "/") && !StartsWith("/a", "//") && Cut("/a") == "/a"
    ensures forall c :: c in "/a" ==> !IsUnsafe(c) && c != ';'
    ensures NoDotSegment(Split("/a", '/'))
  {
    assert "/a"[..1] == "/" && "/a"[1] == 'a';
    CutSpec("/a");
    JoinSplit(["", "a"], '/');
    assert JoinWith(["", "a"], '/') == "/a";
  }

  /** `/a?x=1` is a plain href that cuts to `/a`. */
  lemma PlainHrefAQuery()
    ensures StartsWith("/a?x=1", "/") && !StartsWith("/a?x=1", "//") && Cut("/a?x=1") == "/a"
    ensures forall c :: c in "/a?x=1" ==> !IsUnsafe(c) && c != ';'
  {
    var h := "/a?x=1";
    assert h[0] == '/' && h[1] == 'a' && h[2] == '?';
    assert h[..1] == "/" && h[..2] != "//";
    assert "/a"[..1] == "/" && "/a"[1] == 'a';
    assert IndexOfAny(h[2..], {'#', '?'}) == 0;
    IndexOfAnyAppend("/a", h[2..], {'#', '?'});
    assert h == "/a" + h[2..];
  }

  /** Two equal links, neither visited, are both kept. */
  lemma UnvisitedDuplicates(link: string)
    ensures Unvisited([Some(link), Some(link)], {}) == [link, link]
  {
    var heads := [Some(link), Some(link)];
    assert heads[1..] == [Some(link)] && heads[1..][1..] == [];
    assert Unvisited(heads[1..], {}) == [link] + Unvisited([], {}) == [link];
    assert Unvisited(heads, {}) == [link] + [link];
  }

  /** Two plain hrefs that cut to the same path both give that link. */
  lemma SameCutSameLink(page: string, h1: string, h2: string)
    requires OnSite(page)
    requires StartsWith(h1, "/") && !StartsWith(h1, "//") && forall c :: c in h1 ==> !IsUnsafe(c) && c != ';'
    requires StartsWith(h2, "/") && !StartsWith(h2, "//") && forall c :: c in h2 ==> !IsUnsafe(c) && c != ';'
    requires Cut(h1) == Cut(h2) && NoDotSegment(Split(Cut(h1), '/'))
    ensures ArticleLinks(BaseUrl(page), [h1, h2], {}) == [BaseUrl(page) + Cut(h1), BaseUrl(page) + Cut(h1)]
  {
    var base, link := BaseUrl(page), BaseUrl(page) + Cut(h1);
    PlainHrefAppended(page, h1);
    PlainHrefAppended(page, h2);
    MapSeqPair(h1, h2, href => LinkFor(base, href));
    assert HrefLinks(base, [h1, h2]) == [Some(link), Some(link)];
    UnvisitedDuplicates(link);
  }

  /** The same article under two query strings yields the same link twice: duplicates are
      not removed within one page, only against `visited`. */
  lemma QueryVariantsGiveDuplicateLinks(page: string)
    requires OnSite(page)
    ensures ArticleLinks(BaseUrl(page), ["/a", "/a?x=1"], {}) == [BaseUrl(page) + "/a", BaseUrl(page) + "/a"]
  {
    PlainHrefA();
    PlainHrefAQuery();
    SameCutSameLink(page, "/a", "/a?x=1");
  }

  // ---------------------------------------------------------------------
  // find_article_links

  datatype LinkSearch =
    | Links(links: seq<string>, delay: real)  // the links found and the updated delay
    | Raised                                  // an exception other than HTTPError escaped make_request

  /** `find_article_links(url, visited, delay)`: the page is fetched with `make_request` (its
      own backoff base is MIN_DELAY); on success the delay halves and the page's hrefs are
      filtered, on HTTPError the delay doubles and no links are returned. */
  function ArticleSearch(responses: Responses, page: string, hrefs: seq<string>, visited: set<string>, delay: real): (LinkSearch, seq<real>) {
    var fetch := Retry(responses, MaxRetries, MinDelay, 1);
    match fetch.0
    case Fetched(_) => (Links(ArticleLinks(BaseUrl(page), hrefs, visited), AfterSuccess(delay)), fetch.1)
    case Exhausted => (Links([], AfterFailure(delay, MaxDelay)), fetch.1)
    case SleepRejected(_) => (Raised, fetch.1)
  }

  /** The links a search returns are unvisited links of the page's hrefs. */
  lemma ArticleSearchSound(responses: Responses, page: string, hrefs: seq<string>, visited: set<string>, delay: real)
    ensures var r := ArticleSearch(responses, page, hrefs, visited, delay).0;
      r.Links? ==> forall l :: l in r.links ==> l !in visited && l in ArticleLinks(BaseUrl(page), hrefs, {})
  {
    ArticleLinksSound(BaseUrl(page), hrefs, visited);
    ArticleLinksAntitone(BaseUrl(page), hrefs, {}, visited);
  }

  method FindArticleLinks(responses: Responses, page: string, hrefs: seq<string>, visited: set<string>, delay: real)
    returns (result: LinkSearch, waits: seq<real>)
    ensures (result, waits) == ArticleSearch(responses, page, hrefs, visited, delay)
    ensures result.Links? && 1.0 <= delay <= MaxDelay ==> 1.0 <= result.delay <= MaxDelay
    ensures result.Links? && result.links != [] ==> result.delay == AfterSuccess(delay)
    ensures result.Links? ==> forall l :: l in result.links ==> l !in visited && '#' !in l && '?' !in l
  {
    var outcome;
    outcome, waits := MakeRequest(responses, MaxRetries, MinDelay);
    match outcome
    case Fetched(_) =>
      var links := CollectLinks(BaseUrl(page), hrefs, visited);
      ArticleLinksSound(BaseUrl(page), hrefs, visited);
      result := Links(links, AfterSuccess(delay));
    case Exhausted =>
      result := Links([], AfterFailure(delay, MaxDelay));
    case SleepRejected(_) =>
      result := Raised;
  }
}
