/**
 The HTTP client every integration shares (src/soc_integration/integrations/base.py):
 bounded attempts, linear backoff, a capped Retry-After, and error categories.
 */
module RetryingClient {
  import opened Basics

  /** The Retry-After header: missing or empty, not a number, or a number of seconds. */
  datatype RetryAfter = Absent | NotANumber | Seconds(seconds: real)

  /** What one HTTP exchange ends in. */
  datatype Attempt =
    | Timeout
    | Unreachable
    | Response(status: nat, retryAfter: RetryAfter)

  datatype Category = TimedOut | Unavailable | Authentication | HttpError | RetryExhausted

  datatype Reply =
    | Returned(status: nat)
    | Raised(category: Category, code: Option<nat>)

  predicate RetryableStatus(status: nat) {
    status == 429 || status == 502 || status == 503 || status == 504
  }

  /** An attempt the client would rather repeat than report. */
  predicate Transient(a: Attempt) {
    a.Response? ==> RetryableStatus(a.status)
  }

  /** How an attempt is reported when it is not repeated. */
  function Judge(a: Attempt): Reply {
    match a
    case Timeout => Raised(TimedOut, None)
    case Unreachable => Raised(Unavailable, None)
    case Response(status, _) =>
      if status == 401 || status == 403 then Raised(Authentication, Some(status))
      else if status >= 400 then Raised(HttpError, Some(status))
      else Returned(status)
  }

  /** The pause after the failed attempt number `attempt`; sleeping a negative time is no pause. */
  function Pause(a: Attempt, backoff: real, attempt: nat): real {
    if a.Response? && a.retryAfter.Seconds? then
      var asked := a.retryAfter.seconds;
      if asked < 0.0 then 0.0 else if asked < 5.0 then asked else 5.0
    else
      backoff * attempt as real
  }

  function Sum(pauses: seq<real>): real {
    if pauses == [] then 0.0 else Sum(pauses[..|pauses| - 1]) + pauses[|pauses| - 1]
  }

  /**
   A pause is what the answer asked for, within 0 and 5 seconds, or else grows with the number of the
   attempt. After n attempts the client has paused at most 5(n-1) + backoff * n(n-1)/2 seconds.
   */
  lemma {:induction false} PausesBounded(failed: seq<Attempt>, pauses: seq<real>, backoff: real)
    requires backoff >= 0.0 && |pauses| == |failed|
    requires forall j | 0 <= j < |failed| && failed[j].Response? && failed[j].retryAfter.Seconds? ::
               0.0 <= pauses[j] <= 5.0
    requires forall j | 0 <= j < |failed| && !(failed[j].Response? && failed[j].retryAfter.Seconds?) ::
               pauses[j] == backoff * (j + 1) as real
    ensures var n := (|failed| + 1) as real;
            0.0 <= Sum(pauses) <= 5.0 * (n - 1.0) + backoff * (n * (n - 1.0) / 2.0)
  {
    if failed == [] {
    } else {
      var m := |failed| as real;
      PausesBounded(failed[..|failed| - 1], pauses[..|pauses| - 1], backoff);
      var last := pauses[|pauses| - 1];
      assert 0.0 <= last <= 5.0 + backoff * m;
      assert backoff * (m * (m - 1.0) / 2.0) + backoff * m == backoff * ((m + 1.0) * m / 2.0) by {
        assert m * (m - 1.0) / 2.0 + m == (m + 1.0) * m / 2.0;
      }
    }
  }

  /** The answers of one call: all but the last are repeated, and the last only for want of attempts. */
  predicate Exchange(answers: seq<Attempt>, attempts: int) {
    && 1 <= |answers| <= attempts
    && (forall j | 0 <= j < |answers| - 1 :: Transient(answers[j]))
    && (Transient(answers[|answers| - 1]) ==> |answers| == attempts)
  }

  /** What a server would answer determines the answers of a call. */
  lemma OneExchange(server: seq<Attempt>, a: seq<Attempt>, b: seq<Attempt>, attempts: int)
    requires Exchange(a, attempts) && Exchange(b, attempts) && a <= server && b <= server
    ensures a == b
  {
    assert forall j | 0 <= j < |a| && j < |b| :: a[j] == b[j];
    assert |a| == |b|;
  }

  class Client {
    const attempts: int
    const backoff: real

    constructor (attempts: int, backoff: real)
      requires backoff >= 0.0
      ensures this.attempts == attempts && this.backoff == backoff
    {
      this.attempts := attempts;
      this.backoff := backoff;
    }

    /**
     Sends a request to a server whose successive answers would be `server`. Timeouts, transport errors
     and the statuses 429, 502, 503 and 504 are repeated as long as attempts are left; what comes after
     them decides. Every pause is what the answer asked for, between 0 and 5 seconds, or else the
     backoff times the number of the attempt.
     */
    method Request(server: seq<Attempt>, retrySafe: bool)
      returns (reply: Reply, calls: nat, slept: real, ghost pauses: seq<real>)
      requires |server| >= 1 && |server| >= attempts
      requires backoff >= 0.0
      ensures !retrySafe ==> calls == 1
      ensures calls <= Max(attempts, 1)
      ensures reply == Raised(RetryExhausted, None) <==> retrySafe && attempts <= 0
      ensures calls == 0 <==> retrySafe && attempts <= 0
      ensures forall j | 0 <= j < calls - 1 ::
                server[j].Response? ==> server[j].status in {429, 502, 503, 504}
      ensures 1 <= calls <= |server| && calls < (if retrySafe then attempts else 1) ==>
                server[calls - 1].Response? && server[calls - 1].status !in {429, 502, 503, 504}
      ensures 1 <= calls <= |server| ==>
                match server[calls - 1]
                case Timeout => reply == Raised(TimedOut, None)
                case Unreachable => reply == Raised(Unavailable, None)
                case Response(status, _) =>
                  && (status < 400 <==> reply == Returned(status))
                  && (status in {401, 403} <==> reply == Raised(Authentication, Some(status)))
                  && (status >= 400 && status !in {401, 403} <==> reply == Raised(HttpError, Some(status)))
      ensures 1 <= calls ==> Exchange(server[..calls], if retrySafe then attempts else 1)
      ensures slept == Sum(pauses) && |pauses| == Max(calls - 1, 0)
      ensures forall j | 0 <= j < |pauses| && server[j].Response? && server[j].retryAfter.Seconds? ::
                && 0.0 <= pauses[j] <= 5.0
                && (0.0 <= server[j].retryAfter.seconds <= 5.0 ==> pauses[j] == server[j].retryAfter.seconds)
                && (server[j].retryAfter.seconds > 5.0 ==> pauses[j] == 5.0)
                && (server[j].retryAfter.seconds < 0.0 ==> pauses[j] == 0.0)
      ensures forall j | 0 <= j < |pauses| && !(server[j].Response? && server[j].retryAfter.Seconds?) ::
                pauses[j] == backoff * (j + 1) as real
    {
      var maxAttempts := if retrySafe then attempts else 1;
      calls, slept, pauses := 0, 0.0, [];
      while calls < maxAttempts
        invariant 0 <= calls <= Max(maxAttempts, 0)
        invariant calls > 0 ==> calls < maxAttempts
        invariant forall j :: 0 <= j < calls ==> Transient(server[j])
        invariant slept == Sum(pauses) && |pauses| == calls
        invariant forall j | 0 <= j < calls :: pauses[j] == Pause(server[j], backoff, j + 1)
      {
        var answer := server[calls];
        calls := calls + 1;
        if Transient(answer) && calls < maxAttempts {
          var pause := Pause(answer, backoff, calls);
          slept, pauses := slept + pause, pauses + [pause];
          assert pauses[..|pauses| - 1] == pauses[..calls - 1];
          continue;
        }
        return Judge(answer), calls, slept, pauses;
      }
      reply := Raised(RetryExhausted, None);
    }
  }
}
