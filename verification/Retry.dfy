/** Bounded retry with exponential backoff: around an operation, and around one HTTP round trip. */
module Retry {
  import opened Sequences
  import Text

  const MAX_RETRIES: nat := 3
  /** Nanoseconds. */
  const BASE_BACKOFF: nat := 2_000_000_000
  const MAX_BACKOFF: nat := 15_000_000_000

  // ---------- which errors are retried ----------

  const TRANSIENT: seq<string> :=
    ["429", "Too Many Requests", "Rate limit", "too many requests", "Try again later", "500", "502", "503", "504",
     "server is currently unable", "connection refused", "connection reset", "i/o timeout",
     "TLS handshake timeout", "unexpected EOF"]

  const DENIED: seq<string> := ["Forbidden", "Unauthorized", "401", "403"]

  predicate IsRetryable(msg: string) {
    exists i: nat | i < |TRANSIENT| :: Text.Contains(msg, TRANSIENT[i])
  }

  predicate IsAuthError(msg: string) {
    exists i: nat | i < |DENIED| :: Text.Contains(msg, DENIED[i])
  }

  /** The texts that make an error worth another attempt. */
  lemma RetryableTexts(msg: string)
    ensures IsRetryable(msg)
       <==> || Text.Contains(msg, "429") || Text.Contains(msg, "Too Many Requests") || Text.Contains(msg, "Rate limit")
            || Text.Contains(msg, "too many requests") || Text.Contains(msg, "Try again later")
            || Text.Contains(msg, "500") || Text.Contains(msg, "502") || Text.Contains(msg, "503")
            || Text.Contains(msg, "504") || Text.Contains(msg, "server is currently unable")
            || Text.Contains(msg, "connection refused") || Text.Contains(msg, "connection reset")
            || Text.Contains(msg, "i/o timeout") || Text.Contains(msg, "TLS handshake timeout")
            || Text.Contains(msg, "unexpected EOF")
  {
    hide Text.Contains;
    assert |TRANSIENT| == 15;
    assert TRANSIENT[0] == "429" && TRANSIENT[1] == "Too Many Requests" && TRANSIENT[2] == "Rate limit";
    assert TRANSIENT[3] == "too many requests" && TRANSIENT[4] == "Try again later" && TRANSIENT[5] == "500";
    assert TRANSIENT[6] == "502" && TRANSIENT[7] == "503" && TRANSIENT[8] == "504";
    assert TRANSIENT[9] == "server is currently unable" && TRANSIENT[10] == "connection refused";
    assert TRANSIENT[11] == "connection reset" && TRANSIENT[12] == "i/o timeout";
    assert TRANSIENT[13] == "TLS handshake timeout" && TRANSIENT[14] == "unexpected EOF";
  }

  /** The texts that rule another attempt out. */
  lemma DeniedTexts(msg: string)
    ensures IsAuthError(msg)
       <==> || Text.Contains(msg, "Forbidden") || Text.Contains(msg, "Unauthorized")
            || Text.Contains(msg, "401") || Text.Contains(msg, "403")
  {
    hide Text.Contains;
    assert |DENIED| == 4 && DENIED[0] == "Forbidden" && DENIED[1] == "Unauthorized";
    assert DENIED[2] == "401" && DENIED[3] == "403";
  }

  // ---------- waiting ----------

  function Power2(n: nat): nat {
    if n == 0 then 1 else 2 * Power2(n - 1)
  }

  function Backoff(attempt: nat): nat {
    var b := BASE_BACKOFF * Power2(attempt);
    if b > MAX_BACKOFF then MAX_BACKOFF else b
  }

  /** Random extra waits: below a quarter of the backoff. */
  ghost predicate JitterOk(jitter: nat -> nat) {
    forall a: nat :: a < MAX_RETRIES ==> jitter(a) < Backoff(a) / 4
  }

  /** Total wait before attempt n. */
  function Waited(jitter: nat -> nat, n: nat): nat {
    if n == 0 then 0 else Waited(jitter, n - 1) + Backoff(n - 1) + jitter(n - 1)
  }

  lemma WaitedNext(jitter: nat -> nat, n: nat)
    ensures Waited(jitter, 0) == 0 && Waited(jitter, n + 1) == Waited(jitter, n) + Backoff(n) + jitter(n)
  {
  }

  lemma BackoffValues()
    ensures Backoff(0) == 2_000_000_000 && Backoff(1) == 4_000_000_000 && Backoff(2) == 8_000_000_000
  {
    assert Power2(1) == 2 && Power2(2) == 4;
  }

  lemma {:induction false} Power2Grows(n: nat)
    ensures n >= 3 ==> Power2(n) >= 8
  {
    if n > 3 {
      Power2Grows(n - 1);
    } else if n == 3 {
      assert Power2(1) == 2 && Power2(2) == 4;
    }
  }

  /** From the fourth wait on the cap of 15 seconds would hold. */
  lemma CappedBackoff(attempt: nat)
    requires attempt >= 3
    ensures Backoff(attempt) == 15_000_000_000
  {
    Power2Grows(attempt);
  }

  /** The cap never binds, and the waits of one operation total less than 17.5 seconds. */
  lemma WaitsAreBounded(jitter: nat -> nat, n: nat)
    requires JitterOk(jitter) && n <= MAX_RETRIES
    ensures forall a: nat :: a < MAX_RETRIES ==> Backoff(a) == BASE_BACKOFF * Power2(a) < MAX_BACKOFF
    ensures Waited(jitter, n) < 17_500_000_000
    ensures n == MAX_RETRIES ==> Waited(jitter, n) >= 14_000_000_000
  {
    BackoffValues();
    assert Power2(1) == 2 && Power2(2) == 4;
    forall a: nat | a < MAX_RETRIES ensures Backoff(a) == BASE_BACKOFF * Power2(a) < MAX_BACKOFF {
      assert a == 0 || a == 1 || a == 2;
    }
    assert jitter(0) < Backoff(0) / 4 && jitter(1) < Backoff(1) / 4 && jitter(2) < Backoff(2) / 4;
    assert Waited(jitter, 0) == 0;
    assert Waited(jitter, 1) == Backoff(0) + jitter(0);
    assert Waited(jitter, 2) == Waited(jitter, 1) + Backoff(1) + jitter(1);
    assert Waited(jitter, 3) == Waited(jitter, 2) + Backoff(2) + jitter(2);
    assert n == 0 || n == 1 || n == 2 || n == 3;
  }

  // ---------- the operation level ----------

  /** How an operation with retry ends. */
  datatype Ending = Succeeded | Failed(msg: string) | Exhausted(msg: string) | Interrupted

  predicate WorthRetrying(outcome: Option<string>) {
    outcome.Some? && !IsAuthError(outcome.value) && IsRetryable(outcome.value)
  }

  /** Attempt k is not followed by another: it settles the matter, is the last one, or is interrupted. */
  ghost predicate Stops(outcome: nat -> Option<string>, cancelled: nat -> bool, k: nat) {
    k >= MAX_RETRIES || !WorthRetrying(outcome(k)) || cancelled(k)
  }

  /** k is the first attempt that stops. */
  ghost predicate FirstStop(outcome: nat -> Option<string>, cancelled: nat -> bool, k: nat) {
    Stops(outcome, cancelled, k) && forall j: nat :: j < k ==> !Stops(outcome, cancelled, j)
  }

  /** Another attempt follows exactly a transient error that is no denial, before the fourth and uninterrupted. */
  lemma RepeatedWhen(outcome: nat -> Option<string>, cancelled: nat -> bool, k: nat)
    ensures !Stops(outcome, cancelled, k)
       <==> k < 3 && !cancelled(k)
            && outcome(k).Some? && IsRetryable(outcome(k).value) && !IsAuthError(outcome(k).value)
  {
    hide IsRetryable, IsAuthError;
  }

  /**
   * outcome(k) is what call k of the operation returns (None for success), jitter(k) the random extra
   * wait after it, and cancelled(k) says that the context ends during that wait.
   */
  method WithRetry(outcome: nat -> Option<string>, jitter: nat -> nat, cancelled: nat -> bool)
    returns (ending: Ending, calls: nat, waited: nat)
    requires JitterOk(jitter)
    ensures 1 <= calls <= 4 && FirstStop(outcome, cancelled, calls - 1)
    ensures var last := outcome(calls - 1);
      match ending
      case Succeeded => last.None?
      case Failed(msg) => last == Some(msg) && !WorthRetrying(last)
      case Exhausted(msg) => last == Some(msg) && WorthRetrying(last) && calls == 4
      case Interrupted => WorthRetrying(last) && cancelled(calls - 1) && calls < 4
    ensures ending.Succeeded? <==> outcome(calls - 1).None?
    ensures waited == Waited(jitter, calls - 1) < 17_500_000_000
  {
    hide IsRetryable, IsAuthError, Backoff, Waited, Power2;
    WaitedNext(jitter, 0);
    calls, waited := 0, 0;
    var lastErr: Option<string> := None;
    var attempt := 0;
    while attempt <= MAX_RETRIES
      invariant attempt <= MAX_RETRIES + 1 && calls == attempt
      invariant waited == Waited(jitter, if attempt <= MAX_RETRIES then attempt else MAX_RETRIES)
      invariant forall j: nat :: j < attempt && j < MAX_RETRIES ==> !Stops(outcome, cancelled, j)
      invariant attempt > MAX_RETRIES ==> lastErr == outcome(MAX_RETRIES) && WorthRetrying(lastErr)
    {
      WaitsAreBounded(jitter, attempt);
      WaitedNext(jitter, attempt);
      lastErr := outcome(attempt);
      calls := calls + 1;
      if lastErr.None? {
        return Succeeded, calls, waited;
      }
      if IsAuthError(lastErr.value) || !IsRetryable(lastErr.value) {
        return Failed(lastErr.value), calls, waited;
      }
      if attempt < MAX_RETRIES {
        if cancelled(attempt) {
          return Interrupted, calls, waited;
        }
        waited := waited + Backoff(attempt) + jitter(attempt);
      }
      attempt := attempt + 1;
    }
    WaitsAreBounded(jitter, MAX_RETRIES);
    ending := Exhausted(lastErr.value);
  }

  // ---------- the transport level ----------

  /** What the delegate returns: a network error, or a response with a status and a body to close. */
  datatype Reply = NetError(msg: string) | Response(status: int)

  predicate Transient(r: Reply) {
    match r
    case NetError(msg) => IsRetryable(msg)
    case Response(status) => status == 429 || status >= 500
  }

  /** The bodies of the first n replies, by attempt. */
  function Received(reply: nat -> Reply, n: nat): seq<nat> {
    if n == 0 then [] else Received(reply, n - 1) + if reply(n - 1).Response? then [n - 1] else []
  }

  lemma ReceivedNext(reply: nat -> Reply, n: nat)
    ensures Received(reply, 0) == []
    ensures Received(reply, n + 1) == if reply(n).Response? then Received(reply, n) + [n] else Received(reply, n)
  {
  }

  /** n is the first attempt whose reply is returned. */
  ghost predicate FirstReturned(reply: nat -> Reply, n: nat) {
    (n >= MAX_RETRIES || !Transient(reply(n))) && forall j: nat :: j < n ==> Transient(reply(j))
  }

  /** The attempt whose reply is returned. */
  function StopOf(reply: nat -> Reply): (n: nat)
    ensures n <= MAX_RETRIES && FirstReturned(reply, n)
  {
    if !Transient(reply(0)) then 0
    else if !Transient(reply(1)) then 1
    else if !Transient(reply(2)) then 2
    else 3
  }

  /** The attempt at which a round trip stops is determined by the replies. */
  lemma StopIsUnique(reply: nat -> Reply, n: nat)
    requires n <= MAX_RETRIES && FirstReturned(reply, n)
    ensures n == StopOf(reply)
  {
    var m := StopOf(reply);
    assert m < MAX_RETRIES ==> !Transient(reply(m));
  }

  lemma StopsLast(reply: nat -> Reply)
    ensures StopOf(reply) == MAX_RETRIES <==> AllTransient(reply)
  {
  }

  /** The reply of attempt `last` is returned, with no attempt after it; closed lists the bodies closed, in order. */
  method RoundTrip(reply: nat -> Reply, jitter: nat -> nat)
    returns (last: nat, closed: seq<nat>, slept: nat)
    requires JitterOk(jitter)
    ensures last == StopOf(reply) && FirstReturned(reply, last)
    ensures closed == Received(reply, last)
    ensures slept == Waited(jitter, last) < 17_500_000_000
    ensures reply(last).Response? && (reply(last).status == 429 || reply(last).status >= 500) ==> last == 3
    ensures reply(last).NetError? && IsRetryable(reply(last).msg) ==> last == 3
    ensures forall k: nat :: k < last ==>
              match reply(k)
              case NetError(msg) => IsRetryable(msg)
              case Response(status) => status == 429 || status >= 500
  {
    hide IsRetryable, Backoff, Waited, Received, Power2, StopOf;
    WaitedNext(jitter, 0);
    ReceivedNext(reply, 0);
    closed, slept := [], 0;
    var attempt := 0;
    while attempt <= MAX_RETRIES
      invariant attempt <= MAX_RETRIES
      invariant closed == Received(reply, attempt) && slept == Waited(jitter, attempt)
      invariant forall j: nat :: j < attempt ==> Transient(reply(j))
      decreases MAX_RETRIES - attempt
    {
      WaitsAreBounded(jitter, attempt);
      WaitedNext(jitter, attempt);
      ReceivedNext(reply, attempt);
      var resp := reply(attempt);
      if resp.NetError? {
        if IsRetryable(resp.msg) && attempt < MAX_RETRIES {
          slept := slept + Backoff(attempt) + jitter(attempt);
          attempt := attempt + 1;
          continue;
        }
        StopIsUnique(reply, attempt);
        return attempt, closed, slept;
      }
      if resp.status == 429 || resp.status >= 500 {
        if attempt < MAX_RETRIES {
          closed := closed + [attempt];
          slept := slept + Backoff(attempt) + jitter(attempt);
          attempt := attempt + 1;
          continue;
        }
      }
      StopIsUnique(reply, attempt);
      return attempt, closed, slept;
    }
    // The return after the loop is never reached.
    assert false;
  }

  lemma {:induction false} ReceivedCount(reply: nat -> Reply, n: nat, k: nat)
    ensures Count(Received(reply, n), k) == if k < n && reply(k).Response? then 1 else 0
  {
    if n > 0 {
      ReceivedCount(reply, n - 1, k);
      hide IsRetryable;
      if reply(n - 1).Response? {
        CountSnoc(Received(reply, n - 1), n - 1, k);
      } else {
        assert Received(reply, n) == Received(reply, n - 1);
      }
    }
  }

  /**
   * Body accounting for a finished round trip: every received response except the returned one has been
   * closed, exactly once, and the returned one has not; and a 429 or 5xx is returned only by attempt 4.
   */
  lemma BodiesAreAccountedFor(reply: nat -> Reply, last: nat)
    requires last <= MAX_RETRIES && FirstReturned(reply, last)
    ensures forall k: nat :: k <= last && reply(k).Response? && k != last ==> Count(Received(reply, last), k) == 1
    ensures forall k: nat :: k >= last || reply(k).NetError? ==> Count(Received(reply, last), k) == 0
    ensures reply(last).Response? && (reply(last).status == 429 || reply(last).status >= 500) ==> last == 3
    ensures forall k: nat :: k < last ==> reply(k).NetError? || reply(k).status == 429 || reply(k).status >= 500
  {
    hide IsRetryable;
    forall k: nat
      ensures k < last && reply(k).Response? ==> Count(Received(reply, last), k) == 1
      ensures k >= last || reply(k).NetError? ==> Count(Received(reply, last), k) == 0
    {
      ReceivedCount(reply, last, k);
    }
  }

  // ---------- one retry inside the other ----------

  /**
   * An operation whose every call is one round trip: call c meets the replies replies(c), and what the
   * caller makes of the returned reply is an error text or success.
   */
  function OutcomeOver(replies: nat -> nat -> Reply, describe: Reply -> Option<string>): nat -> Option<string> {
    (c: nat) => describe(replies(c)(StopOf(replies(c))))
  }

  /** Delegate calls made by the first n calls of the operation. */
  function DelegateCalls(replies: nat -> nat -> Reply, n: nat): nat {
    if n == 0 then 0 else DelegateCalls(replies, n - 1) + StopOf(replies(n - 1)) + 1
  }

  lemma {:induction false} DelegateCallsBound(replies: nat -> nat -> Reply, n: nat)
    ensures n <= DelegateCalls(replies, n) <= 4 * n
    ensures DelegateCalls(replies, n) == 4 * n <==> forall c: nat :: c < n ==> StopOf(replies(c)) == MAX_RETRIES
  {
    if n > 0 {
      DelegateCallsBound(replies, n - 1);
      assert DelegateCalls(replies, n) == DelegateCalls(replies, n - 1) + StopOf(replies(n - 1)) + 1;
      hide Transient, StopOf, DelegateCalls;
    }
  }

  /** The operation gave up only after its last attempt, and so did every round trip below it. */
  ghost predicate EverythingRetried(replies: nat -> nat -> Reply, outcome: nat -> Option<string>,
                                    cancelled: nat -> bool)
  {
    && (forall c: nat :: c < MAX_RETRIES ==> WorthRetrying(outcome(c)) && !cancelled(c))
    && (forall c: nat :: c <= MAX_RETRIES ==> AllTransient(replies(c)))
  }

  ghost predicate AllTransient(reply: nat -> Reply) {
    forall a: nat :: a < MAX_RETRIES ==> Transient(reply(a))
  }

  /**
   * Retry around retry: an operation that made the calls it makes reached the network between 1 and 16
   * times, and 16 times exactly when nothing short of the last attempt settled anything.
   */
  lemma NestedRetryBound(replies: nat -> nat -> Reply, describe: Reply -> Option<string>,
                         cancelled: nat -> bool, calls: nat)
    requires 1 <= calls <= 4 && FirstStop(OutcomeOver(replies, describe), cancelled, calls - 1)
    ensures 1 <= DelegateCalls(replies, calls) <= 16
    ensures DelegateCalls(replies, calls) == 16
       <==> EverythingRetried(replies, OutcomeOver(replies, describe), cancelled)
  {
    var outcome := OutcomeOver(replies, describe);
    DelegateCallsBound(replies, calls);
    forall c: nat {
      StopsLast(replies(c));
    }
    if calls == 4 {
      forall c: nat | c < MAX_RETRIES ensures WorthRetrying(outcome(c)) && !cancelled(c) {
        assert !Stops(outcome, cancelled, c);
      }
      assert DelegateCalls(replies, 4) == 16
        <==> forall c: nat :: c <= MAX_RETRIES ==> StopOf(replies(c)) == MAX_RETRIES;
    } else {
      assert Stops(outcome, cancelled, calls - 1);
    }
  }
}
