/**
 * The completion poller of the OAuth login: while less than `timeout` ms have
 * elapsed it queries the broker for the session status, and stops at the
 * first terminal answer. Requests are taken to be instantaneous, so the k-th
 * query (from 0) is issued `k * interval` ms after the start, and only when
 * that is below `timeout`. The broker's answer to the k-th query is `answer(k)`.
 */
module Polling {
  import opened Wrappers
  import opened JsText
  import opened KeyStore

  /**
   * The fields of a `completed` status reply that the poller reads. The reply
   * is taken to carry `api_key`; `None` stands for a JSON `null` there.
   */
  datatype StatusData = StatusData(apiKey: Option<string>, userInfo: Option<UserInfo>, provider: Option<string>)

  /** One answer to `GET /api/auth/status/<session>`. */
  datatype PollReply =
    | Pending                          // status "pending"
    | Completed(data: StatusData)      // status "completed"
    | Failed(error: Option<string>)    // status "failed"
    | OtherStatus                      // any other status value
    | QueryError(status: Option<nat>)  // the request threw; HTTP status when there was a response

  /** Answers that end the loop: completion, failure, and a 404 (session unknown). */
  predicate Terminal(reply: PollReply) {
    reply.Completed? || reply.Failed? || reply == QueryError(Some(404))
  }

  datatype PollEnd =
    | LoggedIn(data: StatusData, elapsed: nat)
    | LoginFailed(reason: string)
    | SessionExpired
    | LoginTimeout

  /** How the poll ended, and how many status queries it issued. */
  datatype PollRun = PollRun(end: PollEnd, queries: nat)

  /** `pollForCompletion`'s default timeout, in ms. */
  function DefaultTimeout(): int { 300000 }

  /** `pollForCompletion`'s default interval between queries, in ms. */
  function DefaultInterval(): int { 2000 }

  /** The outcome of a terminal answer received `elapsed` ms after the start. */
  function Ending(reply: PollReply, elapsed: nat): (e: PollEnd)
    requires Terminal(reply)
    ensures e != LoginTimeout
    ensures e.LoggedIn? <==> reply.Completed?
    ensures e.LoginFailed? <==> reply.Failed?
    ensures e == SessionExpired <==> reply.QueryError?
  {
    match reply
    case Completed(data) => LoggedIn(data, elapsed)
    case Failed(error) => LoginFailed(OrElse(error, "Unknown error"))
    case QueryError(_) => SessionExpired
  }

  /** The poll loop from its k-th iteration on. */
  function PollFrom(answer: nat -> PollReply, k: nat, timeout: int, interval: int): PollRun
    requires interval > 0
    decreases timeout - k * interval
  {
    if k * interval >= timeout then PollRun(LoginTimeout, k)
    else if Terminal(answer(k)) then PollRun(Ending(answer(k), k * interval), k + 1)
    else PollFrom(answer, k + 1, timeout, interval)
  }

  /** `pollForCompletion(sessionId, timeout, pollInterval)`, as a function of the broker's answers. */
  function Poll(answer: nat -> PollReply, timeout: int, interval: int): PollRun
    requires interval > 0
  {
    PollFrom(answer, 0, timeout, interval)
  }

  /** ceil(timeout / interval) for a positive timeout, else 0. */
  function QueryBudget(timeout: int, interval: int): nat
    requires interval > 0
  {
    if timeout <= 0 then 0 else (timeout + interval - 1) / interval
  }

  lemma MulMono(a: int, b: int, c: int)
    requires a <= b && c >= 0
    ensures a * c <= b * c
  {
  }

  lemma DivFloor(a: int, b: int)
    requires b > 0
    ensures (a / b) * b <= a < (a / b) * b + b
  {
  }

  /** A query is issued at iteration k exactly when k is below the budget ceil(timeout / interval). */
  lemma BudgetExact(k: nat, timeout: int, interval: int)
    requires interval > 0
    ensures k * interval < timeout <==> k < QueryBudget(timeout, interval)
  {
    var a := timeout + interval - 1;
    DivFloor(a, interval);
    var q := a / interval;
    if timeout > 0 {
      if k * interval < timeout {
        assert (k + 1) * interval <= a;
        if q < k + 1 {
          MulMono(q + 1, k + 1, interval);
          assert false;
        }
      }
      if k < q {
        MulMono(k + 1, q, interval);
      }
    } else {
      assert k * interval >= 0;
    }
  }

  lemma MulStep(k: nat, interval: int)
    ensures (k + 1) * interval == k * interval + interval
  {
  }

  /**
   * What any run of the poller looks like: at most ceil(timeout / interval)
   * queries; every answer before the last is non-terminal; the loop ends on
   * the first terminal answer, at the time it was received, or times out
   * after the whole budget has been queried without one.
   */
  lemma {:induction false} PollFromShape(answer: nat -> PollReply, k: nat, timeout: int, interval: int)
    requires interval > 0 && k <= QueryBudget(timeout, interval)
    ensures var r := PollFrom(answer, k, timeout, interval);
      k <= r.queries <= QueryBudget(timeout, interval)
      && (forall j :: k <= j < r.queries - 1 ==> !Terminal(answer(j)))
      && (r.end == LoginTimeout ==>
            r.queries == QueryBudget(timeout, interval) && (r.queries > k ==> !Terminal(answer(r.queries - 1))))
      && (r.end != LoginTimeout ==>
            r.queries > k && Terminal(answer(r.queries - 1))
            && r.end == Ending(answer(r.queries - 1), (r.queries - 1) * interval))
    decreases timeout - k * interval
  {
    BudgetExact(k, timeout, interval);
    if k * interval < timeout && !Terminal(answer(k)) {
      BudgetExact(k + 1, timeout, interval);
      MulStep(k, interval);
      PollFromShape(answer, k + 1, timeout, interval);
    }
  }

  /** The shape of a whole run (see PollFromShape). */
  lemma PollShape(answer: nat -> PollReply, timeout: int, interval: int)
    requires interval > 0
    ensures var r := Poll(answer, timeout, interval);
      r.queries <= QueryBudget(timeout, interval)
      && (forall j :: 0 <= j < r.queries - 1 ==> !Terminal(answer(j)))
      && (r.end == LoginTimeout ==>
            r.queries == QueryBudget(timeout, interval) && (r.queries > 0 ==> !Terminal(answer(r.queries - 1))))
      && (r.end != LoginTimeout ==>
            r.queries > 0 && Terminal(answer(r.queries - 1))
            && r.end == Ending(answer(r.queries - 1), (r.queries - 1) * interval))
  {
    PollFromShape(answer, 0, timeout, interval);
  }

  /** The loop stops at the first terminal answer whose query was issued before the deadline. */
  lemma PollStopsAtFirstTerminal(answer: nat -> PollReply, n: nat, timeout: int, interval: int)
    requires interval > 0 && n * interval < timeout && Terminal(answer(n))
    requires forall j :: 0 <= j < n ==> !Terminal(answer(j))
    ensures Poll(answer, timeout, interval) == PollRun(Ending(answer(n), n * interval), n + 1)
  {
    PollShape(answer, timeout, interval);
    BudgetExact(n, timeout, interval);
  }

  /** Without any terminal answer the loop times out after exactly ceil(timeout / interval) queries. */
  lemma PollTimesOut(answer: nat -> PollReply, timeout: int, interval: int)
    requires interval > 0
    requires forall j :: 0 <= j < QueryBudget(timeout, interval) ==> !Terminal(answer(j))
    ensures Poll(answer, timeout, interval) == PollRun(LoginTimeout, QueryBudget(timeout, interval))
  {
    PollShape(answer, timeout, interval);
  }

  /** With timeout 5 and interval 2, sustained `pending` times out after 3 queries. */
  lemma PollSustainedPending(answer: nat -> PollReply)
    requires forall j :: answer(j) == Pending
    ensures Poll(answer, 5, 2) == PollRun(LoginTimeout, 3)
  {
    PollTimesOut(answer, 5, 2);
  }

  /** pending, pending, completed: logged in after two intervals, on the third query. */
  lemma PollPendingTwiceThenCompleted(answer: nat -> PollReply, data: StatusData, timeout: int, interval: int)
    requires interval > 0 && 2 * interval < timeout
    requires answer(0) == Pending && answer(1) == Pending && answer(2) == Completed(data)
    ensures Poll(answer, timeout, interval) == PollRun(LoggedIn(data, 2 * interval), 3)
  {
    PollStopsAtFirstTerminal(answer, 2, timeout, interval);
  }

  /** A 404 on the second query ends the poll as an expired session, not a timeout. */
  lemma PollExpiresOnSecondQuery(answer: nat -> PollReply, timeout: int, interval: int)
    requires interval > 0 && interval < timeout
    requires answer(0) == Pending && answer(1) == QueryError(Some(404))
    ensures Poll(answer, timeout, interval) == PollRun(SessionExpired, 2)
  {
    PollStopsAtFirstTerminal(answer, 1, timeout, interval);
  }

  /** The login flow's defaults allow at most 150 status queries. */
  lemma DefaultBudget()
    ensures QueryBudget(DefaultTimeout(), DefaultInterval()) == 150
  {
  }
  /**
   * The loop of `pollForCompletion`, started at clock value `start`: it
   * issues status queries every `interval` ms until a terminal answer or the
   * timeout, and reports how the poll ended and how many queries it issued;
   * on completion `now` is the clock value at which the completing answer
   * arrived.
   */
  method AwaitStatus(answer: nat -> PollReply, start: nat, timeout: int, interval: int)
      returns (end: PollEnd, now: nat, k: nat)
    requires interval > 0
    ensures end == Poll(answer, timeout, interval).end
    ensures k == Poll(answer, timeout, interval).queries
    ensures end.LoggedIn? ==> now == start + end.elapsed
  {
    now := start;
    k := 0;
    while now - start < timeout
      invariant now == start + k * interval
      invariant Poll(answer, timeout, interval) == PollFrom(answer, k, timeout, interval)
      decreases timeout - (now - start)
    {
      match answer(k) {
        case Completed(data) =>
          return LoggedIn(data, k * interval), now, k + 1;
        case Failed(error) =>
          return LoginFailed(OrElse(error, "Unknown error")), now, k + 1;
        case QueryError(status) =>
          if status == Some(404) {
            return SessionExpired, now, k + 1;
          }
        case Pending =>
        case OtherStatus =>
      }
      MulStep(k, interval);
      now := now + interval;
      k := k + 1;
    }
    return LoginTimeout, now, k;
  }
}
