/** The load-balancer client as the pool handlers see it. Every remote call and every wait
    helper is an oracle: the handler is handed the answer the control plane gives, and the
    client records the call and whether it succeeded in a ghost trace. `Retry` models
    `resource.Retry` around a mutating call. */
module PoolClient {
  import opened Wrappers
  import opened PoolSchema
  import opened PoolOptions

  /** An error reported by the control plane; NotFound is the 404 that `CheckDeleted` tolerates. */
  datatype ApiError = NotFound | Rejected(code: int)

  datatype Listener = Listener(id: string)

  /** `pools.Pool` as returned by the control plane, with its back-references. */
  datatype Pool = Pool(
    id: string,
    tenantId: string,
    name: string,
    description: string,
    protocol: Protocol,
    lbMethod: LbMethod,
    adminStateUp: bool,
    listeners: seq<string>,
    loadbalancers: seq<string>)

  /** The status `waitForLBV2Pool` waits for: "ACTIVE" or "DELETED". */
  datatype PoolTarget = Active | Deleted

  /** A remote call or a wait helper invocation. */
  datatype Call =
    | GetListener(listenerId: string)
    | WaitListener(listener: Listener)
    | WaitLoadBalancer(loadbalancerId: string)
    | CreatePool(opts: CreateOpts)
    | GetPool(poolId: string)
    | UpdatePool(poolId: string, update: UpdateOpts)
    | DeletePool(poolId: string)
    | WaitPool(waitedId: string, target: PoolTarget)

  predicate IsDependencyWait(c: Call) {
    c.WaitListener? || c.WaitLoadBalancer?
  }

  /** A call issued and whether it succeeded. */
  datatype Event = Event(call: Call, ok: bool)

  /** The answer to a call without a result (a wait, an update, a delete). */
  type Ack = Result<(), ApiError>

  /** The answer to one invocation inside `resource.Retry`; `retryable` is the verdict of
      `checkForRetryableError` on the error. */
  datatype Attempt<T> = Answered(value: T) | Refused(error: ApiError, retryable: bool)

  datatype RetryError =
    | Fatal(error: ApiError)              // the first non-retryable error
    | TimedOut(last: Option<ApiError>)    // the deadline passed; the last retryable error, if any

  predicate Retryable<T>(a: Attempt<T>) {
    a.Refused? && a.retryable
  }

  /** The result of `resource.Retry` given the answers to its successive invocations; the
      sequence ends where the deadline falls. */
  function RetryOutcome<T>(attempts: seq<Attempt<T>>, last: Option<ApiError>): Result<T, RetryError>
    decreases |attempts|
  {
    if attempts == [] then Err(TimedOut(last))
    else match attempts[0]
      case Answered(v) => Ok(v)
      case Refused(e, retryable) =>
        if retryable then RetryOutcome(attempts[1..], Some(e)) else Err(Fatal(e))
  }

  /** The calls `resource.Retry` issues: one per invocation, up to and including the first
      answer that is not a retryable error. */
  function RetryEvents<T>(c: Call, attempts: seq<Attempt<T>>): seq<Event>
    decreases |attempts|
  {
    if attempts == [] then []
    else [Event(c, attempts[0].Answered?)] + (if Retryable(attempts[0]) then RetryEvents(c, attempts[1..]) else [])
  }

  ghost predicate AllRetryable<T>(attempts: seq<Attempt<T>>) {
    forall j | 0 <= j < |attempts| :: Retryable(attempts[j])
  }

  /** The retry succeeds with `v` exactly when some invocation answers `v` and every earlier
      one was refused with a retryable error. */
  lemma {:induction false} RetrySucceedsIff<T>(attempts: seq<Attempt<T>>, last: Option<ApiError>, v: T)
    ensures RetryOutcome(attempts, last) == Ok(v) <==>
      exists k | 0 <= k < |attempts| :: attempts[k] == Answered(v) && AllRetryable(attempts[..k])
  {
    if attempts != [] {
      match attempts[0]
      case Answered(w) =>
        if RetryOutcome(attempts, last) == Ok(v) {
          assert attempts[0] == Answered(v) && AllRetryable(attempts[..0]);
        }
      case Refused(e, retryable) =>
        if retryable {
          var rest := attempts[1..];
          RetrySucceedsIff(rest, Some(e), v);
          if RetryOutcome(attempts, last) == Ok(v) {
            var k :| 0 <= k < |rest| && rest[k] == Answered(v) && AllRetryable(rest[..k]);
            assert attempts[..k + 1] == [attempts[0]] + rest[..k];
            assert attempts[k + 1] == Answered(v) && AllRetryable(attempts[..k + 1]);
          }
          if exists k | 0 <= k < |attempts| :: attempts[k] == Answered(v) && AllRetryable(attempts[..k]) {
            var k :| 0 <= k < |attempts| && attempts[k] == Answered(v) && AllRetryable(attempts[..k]);
            assert k > 0;
            assert rest[..k - 1] == attempts[1..k];
            assert rest[k - 1] == Answered(v) && AllRetryable(rest[..k - 1]);
          }
        } else {
          forall k | 0 <= k < |attempts| && attempts[k] == Answered(v)
            ensures !AllRetryable(attempts[..k])
          {
            assert k > 0 && attempts[..k][0] == attempts[0];
          }
        }
    }
  }

  /** The retry times out exactly when every invocation before the deadline was refused with
      a retryable error; it then reports the last of them. */
  lemma {:induction false} RetryTimesOutIff<T>(attempts: seq<Attempt<T>>, last: Option<ApiError>)
    ensures RetryOutcome(attempts, last).Err? && RetryOutcome(attempts, last).error.TimedOut? <==> AllRetryable(attempts)
    ensures AllRetryable(attempts) ==>
      RetryOutcome(attempts, last) == Err(TimedOut(if attempts == [] then last else Some(attempts[|attempts| - 1].error)))
  {
    if attempts != [] {
      var rest := attempts[1..];
      RetryTimesOutIff(rest, if attempts[0].Refused? then Some(attempts[0].error) else last);
      if AllRetryable(attempts) {
        assert AllRetryable(rest) by {
          forall j | 0 <= j < |rest| ensures Retryable(rest[j]) { assert rest[j] == attempts[j + 1]; }
        }
      }
      if AllRetryable(rest) && Retryable(attempts[0]) {
        forall j | 0 <= j < |attempts| ensures Retryable(attempts[j]) {
          if j > 0 { assert attempts[j] == rest[j - 1]; }
        }
      }
    }
  }

  /** The retry fails with `e` exactly when some invocation is refused with the non-retryable
      error `e` and every earlier one was refused with a retryable error. */
  lemma {:induction false} RetryFatalIff<T>(attempts: seq<Attempt<T>>, last: Option<ApiError>, e: ApiError)
    ensures RetryOutcome(attempts, last) == Err(Fatal(e)) <==>
      exists k | 0 <= k < |attempts| :: attempts[k] == Refused(e, false) && AllRetryable(attempts[..k])
  {
    if attempts != [] {
      match attempts[0]
      case Answered(v) =>
        forall k | 0 <= k < |attempts| && attempts[k] == Refused(e, false)
          ensures !AllRetryable(attempts[..k])
        {
          assert k > 0 && attempts[..k][0] == attempts[0];
        }
      case Refused(e0, retryable) =>
        if retryable {
          var rest := attempts[1..];
          RetryFatalIff(rest, Some(e0), e);
          if RetryOutcome(attempts, last) == Err(Fatal(e)) {
            var k :| 0 <= k < |rest| && rest[k] == Refused(e, false) && AllRetryable(rest[..k]);
            assert attempts[..k + 1] == [attempts[0]] + rest[..k];
            assert attempts[k + 1] == Refused(e, false) && AllRetryable(attempts[..k + 1]);
          }
          if exists k | 0 <= k < |attempts| :: attempts[k] == Refused(e, false) && AllRetryable(attempts[..k]) {
            var k :| 0 <= k < |attempts| && attempts[k] == Refused(e, false) && AllRetryable(attempts[..k]);
            assert k > 0;
            assert rest[..k - 1] == attempts[1..k];
            assert rest[k - 1] == Refused(e, false) && AllRetryable(rest[..k - 1]);
          }
        } else if e0 == e {
          assert attempts[0] == Refused(e, false) && AllRetryable(attempts[..0]);
        } else {
          forall k | 0 <= k < |attempts| && attempts[k] == Refused(e, false)
            ensures !AllRetryable(attempts[..k])
          {
            assert k > 0 && attempts[..k][0] == attempts[0];
          }
        }
    }
  }

  /** The retry issues one call per invocation up to and including the first that is not a
      retryable refusal, or one per answer when all of them are. */
  lemma {:induction false} RetryEventsCount<T>(c: Call, attempts: seq<Attempt<T>>)
    ensures AllRetryable(attempts) ==> |RetryEvents(c, attempts)| == |attempts|
    ensures forall k | 0 <= k < |attempts| && !Retryable(attempts[k]) && AllRetryable(attempts[..k]) ::
      |RetryEvents(c, attempts)| == k + 1
  {
    if attempts != [] {
      var rest := attempts[1..];
      RetryEventsCount(c, rest);
      if Retryable(attempts[0]) {
        assert RetryEvents(c, attempts) == [Event(c, false)] + RetryEvents(c, rest);
        if AllRetryable(attempts) {
          assert AllRetryable(rest) by {
            forall j | 0 <= j < |rest| ensures Retryable(rest[j]) { assert rest[j] == attempts[j + 1]; }
          }
        }
        forall k | 0 <= k < |attempts| && !Retryable(attempts[k]) && AllRetryable(attempts[..k])
          ensures |RetryEvents(c, attempts)| == k + 1
        {
          assert k > 0 && rest[k - 1] == attempts[k];
          var before := rest[..k - 1];
          assert AllRetryable(before) by {
            forall j | 0 <= j < |before| ensures Retryable(before[j]) {
              assert before[j] == attempts[..k][j + 1];
            }
          }
        }
      } else {
        assert RetryEvents(c, attempts) == [Event(c, attempts[0].Answered?)];
        forall k | 0 < k < |attempts| ensures !AllRetryable(attempts[..k]) {
          assert attempts[..k][0] == attempts[0];
        }
      }
    }
  }

  /** Every call the retry issues is the same call; all but the last are failures, and the
      last succeeded exactly when the retry did. No more calls are issued than answers exist. */
  lemma {:induction false} RetryEventsShape<T>(c: Call, attempts: seq<Attempt<T>>, last: Option<ApiError>)
    ensures var ev := RetryEvents(c, attempts);
      && |ev| <= |attempts|
      && (attempts != [] ==> |ev| > 0)
      && (forall k | 0 <= k < |ev| :: ev[k].call == c)
      && (forall k | 0 <= k < |ev| - 1 :: !ev[k].ok)
      && (RetryOutcome(attempts, last).Ok? <==> ev != [] && ev[|ev| - 1].ok)
  {
    if attempts != [] {
      var rest := attempts[1..];
      var e := if attempts[0].Refused? then Some(attempts[0].error) else last;
      RetryEventsShape(c, rest, e);
      var ev := RetryEvents(c, attempts);
      if Retryable(attempts[0]) {
        assert ev == [Event(c, false)] + RetryEvents(c, rest);
      } else {
        assert ev == [Event(c, attempts[0].Answered?)];
      }
    }
  }

  /** One invocation of the retry loop: the first answer decides whether the loop goes on. */
  lemma RetryUnfold<T>(c: Call, attempts: seq<Attempt<T>>, last: Option<ApiError>)
    requires attempts != []
    ensures RetryEvents(c, attempts) ==
      [Event(c, attempts[0].Answered?)] + (if Retryable(attempts[0]) then RetryEvents(c, attempts[1..]) else [])
    ensures RetryOutcome(attempts, last) == match attempts[0]
      case Answered(v) => Ok(v)
      case Refused(e, retryable) => if retryable then RetryOutcome(attempts[1..], Some(e)) else Err(Fatal(e))
  {
  }

  /** The control plane as seen through the load-balancer client: the ghost trace holds every
      call issued through it, in order. */
  class LbClient {
    ghost var trace: seq<Event>

    constructor ()
      ensures trace == []
    {
      trace := [];
    }

    /** Issues `c`; `answer` is what the control plane (or the wait helper) replies. */
    method Invoke<T>(c: Call, answer: Result<T, ApiError>) returns (r: Result<T, ApiError>)
      modifies this
      ensures r == answer
      ensures trace == old(trace) + [Event(c, answer.Ok?)]
    {
      trace := trace + [Event(c, answer.Ok?)];
      r := answer;
    }

    /** `resource.Retry` around `c`: invokes it once per answer until an answer is not a
        retryable error, and times out when the answers run out. */
    method Retry<T>(c: Call, attempts: seq<Attempt<T>>) returns (r: Result<T, RetryError>)
      modifies this
      ensures r == RetryOutcome(attempts, None)
      ensures trace == old(trace) + RetryEvents(c, attempts)
    {
      var i := 0;
      var last: Option<ApiError> := None;
      while i < |attempts|
        invariant 0 <= i <= |attempts|
        invariant RetryOutcome(attempts, None) == RetryOutcome(attempts[i..], last)
        invariant old(trace) + RetryEvents(c, attempts) == trace + RetryEvents(c, attempts[i..])
      {
        RetryUnfold(c, attempts[i..], last);
        assert attempts[i..][1..] == attempts[i + 1..];
        match attempts[i]
        case Answered(v) =>
          trace := trace + [Event(c, true)];
          return Ok(v);
        case Refused(e, retryable) =>
          trace := trace + [Event(c, false)];
          if !retryable {
            return Err(Fatal(e));
          }
          last := Some(e);
        i := i + 1;
      }
      r := Err(TimedOut(last));
    }
  }
}
