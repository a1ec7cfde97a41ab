/** Ordering and short-circuit properties of the pool handlers, proved about the functions
    that the handler methods are proved to follow. */
module PoolLifecycleProperties {
  import opened Wrappers
  import opened PoolSchema
  import opened PoolOptions
  import opened PoolClient
  import opened PoolResource

  predicate IsCreate(c: Call) { c.CreatePool? }
  predicate IsUpdate(c: Call) { c.UpdatePool? }
  predicate IsDelete(c: Call) { c.DeletePool? }
  predicate IsGetPool(c: Call) { c.GetPool? }
  predicate IsPoolWait(c: Call) { c.WaitPool? }

  /** Some call satisfying `p` succeeded before position k. */
  ghost predicate SucceededBefore(ev: seq<Event>, k: int, p: Call -> bool) {
    exists j | 0 <= j < k && j < |ev| :: ev[j].ok && p(ev[j].call)
  }

  /** Every call satisfying `later` comes after a successful call satisfying `earlier`. */
  ghost predicate OnlyAfterSuccessOf(ev: seq<Event>, later: Call -> bool, earlier: Call -> bool) {
    forall k | 0 <= k < |ev| && later(ev[k].call) :: SucceededBefore(ev, k, earlier)
  }

  ghost predicate Never(ev: seq<Event>, p: Call -> bool) {
    forall k | 0 <= k < |ev| :: !p(ev[k].call)
  }

  /** Every call satisfying `p` in the trace is `c`. */
  ghost predicate Uniform(ev: seq<Event>, p: Call -> bool, c: Call) {
    forall k | 0 <= k < |ev| && p(ev[k].call) :: ev[k].call == c
  }

  /** The number of listener or load-balancer waits in a trace. */
  function DependencyWaits(ev: seq<Event>): nat {
    if ev == [] then 0
    else (if IsDependencyWait(ev[0].call) then 1 else 0) + DependencyWaits(ev[1..])
  }

  lemma {:induction false} DependencyWaitsConcat(a: seq<Event>, b: seq<Event>)
    ensures DependencyWaits(a + b) == DependencyWaits(a) + DependencyWaits(b)
  {
    if a == [] {
      assert a + b == b;
    } else {
      assert (a + b)[1..] == a[1..] + b;
      DependencyWaitsConcat(a[1..], b);
    }
  }

  lemma {:induction false} NoDependencyWaits(ev: seq<Event>)
    requires Never(ev, IsDependencyWait)
    ensures DependencyWaits(ev) == 0
  {
    if ev != [] {
      assert Never(ev[1..], IsDependencyWait) by {
        forall k | 0 <= k < |ev[1..]| ensures !IsDependencyWait(ev[1..][k].call) {
          assert ev[1..][k] == ev[k + 1];
        }
      }
      NoDependencyWaits(ev[1..]);
    }
  }

  /** Appending a segment keeps "only after" when the segment has no `later` call, or when
      `earlier` already succeeded; a success already seen stays seen. */
  lemma OnlyAfterAppend(a: seq<Event>, b: seq<Event>, later: Call -> bool, earlier: Call -> bool)
    requires OnlyAfterSuccessOf(a, later, earlier)
    requires Never(b, later) || SucceededBefore(a, |a|, earlier)
    ensures OnlyAfterSuccessOf(a + b, later, earlier)
  {
    var ab := a + b;
    forall k | 0 <= k < |ab| && later(ab[k].call) ensures SucceededBefore(ab, k, earlier) {
      if k < |a| {
        assert ab[k] == a[k];
        var j :| 0 <= j < k && j < |a| && a[j].ok && earlier(a[j].call);
        assert ab[j] == a[j];
      } else {
        assert ab[k] == b[k - |a|];
        var j :| 0 <= j < |a| && j < |a| && a[j].ok && earlier(a[j].call);
        assert ab[j] == a[j];
      }
    }
  }

  lemma SucceededAppend(a: seq<Event>, b: seq<Event>, p: Call -> bool)
    requires SucceededBefore(a, |a|, p) || SucceededBefore(b, |b|, p)
    ensures SucceededBefore(a + b, |a + b|, p)
  {
    if SucceededBefore(a, |a|, p) {
      var j :| 0 <= j < |a| && a[j].ok && p(a[j].call);
      assert (a + b)[j] == a[j];
    } else {
      var j :| 0 <= j < |b| && b[j].ok && p(b[j].call);
      assert (a + b)[|a| + j] == b[j];
    }
  }

  lemma NeverAppend(a: seq<Event>, b: seq<Event>, p: Call -> bool)
    requires Never(a, p) && Never(b, p)
    ensures Never(a + b, p)
  {
    forall k | 0 <= k < |a + b| ensures !p((a + b)[k].call) {
      if k < |a| { assert (a + b)[k] == a[k]; } else { assert (a + b)[k] == b[k - |a|]; }
    }
  }

  lemma UniformAppend(a: seq<Event>, b: seq<Event>, p: Call -> bool, c: Call)
    requires Uniform(a, p, c) && Uniform(b, p, c)
    ensures Uniform(a + b, p, c)
  {
    forall k | 0 <= k < |a + b| && p((a + b)[k].call) ensures (a + b)[k].call == c {
      if k < |a| { assert (a + b)[k] == a[k]; } else { assert (a + b)[k] == b[k - |a|]; }
    }
  }

  /** What a retry segment contributes: only the retried call, and a success of it exactly
      when the retry succeeded. */
  lemma RetrySegment<T>(c: Call, attempts: seq<Attempt<T>>, p: Call -> bool)
    ensures Uniform(RetryEvents(c, attempts), p, c)
    ensures !p(c) ==> Never(RetryEvents(c, attempts), p)
    ensures p(c) && RetryOutcome(attempts, None).Ok? ==> SucceededBefore(RetryEvents(c, attempts), |RetryEvents(c, attempts)|, p)
  {
    RetryEventsShape(c, attempts, None);
  }

  /** The read at the end of create and update only fetches the pool. */
  lemma ReadOnlyFetches(id: string, c: PoolConfig, w: ReadWorld)
    ensures var ev := ReadRun(id, c, w).events;
      |ev| <= 1 && forall k | 0 <= k < |ev| :: ev[k].call == GetPool(id)
  {
  }

  /** The persistence cookie rule: APP_COOKIE without a cookie name, or a cookie name with
      another type, fails the create before any call reaches the control plane, and leaves
      the resource without an ID change. */
  lemma CreateValidatesBeforeAnyCall(id: string, c: PoolConfig, w: CreateWorld)
    requires c.persistence.Some? && !CookieRule(c.persistence.value)
    ensures var run := CreateRun(id, c, w);
      && run.events == [] && run.id == id && run.config == c
      && (w.client.Ok? ==> run.result == Failed(PersistenceInvalid(
            if c.persistence.value.ptype == AppCookie then CookieNameRequired else CookieNameNotAllowed)))
      && (w.client.Err? ==> run.result == Failed(ClientUnavailable(w.client.error)))
  {
  }

  /** The dependency wait: with `listener_id` set the listener is fetched first and, only if
      that succeeds, waited on; otherwise the load balancer is waited on. At most one
      dependency is ever waited on, and exactly one when the create call is reached. */
  lemma CreateWaitsOnOneDependency(id: string, c: PoolConfig, w: CreateWorld)
    requires w.client.Ok? && CheckPersistence(c.persistence).Ok?
    ensures var ev := CreateRun(id, c, w).events;
      && |ev| > 0
      && (c.listenerId != "" ==> ev[0] == Event(GetListener(c.listenerId), w.listenerGet.Ok?))
      && (c.listenerId != "" && w.listenerGet.Ok? ==> |ev| > 1 && ev[1] == Event(WaitListener(w.listenerGet.value), w.dependencyWait.Ok?))
      && (c.listenerId != "" && w.listenerGet.Err? ==> |ev| == 1)
      && (c.listenerId == "" ==> ev[0] == Event(WaitLoadBalancer(c.loadbalancerId), w.dependencyWait.Ok?))
      && DependencyWaits(ev) == (if c.listenerId != "" && w.listenerGet.Err? then 0 else 1)
  {
    var run := CreateRun(id, c, w);
    var persistence := CheckPersistence(c.persistence).value;
    var dep := DependencyPhase(c, w);
    assert DependencyWaits(dep.events) == (if c.listenerId != "" && w.listenerGet.Err? then 0 else 1) by {
      if c.listenerId != "" && w.listenerGet.Ok? {
        assert dep.events == [dep.events[0]] + [dep.events[1]];
        DependencyWaitsConcat([dep.events[0]], [dep.events[1]]);
      }
    }
    if dep.failure.None? {
      var opts := BuildCreateOpts(c, persistence);
      var creates := RetryEvents(CreatePool(opts), w.creates);
      RetryEventsShape(CreatePool(opts), w.creates, None);
      NoDependencyWaits(creates);
      DependencyWaitsConcat(dep.events, creates);
      match RetryOutcome(w.creates, None)
      case Err(_) =>
      case Ok(pool) =>
        var waited := dep.events + creates + [Event(WaitPool(pool.id, Active), w.poolWait.Ok?)];
        DependencyWaitsConcat(dep.events + creates, [Event(WaitPool(pool.id, Active), w.poolWait.Ok?)]);
        if w.poolWait.Ok? {
          var read := ReadRun(pool.id, c, w.read);
          ReadOnlyFetches(pool.id, c, w.read);
          NoDependencyWaits(read.events);
          DependencyWaitsConcat(waited, read.events);
        }
    }
  }

  /** What the dependency phase contributes: no pool call, and a successful dependency wait
      when it lets the create go on. */
  lemma DependencySegment(c: PoolConfig, w: CreateWorld)
    ensures var dep := DependencyPhase(c, w);
      && Never(dep.events, IsCreate) && Never(dep.events, IsPoolWait) && Never(dep.events, IsGetPool)
      && (dep.failure.None? ==> SucceededBefore(dep.events, |dep.events|, IsDependencyWait))
  {
    var dep := DependencyPhase(c, w);
    if dep.failure.None? {
      assert dep.events[|dep.events| - 1].ok;
    }
  }

  lemma ReadSegment(id: string, c: PoolConfig, w: ReadWorld)
    ensures var ev := ReadRun(id, c, w).events;
      && Never(ev, IsCreate) && Never(ev, IsUpdate) && Never(ev, IsDelete)
      && Never(ev, IsPoolWait) && Never(ev, IsDependencyWait)
  {
    ReadOnlyFetches(id, c, w);
  }

  /** As written, the create handler reports a failed listener or load-balancer wait with
      the `err` of the call before the wait, which is nil once the handler got that far: the
      diagnostic loses the wait's error. The calls issued are the same as in the corrected
      phase; only the detail of that one diagnostic differs. */
  lemma DependencyWaitDetailLostAsWritten(c: PoolConfig, w: CreateWorld)
    requires w.client.Ok?
    ensures DependencyPhaseAsWritten(c, w).events == DependencyPhase(c, w).events
    ensures w.dependencyWait.Ok? || (c.listenerId != "" && w.listenerGet.Err?) ==>
      DependencyPhaseAsWritten(c, w) == DependencyPhase(c, w)
    ensures w.dependencyWait.Err? && (c.listenerId == "" || w.listenerGet.Ok?) ==>
      && DependencyPhaseAsWritten(c, w).failure == Some(DependencyNotActive(None))
      && DependencyPhase(c, w).failure == Some(DependencyNotActive(Some(w.dependencyWait.error)))
  {
  }

  /** A failed listener or load-balancer wait stops the create right after the wait, and the
      diagnostic carries the wait's own error. */
  lemma CreateReportsDependencyWaitError(id: string, c: PoolConfig, w: CreateWorld)
    requires w.client.Ok? && CheckPersistence(c.persistence).Ok?
    requires c.listenerId == "" || w.listenerGet.Ok?
    requires w.dependencyWait.Err?
    ensures var run := CreateRun(id, c, w);
      && run.result == Failed(DependencyNotActive(Some(w.dependencyWait.error)))
      && run.id == id && run.config == c
      && |run.events| > 0 && !run.events[|run.events| - 1].ok
      && IsDependencyWait(run.events[|run.events| - 1].call)
      && Never(run.events, IsCreate)
  {
  }

  /** Create ordering: every create call follows a successful dependency wait, the pool wait
      follows a successful create, the ID and attributes of `d` change only after a
      successful pool wait (`d.SetId` then Read), and a clean result implies both succeeded. */
  lemma CreateOrdering(id: string, c: PoolConfig, w: CreateWorld)
    ensures var run := CreateRun(id, c, w);
      && OnlyAfterSuccessOf(run.events, IsCreate, IsDependencyWait)
      && OnlyAfterSuccessOf(run.events, IsPoolWait, IsCreate)
      && OnlyAfterSuccessOf(run.events, IsGetPool, IsPoolWait)
      && (SucceededBefore(run.events, |run.events|, IsPoolWait) || (run.id == id && run.config == c))
      && (run.result.Clean? ==>
            (SucceededBefore(run.events, |run.events|, IsCreate) && SucceededBefore(run.events, |run.events|, IsPoolWait)))
  {
    if w.client.Ok? && CheckPersistence(c.persistence).Ok? {
      var dep := DependencyPhase(c, w);
      DependencySegment(c, w);
      if dep.failure.None? {
        var call := CreatePool(BuildCreateOpts(c, CheckPersistence(c.persistence).value));
        var creates := RetryEvents(call, w.creates);
        RetrySegment(call, w.creates, IsCreate);
        RetrySegment(call, w.creates, IsPoolWait);
        RetrySegment(call, w.creates, IsGetPool);
        var created := dep.events + creates;
        OnlyAfterAppend(dep.events, creates, IsCreate, IsDependencyWait);
        OnlyAfterAppend(dep.events, creates, IsPoolWait, IsCreate);
        OnlyAfterAppend(dep.events, creates, IsGetPool, IsPoolWait);
        match RetryOutcome(w.creates, None)
        case Err(_) =>
        case Ok(pool) =>
          var wait := [Event(WaitPool(pool.id, Active), w.poolWait.Ok?)];
          var waited := created + wait;
          SucceededAppend(dep.events, creates, IsCreate);
          OnlyAfterAppend(created, wait, IsCreate, IsDependencyWait);
          OnlyAfterAppend(created, wait, IsPoolWait, IsCreate);
          OnlyAfterAppend(created, wait, IsGetPool, IsPoolWait);
          if w.poolWait.Ok? {
            var read := ReadRun(pool.id, c, w.read);
            ReadSegment(pool.id, c, w.read);
            assert wait[0].ok && IsPoolWait(wait[0].call);
            SucceededAppend(created, wait, IsPoolWait);
            SucceededAppend(created, wait, IsCreate);
            OnlyAfterAppend(waited, read.events, IsCreate, IsDependencyWait);
            OnlyAfterAppend(waited, read.events, IsPoolWait, IsCreate);
            OnlyAfterAppend(waited, read.events, IsGetPool, IsPoolWait);
            SucceededAppend(waited, read.events, IsPoolWait);
            SucceededAppend(waited, read.events, IsCreate);
          }
      }
    }
  }

  /** Update ordering: the pool is fetched, then waited on until ACTIVE, then updated, then
      waited on again. Every update call follows a successful wait; a failed wait before the
      update means no update call; a clean result means a successful wait followed a
      successful update. */
  lemma UpdateOrdering(id: string, prior: PoolConfig, c: PoolConfig, w: UpdateWorld)
    ensures var run := UpdateRun(id, prior, c, w);
      var ev := run.events;
      && OnlyAfterSuccessOf(ev, IsPoolWait, IsGetPool)
      && OnlyAfterSuccessOf(ev, IsUpdate, IsPoolWait)
      && (w.client.Ok? && w.get.Ok? && w.readyWait.Err? ==> Never(ev, IsUpdate))
      && (run.result.Clean? ==>
            exists k | 0 <= k < |ev| :: ev[k].ok && IsPoolWait(ev[k].call) && SucceededBefore(ev, k, IsUpdate))
  {
    if w.client.Ok? && w.get.Ok? && w.readyWait.Err? {
      var ev := UpdateRun(id, prior, c, w).events;
      assert ev[0].ok && IsGetPool(ev[0].call);
    } else if w.client.Ok? && w.get.Ok? {
      var pool := w.get.value;
      var call := UpdatePool(id, UpdateDiff(prior, c));
      var ready := [Event(GetPool(id), true), Event(WaitPool(pool.id, Active), true)];
      assert OnlyAfterSuccessOf(ready, IsPoolWait, IsGetPool) by {
        assert ready[0].ok && IsGetPool(ready[0].call);
      }
      assert SucceededBefore(ready, |ready|, IsPoolWait) && SucceededBefore(ready, |ready|, IsGetPool) by {
        assert ready[1].ok && IsPoolWait(ready[1].call);
      }
      var updates := RetryEvents(call, w.updates);
      RetrySegment(call, w.updates, IsUpdate);
      RetrySegment(call, w.updates, IsPoolWait);
      var updated := ready + updates;
      OnlyAfterAppend(ready, updates, IsPoolWait, IsGetPool);
      OnlyAfterAppend(ready, updates, IsUpdate, IsPoolWait);
      SucceededAppend(ready, updates, IsGetPool);
      SucceededAppend(ready, updates, IsPoolWait);
      match RetryOutcome(w.updates, None)
      case Err(_) =>
      case Ok(_) =>
        var wait := [Event(WaitPool(pool.id, Active), w.settledWait.Ok?)];
        var settled := updated + wait;
        OnlyAfterAppend(updated, wait, IsPoolWait, IsGetPool);
        OnlyAfterAppend(updated, wait, IsUpdate, IsPoolWait);
        if w.settledWait.Ok? {
          var read := ReadRun(id, c, w.read);
          ReadSegment(id, c, w.read);
          OnlyAfterAppend(settled, read.events, IsPoolWait, IsGetPool);
          OnlyAfterAppend(settled, read.events, IsUpdate, IsPoolWait);
        }
    }
    UpdateCleanSettled(id, prior, c, w);
  }

  /** A clean update went through a successful ACTIVE wait after a successful update call. */
  lemma UpdateCleanSettled(id: string, prior: PoolConfig, c: PoolConfig, w: UpdateWorld)
    ensures var run := UpdateRun(id, prior, c, w);
      var ev := run.events;
      run.result.Clean? ==>
        exists k | 0 <= k < |ev| :: ev[k].ok && IsPoolWait(ev[k].call) && SucceededBefore(ev, k, IsUpdate)
  {
    if w.client.Ok? && w.get.Ok? && w.readyWait.Ok? && RetryOutcome(w.updates, None).Ok? && w.settledWait.Ok? {
      UpdateStopsAtFailure(id, prior, c, w);
      var ev := UpdateRun(id, prior, c, w).events;
      var k := 2 + |RetryEvents(UpdatePool(id, UpdateDiff(prior, c)), w.updates)|;
      assert ev[k - 1].ok && IsUpdate(ev[k - 1].call);
      assert SucceededBefore(ev, k, IsUpdate);
      assert ev[k].ok && IsPoolWait(ev[k].call);
    }
  }

  /** An update call carries exactly the changed mutable attributes (`UpdateDiff`), and an
      update never creates, deletes, or waits on the parent listener or load balancer. */
  lemma UpdateTouchesOnlyThePool(id: string, prior: PoolConfig, c: PoolConfig, w: UpdateWorld)
    ensures var ev := UpdateRun(id, prior, c, w).events;
      && Uniform(ev, IsUpdate, UpdatePool(id, UpdateDiff(prior, c)))
      && Never(ev, IsCreate) && Never(ev, IsDelete) && Never(ev, IsDependencyWait)
  {
    if w.client.Ok? && w.get.Ok? && w.readyWait.Ok? {
      var pool := w.get.value;
      var call := UpdatePool(id, UpdateDiff(prior, c));
      var ready := [Event(GetPool(id), true), Event(WaitPool(pool.id, Active), true)];
      var updates := RetryEvents(call, w.updates);
      RetrySegment(call, w.updates, IsUpdate);
      RetrySegment(call, w.updates, IsCreate);
      RetrySegment(call, w.updates, IsDelete);
      RetrySegment(call, w.updates, IsDependencyWait);
      var updated := ready + updates;
      UniformAppend(ready, updates, IsUpdate, call);
      NeverAppend(ready, updates, IsCreate);
      NeverAppend(ready, updates, IsDelete);
      NeverAppend(ready, updates, IsDependencyWait);
      if RetryOutcome(w.updates, None).Ok? {
        var wait := [Event(WaitPool(pool.id, Active), w.settledWait.Ok?)];
        var settled := updated + wait;
        UniformAppend(updated, wait, IsUpdate, call);
        NeverAppend(updated, wait, IsCreate);
        NeverAppend(updated, wait, IsDelete);
        NeverAppend(updated, wait, IsDependencyWait);
        if w.settledWait.Ok? {
          var read := ReadRun(id, c, w.read);
          ReadSegment(id, c, w.read);
          UniformAppend(settled, read.events, IsUpdate, call);
          NeverAppend(settled, read.events, IsCreate);
          NeverAppend(settled, read.events, IsDelete);
          NeverAppend(settled, read.events, IsDependencyWait);
        }
      }
    }
  }

  /** Delete ordering: a failed fetch returns through `CheckDeleted` without a delete call (a
      404 then clears the ID and is not an error); the delete call follows the successful
      fetch, and the wait for DELETED follows only a successful delete. */
  lemma DeleteOrdering(id: string, c: PoolConfig, w: DeleteWorld)
    ensures var run := DeleteRun(id, c, w);
      var ev := run.events;
      && OnlyAfterSuccessOf(ev, IsDelete, IsGetPool)
      && OnlyAfterSuccessOf(ev, IsPoolWait, IsDelete)
      && Uniform(ev, IsDelete, DeletePool(id))
      && (forall k | 0 <= k < |ev| && IsPoolWait(ev[k].call) :: ev[k].call.target == Deleted)
      && Never(ev, IsCreate) && Never(ev, IsUpdate) && Never(ev, IsDependencyWait)
      && (w.client.Ok? && w.get.Err? ==>
            ev == [Event(GetPool(id), false)]
            && (run.result.Clean? <==> w.get.error == NotFound)
            && run.id == (if w.get.error == NotFound then "" else id))
      && run.config == c
  {
    if w.client.Ok? && w.get.Ok? {
      var pool := w.get.value;
      var fetched := [Event(GetPool(id), true)];
      assert SucceededBefore(fetched, |fetched|, IsGetPool) by { assert fetched[0].ok; }
      var deletes := RetryEvents(DeletePool(id), w.deletes);
      RetrySegment(DeletePool(id), w.deletes, IsDelete);
      RetrySegment(DeletePool(id), w.deletes, IsPoolWait);
      RetrySegment(DeletePool(id), w.deletes, IsCreate);
      RetrySegment(DeletePool(id), w.deletes, IsUpdate);
      RetrySegment(DeletePool(id), w.deletes, IsDependencyWait);
      var deleted := fetched + deletes;
      OnlyAfterAppend(fetched, deletes, IsDelete, IsGetPool);
      OnlyAfterAppend(fetched, deletes, IsPoolWait, IsDelete);
      UniformAppend(fetched, deletes, IsDelete, DeletePool(id));
      NeverAppend(fetched, deletes, IsPoolWait);
      NeverAppend(fetched, deletes, IsCreate);
      NeverAppend(fetched, deletes, IsUpdate);
      NeverAppend(fetched, deletes, IsDependencyWait);
      match RetryOutcome(w.deletes, None)
      case Err(_) =>
      case Ok(_) =>
        var wait := [Event(WaitPool(pool.id, Deleted), w.deletedWait.Ok?)];
        SucceededAppend(fetched, deletes, IsDelete);
        OnlyAfterAppend(deleted, wait, IsDelete, IsGetPool);
        OnlyAfterAppend(deleted, wait, IsPoolWait, IsDelete);
        UniformAppend(deleted, wait, IsDelete, DeletePool(id));
        NeverAppend(deleted, wait, IsCreate);
        NeverAppend(deleted, wait, IsUpdate);
        NeverAppend(deleted, wait, IsDependencyWait);
        UniformAppend(deleted, wait, IsPoolWait, WaitPool(pool.id, Deleted));
    }
  }

  /** Deleting a pool the control plane no longer knows succeeds without a delete call. */
  lemma DeleteOfMissingPoolSucceeds(id: string, c: PoolConfig, w: DeleteWorld)
    requires w.client.Ok? && w.get == Err(NotFound)
    ensures DeleteRun(id, c, w) == Run([Event(GetPool(id), false)], Clean, "", c)
  {
  }

  /** Import: the first listener is preferred when its ID is non-empty, otherwise the first load
      balancer when its ID is non-empty, otherwise the import fails; only one of
      `listener_id` / `loadbalancer_id` is written, and nothing but the fetch is called. */
  lemma ImportSelection(id: string, c: PoolConfig, w: ImportWorld)
    requires w.client.Ok? && w.get.Ok?
    ensures var run := ImportRun(id, c, w);
      var pool := w.get.value;
      && run.events == [Event(GetPool(id), true)] && run.id == id
      && (run.result == Imported <==> HasFirstId(pool.listeners) || HasFirstId(pool.loadbalancers))
      && (run.result != Imported ==> run.result == ImportFailed(NoParent) && run.config == c)
      && (HasFirstId(pool.listeners) ==> run.config == c.(listenerId := pool.listeners[0]))
      && (!HasFirstId(pool.listeners) && HasFirstId(pool.loadbalancers) ==>
            run.config == c.(loadbalancerId := pool.loadbalancers[0]))
  {
  }

  /** Read: a 404 clears the ID without an error; any other fetch error is reported and
      leaves `d` as it was; a fetched pool refreshes the attributes. */
  lemma ReadForgetsDeletedPool(id: string, c: PoolConfig, w: ReadWorld)
    requires w.client.Ok?
    ensures var run := ReadRun(id, c, w);
      && (w.get == Err(NotFound) ==> run.result == Clean && run.id == "" && run.config == c)
      && (w.get.Err? && w.get.error != NotFound ==> run.result == Failed(PoolUnavailable(w.get.error)) && run.id == id && run.config == c)
      && (w.get.Ok? ==> run.result == Clean && run.id == id && run.config == Refreshed(c, w.get.value))
  {
  }

  /** Once the dependency is active, create stops at the first failure: a rejected create
      ends the handler after its last attempt, and a failed pool wait right after that wait
      with `d` unchanged. After a successful pool wait the ID becomes the created pool's
      (`d.SetId`), and Read fetches exactly that pool. */
  lemma CreateRecordsPoolThenReads(id: string, c: PoolConfig, w: CreateWorld)
    requires w.client.Ok? && CheckPersistence(c.persistence).Ok? && DependencyPhase(c, w).failure.None?
    ensures var run := CreateRun(id, c, w);
      var ev := run.events;
      var call := CreatePool(BuildCreateOpts(c, CheckPersistence(c.persistence).value));
      var k := |DependencyPhase(c, w).events| + |RetryEvents(call, w.creates)|;
      && k <= |ev|
      && (RetryOutcome(w.creates, None).Err? ==>
            && |ev| == k && run.result == Failed(CreateRejected(RetryOutcome(w.creates, None).error))
            && run.id == id && run.config == c
            && (w.creates != [] ==> ev[k - 1] == Event(call, false)))
      && (RetryOutcome(w.creates, None).Ok? ==>
            var pool := RetryOutcome(w.creates, None).value;
            && k < |ev| && ev[k - 1] == Event(call, true)
            && ev[k] == Event(WaitPool(pool.id, Active), w.poolWait.Ok?)
            && (w.poolWait.Err? ==>
                  |ev| == k + 1 && run.result == Failed(PoolNotActive(w.poolWait.error))
                  && run.id == id && run.config == c)
            && (w.poolWait.Ok? ==>
                  && run.id == (if w.read.client.Ok? && w.read.get == Err(NotFound) then "" else pool.id)
                  && (w.read.client.Ok? ==> |ev| == k + 2 && ev[k + 1].call == GetPool(pool.id))
                  && (run.result.Clean? <==> w.read.client.Ok? && (w.read.get.Ok? || w.read.get == Err(NotFound)))
                  && (w.read.client.Ok? && w.read.get.Ok? ==> run.config == Refreshed(c, w.read.get.value))
                  && (!(w.read.client.Ok? && w.read.get.Ok?) ==> run.config == c)))
  {
    var call := CreatePool(BuildCreateOpts(c, CheckPersistence(c.persistence).value));
    var dep := DependencyPhase(c, w);
    var creates := RetryEvents(call, w.creates);
    RetryEventsShape(call, w.creates, None);
    var created := dep.events + creates;
    if w.creates != [] {
      assert created[|created| - 1] == creates[|creates| - 1];
    }
  }

  /** Once the pool is fetched and ACTIVE, update stops at the first failure: a rejected
      update ends the handler after its last attempt, and a failed wait after the update ends
      it right after that wait, in both cases with `d` unchanged. After a successful update
      and wait, Read fetches the pool. */
  lemma UpdateStopsAtFailure(id: string, prior: PoolConfig, c: PoolConfig, w: UpdateWorld)
    requires w.client.Ok? && w.get.Ok? && w.readyWait.Ok?
    ensures var run := UpdateRun(id, prior, c, w);
      var ev := run.events;
      var pool := w.get.value;
      var call := UpdatePool(id, UpdateDiff(prior, c));
      var k := 2 + |RetryEvents(call, w.updates)|;
      && k <= |ev|
      && ev[..2] == [Event(GetPool(id), true), Event(WaitPool(pool.id, Active), true)]
      && (RetryOutcome(w.updates, None).Err? ==>
            && |ev| == k && run.result == Failed(UpdateRejected(RetryOutcome(w.updates, None).error))
            && run.id == id && run.config == c
            && (w.updates != [] ==> ev[k - 1] == Event(call, false)))
      && (RetryOutcome(w.updates, None).Ok? ==>
            && k < |ev| && ev[k - 1] == Event(call, true)
            && ev[k] == Event(WaitPool(pool.id, Active), w.settledWait.Ok?)
            && (w.settledWait.Err? ==>
                  |ev| == k + 1 && run.result == Failed(PoolNotActive(w.settledWait.error))
                  && run.id == id && run.config == c)
            && (w.settledWait.Ok? ==>
                  && (w.read.client.Ok? ==> |ev| == k + 2 && ev[k + 1].call == GetPool(id))
                  && (run.result.Clean? <==> w.read.client.Ok? && (w.read.get.Ok? || w.read.get == Err(NotFound)))
                  && run.id == (if w.read.client.Ok? && w.read.get == Err(NotFound) then "" else id)
                  && (w.read.client.Ok? && w.read.get.Ok? ==> run.config == Refreshed(c, w.read.get.value))
                  && (!(w.read.client.Ok? && w.read.get.Ok?) ==> run.config == c)))
  {
    var call := UpdatePool(id, UpdateDiff(prior, c));
    var ready := [Event(GetPool(id), true), Event(WaitPool(w.get.value.id, Active), true)];
    var updates := RetryEvents(call, w.updates);
    RetryEventsShape(call, w.updates, None);
    var updated := ready + updates;
    if w.updates != [] {
      assert updated[|updated| - 1] == updates[|updates| - 1];
    }
  }

  /** Delete after a successful fetch: a successful delete is followed by the wait for DELETED
      as the last call; a delete answered with a non-retryable 404 goes through
      `CheckDeleted`, which clears the ID without an error; any other delete failure is
      reported with no wait. */
  lemma DeleteOutcome(id: string, c: PoolConfig, w: DeleteWorld)
    requires w.client.Ok? && w.get.Ok?
    ensures var run := DeleteRun(id, c, w);
      var ev := run.events;
      var r := RetryOutcome(w.deletes, None);
      && ev[0] == Event(GetPool(id), true)
      && (r.Ok? ==>
            && |ev| >= 3 && ev[|ev| - 2] == Event(DeletePool(id), true)
            && ev[|ev| - 1] == Event(WaitPool(w.get.value.id, Deleted), w.deletedWait.Ok?)
            && run.id == id
            && (run.result.Clean? <==> w.deletedWait.Ok?))
      && (r == Err(Fatal(NotFound)) ==>
            && |ev| >= 2 && ev[|ev| - 1] == Event(DeletePool(id), false)
            && run.result == Clean && run.id == "")
      && (r.Err? && r != Err(Fatal(NotFound)) ==>
            run.result == Failed(DeleteRejected(r.error)) && run.id == id && Never(ev, IsPoolWait))
      && run.config == c
  {
    var deletes := RetryEvents(DeletePool(id), w.deletes);
    RetryEventsShape(DeletePool(id), w.deletes, None);
    RetrySegment(DeletePool(id), w.deletes, IsPoolWait);
    var fetched := [Event(GetPool(id), true)];
    var deleted := fetched + deletes;
    assert deleted[0] == fetched[0];
    if w.deletes != [] {
      assert deleted[|deleted| - 1] == deletes[|deletes| - 1];
    }
    NeverAppend(fetched, deletes, IsPoolWait);
  }

  /** When a delete ends without an error: the pool was already gone at the fetch or at the
      delete, or the delete and the wait for DELETED both succeeded. */
  lemma DeleteCleanIff(id: string, c: PoolConfig, w: DeleteWorld)
    ensures DeleteRun(id, c, w).result.Clean? <==>
      && w.client.Ok?
      && (|| w.get == Err(NotFound)
          || (&& w.get.Ok?
              && (|| RetryOutcome(w.deletes, None) == Err(Fatal(NotFound))
                  || (RetryOutcome(w.deletes, None).Ok? && w.deletedWait.Ok?))))
  {
  }

  /** Import whose fetch fails: a 404 yields no resource and clears the ID; any other error
      is reported and leaves `d` unchanged. */
  lemma ImportFetchFails(id: string, c: PoolConfig, w: ImportWorld)
    requires w.client.Ok? && w.get.Err?
    ensures var run := ImportRun(id, c, w);
      && run.events == [Event(GetPool(id), false)] && run.config == c
      && (w.get.error == NotFound ==> run.result == NotImported && run.id == "")
      && (w.get.error != NotFound ==> run.result == ImportFailed(PoolUnavailable(w.get.error)) && run.id == id)
  {
  }

  /** The update handler's first exits: a failed fetch is reported as it is, without
      `CheckDeleted`, so even a 404 keeps the ID; a failed wait before the update ends the
      handler before the update, the second wait and Read. Both leave `d` unchanged. */
  lemma UpdateEarlyExits(id: string, prior: PoolConfig, c: PoolConfig, w: UpdateWorld)
    requires w.client.Ok?
    ensures w.get.Err? ==>
      UpdateRun(id, prior, c, w) == Run([Event(GetPool(id), false)], Failed(PoolUnavailable(w.get.error)), id, c)
    ensures w.get.Ok? && w.readyWait.Err? ==>
      UpdateRun(id, prior, c, w) ==
        Run([Event(GetPool(id), true), Event(WaitPool(w.get.value.id, Active), false)],
            Failed(PoolNotActive(w.readyWait.error)), id, c)
  {
  }

  /** A handler whose client cannot be built returns that error before any call, with `d`
      unchanged. */
  lemma ClientFailureStopsEveryHandler(id: string, prior: PoolConfig, c: PoolConfig,
                                       r: ReadWorld, cw: CreateWorld, uw: UpdateWorld,
                                       dw: DeleteWorld, iw: ImportWorld)
    ensures r.client.Err? ==> ReadRun(id, c, r) == Run([], Failed(ClientUnavailable(r.client.error)), id, c)
    ensures cw.client.Err? ==> CreateRun(id, c, cw) == Run([], Failed(ClientUnavailable(cw.client.error)), id, c)
    ensures uw.client.Err? ==>
      UpdateRun(id, prior, c, uw) == Run([], Failed(ClientUnavailable(uw.client.error)), id, c)
    ensures dw.client.Err? ==> DeleteRun(id, c, dw) == Run([], Failed(ClientUnavailable(dw.client.error)), id, c)
    ensures iw.client.Err? ==>
      ImportRun(id, c, iw) == Run([], ImportFailed(ClientUnavailable(iw.client.error)), id, c)
  {
  }
}
