/** The create, read, update, delete and import handlers of the pool resource. Each handler
    is a method over the resource data `d` and the client; the answers of the control plane
    and of the helpers the handler calls are given as a "world" record. Beside each method a
    function of the same inputs computes the calls issued, the diagnostics returned and the
    new state of `d`; the method is proved to agree with it, and the lemmas of
    PoolLifecycleProperties are proved about those functions. */
module PoolResource {
  import opened Wrappers
  import opened PoolSchema
  import opened PoolOptions
  import opened PoolClient

  /** Why a handler returned an error diagnostic (the message text is not modelled). */
  datatype Failure =
    | ClientUnavailable(error: ApiError)          // chooseLBV2Client failed
    | PersistenceInvalid(reason: ValidationError)
    | ListenerUnavailable(error: ApiError)        // listeners.Get failed
    | DependencyNotActive(detail: Option<ApiError>) // listener or load-balancer wait failed; the error shown
    | CreateRejected(retry: RetryError)
    | PoolNotActive(error: ApiError)              // waitForLBV2Pool(..., "ACTIVE", ...) failed
    | PoolUnavailable(error: ApiError)            // pools.Get failed
    | UpdateRejected(retry: RetryError)
    | DeleteRejected(retry: RetryError)
    | PoolNotDeleted(error: ApiError)             // waitForLBV2Pool(..., "DELETED", ...) failed
    | NoParent                                    // import found no parent reference

  /** The `diag.Diagnostics` a handler returns: none, or one error. */
  datatype Diags = Clean | Failed(failure: Failure)

  /** What the import handler returns: the resource, nothing (the pool is gone), or an error. */
  datatype ImportResult = Imported | NotImported | ImportFailed(failure: Failure)

  /** `*schema.ResourceData` restricted to what the handlers touch: the ID, the prior state
      `d.HasChange` compares against, and the current attribute values `d.Get` reads and
      `d.Set` writes. */
  class ResourceData {
    var id: string
    var state: PoolConfig
    var config: PoolConfig

    constructor (id: string, state: PoolConfig, config: PoolConfig)
      ensures this.id == id && this.state == state && this.config == config
    {
      this.id := id;
      this.state := state;
      this.config := config;
    }
  }

  /** The answers a read meets: client construction, then `pools.Get`. */
  datatype ReadWorld = ReadWorld(client: Ack, get: Result<Pool, ApiError>)

  /** The answers a create meets, in the order the handler asks for them. */
  datatype CreateWorld = CreateWorld(
    client: Ack,
    listenerGet: Result<Listener, ApiError>,
    dependencyWait: Ack,
    creates: seq<Attempt<Pool>>,
    poolWait: Ack,
    read: ReadWorld)

  datatype UpdateWorld = UpdateWorld(
    client: Ack,
    get: Result<Pool, ApiError>,
    readyWait: Ack,
    updates: seq<Attempt<()>>,
    settledWait: Ack,
    read: ReadWorld)

  datatype DeleteWorld = DeleteWorld(
    client: Ack,
    get: Result<Pool, ApiError>,
    deletes: seq<Attempt<()>>,
    deletedWait: Ack)

  datatype ImportWorld = ImportWorld(client: Ack, get: Result<Pool, ApiError>)

  /** The calls a handler issued, what it returned, and the ID and attributes of `d` after it. */
  datatype Run<R> = Run(events: seq<Event>, result: R, id: string, config: PoolConfig)

  /** `CheckDeleted`: a 404 means the pool is gone, which is not an error (the ID is then
      cleared); any other error is reported as `f`. */
  function CheckDeleted(notFound: bool, f: Failure): (r: Diags)
    ensures r.Clean? <==> notFound
  {
    if notFound then Clean else Failed(f)
  }

  /** The attributes the read handler copies from the fetched pool. */
  function Refreshed(c: PoolConfig, pool: Pool): PoolConfig {
    c.(lbMethod := pool.lbMethod, protocol := pool.protocol, description := pool.description,
       tenantId := pool.tenantId, adminStateUp := pool.adminStateUp, name := pool.name)
  }

  method ForgetIfDeleted(d: ResourceData, notFound: bool, f: Failure) returns (diags: Diags)
    modifies d
    ensures diags == CheckDeleted(notFound, f)
    ensures d.id == (if notFound then "" else old(d.id))
    ensures d.state == old(d.state) && d.config == old(d.config)
  {
    diags := CheckDeleted(notFound, f);
    if notFound {
      d.id := "";
    }
  }

  // ---------------------------------------------------------------- read

  function ReadRun(id: string, c: PoolConfig, w: ReadWorld): Run<Diags> {
    if w.client.Err? then Run([], Failed(ClientUnavailable(w.client.error)), id, c)
    else match w.get
      case Err(e) =>
        var diags := CheckDeleted(e.NotFound?, PoolUnavailable(e));
        Run([Event(GetPool(id), false)], diags, if e.NotFound? then "" else id, c)
      case Ok(pool) => Run([Event(GetPool(id), true)], Clean, id, Refreshed(c, pool))
  }

  /** resourcePoolV2Read. */
  method Read(d: ResourceData, client: LbClient, w: ReadWorld) returns (diags: Diags)
    modifies d, client
    ensures var run := ReadRun(old(d.id), old(d.config), w);
      && client.trace == old(client.trace) + run.events
      && diags == run.result && d.id == run.id && d.config == run.config
    ensures d.state == old(d.state)
  {
    if w.client.Err? {
      return Failed(ClientUnavailable(w.client.error));
    }
    var got := client.Invoke(GetPool(d.id), w.get);
    if got.Err? {
      diags := ForgetIfDeleted(d, got.error.NotFound?, PoolUnavailable(got.error));
      return;
    }
    d.config := Refreshed(d.config, got.value);
    diags := Clean;
  }

  // ---------------------------------------------------------------- create

  /** The calls of the dependency wait and the failure that stops the create, if any. */
  datatype Phase = Phase(events: seq<Event>, failure: Option<Failure>)

  /** The listener is fetched and waited on when `listener_id` is set, otherwise the load
      balancer. A failed wait is reported with the wait's own error (the source shows a nil
      error there instead; see `DependencyPhaseAsWritten`). */
  function DependencyPhase(c: PoolConfig, w: CreateWorld): Phase {
    if c.listenerId != "" then
      match w.listenerGet
      case Err(e) => Phase([Event(GetListener(c.listenerId), false)], Some(ListenerUnavailable(e)))
      case Ok(listener) =>
        Phase([Event(GetListener(c.listenerId), true), Event(WaitListener(listener), w.dependencyWait.Ok?)],
              if w.dependencyWait.Err? then Some(DependencyNotActive(Some(w.dependencyWait.error))) else None)
    else
      Phase([Event(WaitLoadBalancer(c.loadbalancerId), w.dependencyWait.Ok?)],
            if w.dependencyWait.Err? then Some(DependencyNotActive(Some(w.dependencyWait.error))) else None)
  }

  /** The error a Go call leaves in its `err` variable: nil on success. */
  function ErrOf<T>(r: Result<T, ApiError>): (e: Option<ApiError>)
    ensures e.None? <==> r.Ok?
    ensures r.Err? ==> e == Some(r.error)
  {
    if r.Ok? then None else Some(r.error)
  }

  /** The dependency phase as the source writes it: the same calls, but the diagnostic of a
      failed wait shows `err` rather than the wait's error. In the listener branch that `err`
      is the one `listeners.Get` left behind (the block declares its own); in the
      load-balancer branch it is the one `chooseLBV2Client` left behind. */
  function DependencyPhaseAsWritten(c: PoolConfig, w: CreateWorld): Phase {
    if c.listenerId != "" then
      match w.listenerGet
      case Err(e) => Phase([Event(GetListener(c.listenerId), false)], Some(ListenerUnavailable(e)))
      case Ok(listener) =>
        Phase([Event(GetListener(c.listenerId), true), Event(WaitListener(listener), w.dependencyWait.Ok?)],
              if w.dependencyWait.Err? then Some(DependencyNotActive(ErrOf(w.listenerGet))) else None)
    else
      Phase([Event(WaitLoadBalancer(c.loadbalancerId), w.dependencyWait.Ok?)],
            if w.dependencyWait.Err? then Some(DependencyNotActive(ErrOf(w.client))) else None)
  }

  /** The dependency wait of the create handler: fetch and wait on the listener when
      `listener_id` is set, otherwise wait on the load balancer. */
  method WaitForDependency(c: PoolConfig, client: LbClient, w: CreateWorld) returns (failure: Option<Failure>)
    modifies client
    ensures client.trace == old(client.trace) + DependencyPhase(c, w).events
    ensures failure == DependencyPhase(c, w).failure
  {
    if c.listenerId != "" {
      var listener := client.Invoke(GetListener(c.listenerId), w.listenerGet);
      if listener.Err? {
        return Some(ListenerUnavailable(listener.error));
      }
      var waited := client.Invoke(WaitListener(listener.value), w.dependencyWait);
      failure := if waited.Err? then Some(DependencyNotActive(Some(waited.error))) else None;
    } else {
      var waited := client.Invoke(WaitLoadBalancer(c.loadbalancerId), w.dependencyWait);
      failure := if waited.Err? then Some(DependencyNotActive(Some(waited.error))) else None;
    }
  }

  function CreateRun(id: string, c: PoolConfig, w: CreateWorld): Run<Diags> {
    if w.client.Err? then Run([], Failed(ClientUnavailable(w.client.error)), id, c)
    else match CheckPersistence(c.persistence)
      case Err(v) => Run([], Failed(PersistenceInvalid(v)), id, c)
      case Ok(persistence) =>
        var dep := DependencyPhase(c, w);
        if dep.failure.Some? then Run(dep.events, Failed(dep.failure.value), id, c)
        else
          var created := dep.events + RetryEvents(CreatePool(BuildCreateOpts(c, persistence)), w.creates);
          match RetryOutcome(w.creates, None)
          case Err(r) => Run(created, Failed(CreateRejected(r)), id, c)
          case Ok(pool) =>
            var waited := created + [Event(WaitPool(pool.id, Active), w.poolWait.Ok?)];
            if w.poolWait.Err? then Run(waited, Failed(PoolNotActive(w.poolWait.error)), id, c)
            else
              var read := ReadRun(pool.id, c, w.read);
              Run(waited + read.events, read.result, read.id, read.config)
  }

  /** resourcePoolV2Create. */
  method Create(d: ResourceData, client: LbClient, w: CreateWorld) returns (diags: Diags)
    modifies d, client
    ensures var run := CreateRun(old(d.id), old(d.config), w);
      && client.trace == old(client.trace) + run.events
      && diags == run.result && d.id == run.id && d.config == run.config
    ensures d.state == old(d.state)
  {
    if w.client.Err? {
      return Failed(ClientUnavailable(w.client.error));
    }
    var c := d.config;
    var checked := CheckPersistence(c.persistence);
    if checked.Err? {
      return Failed(PersistenceInvalid(checked.error));
    }
    var opts := BuildCreateOpts(c, checked.value);

    var depFailure := WaitForDependency(c, client, w);
    if depFailure.Some? {
      return Failed(depFailure.value);
    }
    var created := client.Retry(CreatePool(opts), w.creates);
    if created.Err? {
      return Failed(CreateRejected(created.error));
    }
    var pool := created.value;
    var active := client.Invoke(WaitPool(pool.id, Active), w.poolWait);
    if active.Err? {
      return Failed(PoolNotActive(active.error));
    }
    d.id := pool.id;
    diags := Read(d, client, w.read);
  }

  // ---------------------------------------------------------------- update

  function UpdateRun(id: string, prior: PoolConfig, c: PoolConfig, w: UpdateWorld): Run<Diags> {
    if w.client.Err? then Run([], Failed(ClientUnavailable(w.client.error)), id, c)
    else match w.get
      case Err(e) => Run([Event(GetPool(id), false)], Failed(PoolUnavailable(e)), id, c)
      case Ok(pool) =>
        var ready := [Event(GetPool(id), true), Event(WaitPool(pool.id, Active), w.readyWait.Ok?)];
        if w.readyWait.Err? then Run(ready, Failed(PoolNotActive(w.readyWait.error)), id, c)
        else
          var updated := ready + RetryEvents(UpdatePool(id, UpdateDiff(prior, c)), w.updates);
          match RetryOutcome(w.updates, None)
          case Err(r) => Run(updated, Failed(UpdateRejected(r)), id, c)
          case Ok(_) =>
            var settled := updated + [Event(WaitPool(pool.id, Active), w.settledWait.Ok?)];
            if w.settledWait.Err? then Run(settled, Failed(PoolNotActive(w.settledWait.error)), id, c)
            else
              var read := ReadRun(id, c, w.read);
              Run(settled + read.events, read.result, read.id, read.config)
  }

  /** resourcePoolV2Update. */
  method Update(d: ResourceData, client: LbClient, w: UpdateWorld) returns (diags: Diags)
    modifies d, client
    ensures var run := UpdateRun(old(d.id), old(d.state), old(d.config), w);
      && client.trace == old(client.trace) + run.events
      && diags == run.result && d.id == run.id && d.config == run.config
    ensures d.state == old(d.state)
  {
    if w.client.Err? {
      return Failed(ClientUnavailable(w.client.error));
    }
    var opts := UpdateDiff(d.state, d.config);

    var got := client.Invoke(GetPool(d.id), w.get);
    if got.Err? {
      return Failed(PoolUnavailable(got.error));
    }
    var pool := got.value;
    var ready := client.Invoke(WaitPool(pool.id, Active), w.readyWait);
    if ready.Err? {
      return Failed(PoolNotActive(ready.error));
    }
    var updated := client.Retry(UpdatePool(d.id, opts), w.updates);
    if updated.Err? {
      return Failed(UpdateRejected(updated.error));
    }
    var settled := client.Invoke(WaitPool(pool.id, Active), w.settledWait);
    if settled.Err? {
      return Failed(PoolNotActive(settled.error));
    }
    diags := Read(d, client, w.read);
  }

  // ---------------------------------------------------------------- delete

  function DeleteRun(id: string, c: PoolConfig, w: DeleteWorld): Run<Diags> {
    if w.client.Err? then Run([], Failed(ClientUnavailable(w.client.error)), id, c)
    else match w.get
      case Err(e) =>
        Run([Event(GetPool(id), false)], CheckDeleted(e.NotFound?, PoolUnavailable(e)),
            if e.NotFound? then "" else id, c)
      case Ok(pool) =>
        var deleted := [Event(GetPool(id), true)] + RetryEvents(DeletePool(id), w.deletes);
        match RetryOutcome(w.deletes, None)
        case Err(r) =>
          Run(deleted, CheckDeleted(r == Fatal(NotFound), DeleteRejected(r)),
              if r == Fatal(NotFound) then "" else id, c)
        case Ok(_) =>
          var gone := deleted + [Event(WaitPool(pool.id, Deleted), w.deletedWait.Ok?)];
          Run(gone, if w.deletedWait.Err? then Failed(PoolNotDeleted(w.deletedWait.error)) else Clean, id, c)
  }

  /** resourcePoolV2Delete. */
  method Delete(d: ResourceData, client: LbClient, w: DeleteWorld) returns (diags: Diags)
    modifies d, client
    ensures var run := DeleteRun(old(d.id), old(d.config), w);
      && client.trace == old(client.trace) + run.events
      && diags == run.result && d.id == run.id && d.config == run.config
    ensures d.state == old(d.state)
  {
    if w.client.Err? {
      return Failed(ClientUnavailable(w.client.error));
    }
    var got := client.Invoke(GetPool(d.id), w.get);
    if got.Err? {
      diags := ForgetIfDeleted(d, got.error.NotFound?, PoolUnavailable(got.error));
      return;
    }
    var pool := got.value;
    var deleted := client.Retry(DeletePool(d.id), w.deletes);
    if deleted.Err? {
      diags := ForgetIfDeleted(d, deleted.error == Fatal(NotFound), DeleteRejected(deleted.error));
      return;
    }
    var gone := client.Invoke(WaitPool(pool.id, Deleted), w.deletedWait);
    if gone.Err? {
      return Failed(PoolNotDeleted(gone.error));
    }
    diags := Clean;
  }

  // ---------------------------------------------------------------- import

  function ImportRun(id: string, c: PoolConfig, w: ImportWorld): Run<ImportResult> {
    if w.client.Err? then Run([], ImportFailed(ClientUnavailable(w.client.error)), id, c)
    else match w.get
      case Err(e) =>
        Run([Event(GetPool(id), false)], if e.NotFound? then NotImported else ImportFailed(PoolUnavailable(e)),
            if e.NotFound? then "" else id, c)
      case Ok(pool) =>
        var events := [Event(GetPool(id), true)];
        match SelectDependency(pool.listeners, pool.loadbalancers)
        case Ok(ListenerRef(x)) => Run(events, Imported, id, c.(listenerId := x))
        case Ok(LoadBalancerRef(x)) => Run(events, Imported, id, c.(loadbalancerId := x))
        case Err(_) => Run(events, ImportFailed(NoParent), id, c)
  }

  /** resourcePoolV2Import. */
  method Import(d: ResourceData, client: LbClient, w: ImportWorld) returns (result: ImportResult)
    modifies d, client
    ensures var run := ImportRun(old(d.id), old(d.config), w);
      && client.trace == old(client.trace) + run.events
      && result == run.result && d.id == run.id && d.config == run.config
    ensures d.state == old(d.state)
  {
    if w.client.Err? {
      return ImportFailed(ClientUnavailable(w.client.error));
    }
    var got := client.Invoke(GetPool(d.id), w.get);
    if got.Err? {
      var diags := ForgetIfDeleted(d, got.error.NotFound?, PoolUnavailable(got.error));
      return if diags.Clean? then NotImported else ImportFailed(diags.failure);
    }
    var pool := got.value;
    var parent := SelectDependency(pool.listeners, pool.loadbalancers);
    match parent
    case Ok(ListenerRef(x)) =>
      d.config := d.config.(listenerId := x);
      result := Imported;
    case Ok(LoadBalancerRef(x)) =>
      d.config := d.config.(loadbalancerId := x);
      result := Imported;
    case Err(_) =>
      result := ImportFailed(NoParent);
  }
}
