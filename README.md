# LBaaS v2 pool resource: a Dafny model

This project models `openstack_lb_pool_v2`, the Terraform resource that manages a
neutron-lbaas (LBaaS v2) pool. It covers the pool's attribute schema, the decision logic the
handlers apply to values, and the order of remote calls in the create, read, update, delete
and import handlers. The handlers' short-circuiting is proved as well.

- `wrappers.dfy`, module `Wrappers`: `Option` and `Result`.
- `pool_schema.dfy`, module `PoolSchema`: the enumerations accepted for `protocol`,
  `lb_method` and `persistence.type`. It also holds the ExactlyOneOf rule over `listener_id` /
  `loadbalancer_id`, the one-element `persistence` list and the default of `admin_state_up`.
  `Decode` turns a configuration as written into the typed values `d.Get` returns.
- `pool_options.dfy`, module `PoolOptions` (pure): the persistence cookie rule, the create
  options, the update options built from the changed attributes, and the choice of parent
  reference on import.
- `pool_client.dfy`, module `PoolClient`: the load-balancer client. Each remote call and each
  wait helper is an oracle. The handler receives the answer the control plane gives, and
  `LbClient` records the call and whether it succeeded in a ghost `trace`. `LbClient.Retry` is
  the retry loop around a mutating call.
- `pool_resource.dfy`, module `PoolResource`: `ResourceData` (the `d` the handlers mutate) and
  the five handlers as methods. Each handler's answers come in as a "world" record. Beside each
  method, a `*Run` function computes the calls issued, the diagnostics and the new `d`. The
  method is proved to follow it.
- `pool_lifecycle_properties.dfy`, module `PoolLifecycleProperties`: ordering and
  short-circuit lemmas about the `*Run` functions.

Two points of the handlers' behaviour that are easy to misread, as the code has them:

- When the wait for a new pool to become ACTIVE fails (lines 216-219), the create handler
  returns before `d.SetId`, so the created pool's ID is not recorded. `CreateOrdering` and
  `CreateRecordsPoolThenReads` state this: the ID changes only after a successful pool wait.
- Before waiting on a listener, the create handler fetches it with `listeners.Get`
  (lines 182-185) and hands the fetched listener to the wait helper. A failed fetch stops
  the create.

## Model

| member | source | states |
|---|---|---|
| `PoolSchema.ParseProtocol` | openstack/resource_openstack_lb_pool_v2.go:60-67 | accepts exactly the seven protocol names, and reads each one back as the protocol it names |
| `PoolSchema.ParseLbMethod` | openstack/resource_openstack_lb_pool_v2.go:85-91 | accepts exactly the four `lb_method` names, and reads each one back as the method it names |
| `PoolSchema.ParsePersistenceType` | openstack/resource_openstack_lb_pool_v2.go:101-108 | accepts exactly SOURCE_IP, HTTP_COOKIE and APP_COOKIE, and reads each one back |
| `PoolSchema.NamesRoundTrip` | openstack/resource_openstack_lb_pool_v2.go:64-107 | every enumeration value survives the trip through its wire name |
| `PoolSchema.SchemaErrors` | openstack/resource_openstack_lb_pool_v2.go:35-124 | the error list is empty exactly when the configuration conforms: protocol and lb_method present and in their slices, exactly one parent reference, at most one persistence block, and that block's type present and in its slice |
| `PoolSchema.Decode` | openstack/resource_openstack_lb_pool_v2.go:35-124 | a configuration is accepted iff it conforms to the schema. An accepted one reads back its protocol, method and persistence names. Name, description and tenant read back as written. An unset `admin_state_up` reads as true, and unset strings, references and cookie name read as "" |
| `PoolSchema.AcceptedNamesOneParent` | openstack/resource_openstack_lb_pool_v2.go:69-123 | an accepted configuration sets exactly one of `listener_id` / `loadbalancer_id`, and `admin_state_up` defaults to true |
| `PoolOptions.CheckPersistence` | openstack/resource_openstack_lb_pool_v2.go:138-158 | succeeds iff there is no block or the cookie name is non-empty exactly for APP_COOKIE. Names each of the two errors by its cause. The result is the zero value exactly when no block was given, and otherwise carries the type name and cookie name |
| `PoolOptions.BuildCreateOpts` | openstack/resource_openstack_lb_pool_v2.go:160-174 | the persistence field is present exactly when the checked persistence is not the zero value |
| `PoolOptions.CreateOptsRoundTrip` | openstack/resource_openstack_lb_pool_v2.go:139-174 | the create options of a configuration that passes the cookie check give back that configuration. Persistence is present exactly when declared, and a cookie name travels only with APP_COOKIE |
| `PoolOptions.UpdateDiff` | openstack/resource_openstack_lb_pool_v2.go:259-274 | each of lb_method, name, description and admin_state_up is in the update exactly when that attribute changed |
| `PoolOptions.UpdateDiffApplies` | openstack/resource_openstack_lb_pool_v2.go:259-274 | applying the diff to the prior attributes gives the planned mutable attributes. Protocol, parent references, tenant and persistence stay as they were. The diff is empty exactly when no mutable attribute changed |
| `PoolOptions.SelectDependency` | openstack/resource_openstack_lb_pool_v2.go:363-369 | picks the first listener if its ID is non-empty, else the first load balancer if its ID is non-empty, else fails. A chosen ID is never empty |
| `PoolOptions.SelectDependencyReadsFirstOnly` | openstack/resource_openstack_lb_pool_v2.go:363-366 | only element [0] of each back-reference list decides the selection |
| `PoolClient.RetrySucceedsIff` | openstack/resource_openstack_lb_pool_v2.go:202-208 | the retried call yields v exactly when some attempt answers v and every earlier attempt was a retryable error |
| `PoolClient.RetryTimesOutIff` | openstack/resource_openstack_lb_pool_v2.go:202-212 | the retry ends in a timeout exactly when every attempt before the deadline was a retryable error, and then it reports the last such error |
| `PoolClient.RetryFatalIff` | openstack/resource_openstack_lb_pool_v2.go:202-212 | the retry fails with e exactly when some attempt is refused with the non-retryable error e and every earlier attempt was a retryable error |
| `PoolClient.RetryEventsCount` | openstack/resource_openstack_lb_pool_v2.go:202-208 | the retry issues one call per attempt up to and including the first attempt that is not a retryable refusal, or one per answer when all are retryable |
| `PoolClient.RetryEventsShape` | openstack/resource_openstack_lb_pool_v2.go:202-208 | every call the retry issues is the same call. No more calls are issued than answers exist, all but the last call failed, and the last succeeded exactly when the retry did |
| `PoolClient.LbClient.Retry` | openstack/resource_openstack_lb_pool_v2.go:291-297 | the loop returns the retry's outcome and appends exactly the retry's calls to the trace |
| `PoolClient.LbClient.Invoke` | openstack/resource_openstack_lb_pool_v2.go:182-187 | a remote call or wait returns the control plane's answer and appends the call and its success to the trace |
| `PoolResource.CheckDeleted` | openstack/resource_openstack_lb_pool_v2.go:233-236 | a diagnostic is clean exactly when the error was a 404 |
| `PoolResource.ForgetIfDeleted` | openstack/resource_openstack_lb_pool_v2.go:322-325 | on a 404 the ID is cleared and no error is returned. Otherwise the error is returned and `d` is unchanged |
| `PoolResource.Read` | openstack/resource_openstack_lb_pool_v2.go:226-250 | issues the calls of `ReadRun`, returns its diagnostics and leaves `d` with its ID and attributes |
| `PoolResource.WaitForDependency` | openstack/resource_openstack_lb_pool_v2.go:180-198 | fetches and waits on the listener when `listener_id` is set, else waits on the load balancer. It appends exactly the calls of `DependencyPhase` and returns the failure that stops the create |
| `PoolResource.Create` | openstack/resource_openstack_lb_pool_v2.go:128-224 | issues the calls of `CreateRun`, returns its diagnostics and leaves `d` with its ID and attributes |
| `PoolResource.Update` | openstack/resource_openstack_lb_pool_v2.go:252-310 | issues the calls of `UpdateRun`, returns its diagnostics and leaves `d` with its ID and attributes. The prior state is untouched |
| `PoolResource.Delete` | openstack/resource_openstack_lb_pool_v2.go:312-347 | issues the calls of `DeleteRun`, returns its diagnostics and leaves `d` with its ID |
| `PoolResource.Import` | openstack/resource_openstack_lb_pool_v2.go:349-372 | issues the calls of `ImportRun`, returns its result and leaves `d` with its ID and references |
| `PoolLifecycleProperties.CreateValidatesBeforeAnyCall` | openstack/resource_openstack_lb_pool_v2.go:139-158 | APP_COOKIE without a cookie name, or a cookie name with another type, fails the create with no remote call and no ID change, and names the violated rule |
| `PoolLifecycleProperties.CreateWaitsOnOneDependency` | openstack/resource_openstack_lb_pool_v2.go:180-198 | with `listener_id` set, the listener is fetched first and is waited on only if the fetch succeeds. Otherwise the load balancer is waited on. Exactly one dependency is waited on unless the listener fetch failed |
| `PoolLifecycleProperties.CreateReportsDependencyWaitError` | openstack/resource_openstack_lb_pool_v2.go:187-197 | a failed dependency wait ends the create with no create call, and the diagnostic carries the wait's own error |
| `PoolLifecycleProperties.DependencyWaitDetailLostAsWritten` | openstack/resource_openstack_lb_pool_v2.go:189-196 | on every create that reaches a failed listener or load-balancer wait, the as-written phase (`PoolResource.DependencyPhaseAsWritten`) reports the diagnostic with no error, where the corrected phase carries the wait's error. Both phases issue the same calls, and they agree whenever the wait succeeds |
| `PoolLifecycleProperties.CreateOrdering` | openstack/resource_openstack_lb_pool_v2.go:187-223 | every create call follows a successful dependency wait, and the pool wait follows a successful create. Read's fetch follows a successful pool wait. `d` changes only after the pool wait succeeded, and a clean result implies a successful create and pool wait |
| `PoolLifecycleProperties.CreateRecordsPoolThenReads` | openstack/resource_openstack_lb_pool_v2.go:200-223 | a rejected create ends the handler at its last attempt. The pool wait follows a successful create, and a failed pool wait ends the handler with `d` unchanged. Otherwise the ID becomes the created pool's (cleared again if Read finds it gone), Read fetches that pool, and the result is clean exactly when Read's fetch succeeds or answers 404. The attributes are refreshed from a fetched pool and stay as configured otherwise |
| `PoolLifecycleProperties.UpdateOrdering` | openstack/resource_openstack_lb_pool_v2.go:278-309 | pool waits follow a successful fetch, and update calls follow a successful ACTIVE wait. A failed pre-wait means no update call. A clean result means a successful wait came after a successful update |
| `PoolLifecycleProperties.UpdateEarlyExits` | openstack/resource_openstack_lb_pool_v2.go:276-288 | a failed fetch is the only call and is reported without `CheckDeleted`, so even a 404 keeps the ID. A failed wait before the update ends the handler after that wait, before any update, second wait or Read. Both leave `d` unchanged |
| `PoolLifecycleProperties.UpdateStopsAtFailure` | openstack/resource_openstack_lb_pool_v2.go:276-309 | after the fetch and the ACTIVE wait, a rejected update ends the handler at its last attempt. A successful update is followed by one ACTIVE wait, whose failure ends the handler. In both failure cases `d` is unchanged. After both succeed, Read fetches the pool, and the result is clean exactly when that fetch succeeds or answers 404. The ID is then cleared on a 404 and kept otherwise, and the attributes are refreshed from a fetched pool and stay as planned otherwise |
| `PoolLifecycleProperties.UpdateTouchesOnlyThePool` | openstack/resource_openstack_lb_pool_v2.go:259-309 | every update call carries exactly `UpdateDiff` of the prior and planned attributes. An update never creates, deletes or waits on the parent |
| `PoolLifecycleProperties.DeleteOrdering` | openstack/resource_openstack_lb_pool_v2.go:321-346 | a failed fetch returns through `CheckDeleted` with no delete call. The delete follows a successful fetch, and the DELETED wait follows only a successful delete. No create, update or parent wait happens |
| `PoolLifecycleProperties.DeleteOutcome` | openstack/resource_openstack_lb_pool_v2.go:327-346 | after a successful fetch, a successful delete is followed by the DELETED wait as the last call, and the result is clean exactly when that wait succeeds. A delete refused with a non-retryable 404 clears the ID without error, and its failed delete is the last call. Any other delete failure is reported with no wait |
| `PoolLifecycleProperties.DeleteCleanIff` | openstack/resource_openstack_lb_pool_v2.go:312-346 | a delete ends without error exactly when the client is built and either the fetch answers 404, or the fetch succeeds and either the delete answers a non-retryable 404 or the delete and the DELETED wait both succeed |
| `PoolLifecycleProperties.DeleteOfMissingPoolSucceeds` | openstack/resource_openstack_lb_pool_v2.go:321-325 | deleting a pool whose fetch answers 404 succeeds and clears the ID after that one fetch |
| `PoolLifecycleProperties.ImportSelection` | openstack/resource_openstack_lb_pool_v2.go:356-371 | after a successful fetch, import succeeds iff a first listener or load-balancer ID is non-empty. It writes the listener reference when one exists, else the load-balancer one, never both. Otherwise it fails and leaves `d` unchanged |
| `PoolLifecycleProperties.ImportFetchFails` | openstack/resource_openstack_lb_pool_v2.go:356-359 | an import whose fetch answers 404 returns no resource and clears the ID. Any other fetch error is returned with `d` unchanged. The fetch is the only call |
| `PoolLifecycleProperties.ClientFailureStopsEveryHandler` | openstack/resource_openstack_lb_pool_v2.go:128-133 | in each of create, read, update, delete and import, a failed client construction is returned before any remote call, with `d` unchanged (also lines 228-231, 254-257, 314-317, 351-354) |
| `PoolLifecycleProperties.ReadForgetsDeletedPool` | openstack/resource_openstack_lb_pool_v2.go:233-247 | a 404 clears the ID without error, and any other fetch error is reported with `d` unchanged. A fetched pool refreshes the copied attributes |

## Findings

| source | as written | input that shows it | evidently intended | confidence | as-written member | corrected member |
|---|---|---|---|---|---|---|
| openstack/resource_openstack_lb_pool_v2.go:187-197 | the diagnostic for a failed listener or load-balancer wait interpolates `err`, not `waitErr`. That `err` is nil there: at line 190 it is the block's own `err` from line 182, which passed line 183, and at line 196 it is the client's `err` from line 130, which passed line 131 | a listener wait that fails with any error: the message shows a nil error instead of the wait's | report `waitErr`, the wait's own error | high (not executed) | `PoolLifecycleProperties.DependencyWaitDetailLostAsWritten` | `PoolLifecycleProperties.CreateReportsDependencyWaitError` |

## Left out

- Remote calls (`listeners.Get`, `pools.Create/Get/Update/Delete`) are network I/O. They are oracles: each handler takes the answers as a parameter, so every lemma holds for every answer.
- The helpers defined outside this file are also oracles that succeed or fail. These are `chooseLBV2Client`, `waitForLBV2Listener`, `waitForLBV2LoadBalancer`, `waitForLBV2Pool`, `getLbPendingStatuses`, `getLbPendingDeleteStatuses` and `checkForRetryableError`. Their polling, status sets and retry classification are not part of this model; the classification arrives as a flag on each answer. Building the client is not recorded as a call.
- `CheckDeleted` is defined in a file that is not part of this model. It is modelled by its documented contract: a 404 clears the ID and is not an error, and any other error is returned.
- `resource.Retry` is modelled by its outcome. It tries once per answer in a finite sequence, stops at the first success or non-retryable error, and times out when the sequence ends. Time, backoff and the 10-minute timeouts are not modelled. A timeout is kept distinct from its last error, whereas `resource.Retry` returns that last error itself. The two differ only when a 404 is classified as retryable: a delete that times out after such a 404 goes through `CheckDeleted` in the source and is then not an error, while the model reports it.
- PoolResource.WaitForDependency: like `CreateRun` through `DependencyPhase`, it reports a failed listener or load-balancer wait with the wait's own error, the corrected behaviour of the "## Findings" row. The source's diagnostic there shows a nil error; that as-written detail is `PoolResource.DependencyPhaseAsWritten`.
- Context cancellation and concurrency are not modelled.
- Logging (`log.Printf`) and the text of diagnostics are not modelled; a diagnostic is its failure kind and the error it carries.
- `region` (passthrough, `GetRegion`) is not modelled. Neither is the `persistence` refresh in Read (`flattenLBPoolPersistenceV2` is not part of this model), so Read does not refresh persistence. Read copies the other six attributes.
- The remote pool's `protocol` and `lb_method` are typed values; a control plane answering a string outside the enumerations is not modelled.
- ForceNew and recreation are Terraform core behaviour and are not modelled; the immutability of protocol, parent references and persistence shows only in what `UpdateDiff` can carry.
- The deprecation message and the timeout defaults are not modelled.
