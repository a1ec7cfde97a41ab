/** The decision logic inside the pool handlers that works on values only: the persistence
    cookie rule and the create options (resourcePoolV2Create), the update options built from
    the changed attributes (resourcePoolV2Update) and the choice of parent reference when a
    pool is imported (resourcePoolV2Import). */
module PoolOptions {
  import opened Wrappers
  import opened PoolSchema

  /** `pools.SessionPersistence`: its zero value is the unset block. */
  datatype SessionPersistence = SessionPersistence(ptype: string, cookieName: string)

  const Unset: SessionPersistence := SessionPersistence("", "")

  datatype ValidationError =
    | CookieNameRequired     // APP_COOKIE without a cookie name
    | CookieNameNotAllowed   // a cookie name with another persistence type

  /** A cookie name is given exactly when the persistence type is APP_COOKIE. */
  ghost predicate CookieRule(b: PersistenceBlock) {
    b.cookieName != "" <==> b.ptype == AppCookie
  }

  /** The persistence check of resourcePoolV2Create: the session persistence sent to the
      control plane, or the validation error that stops the create. */
  function CheckPersistence(p: Option<PersistenceBlock>): (r: Result<SessionPersistence, ValidationError>)
    ensures r.Ok? <==> p.None? || CookieRule(p.value)
    ensures r == Err(CookieNameRequired) <==> p.Some? && p.value.ptype == AppCookie && p.value.cookieName == ""
    ensures r == Err(CookieNameNotAllowed) <==> p.Some? && p.value.ptype != AppCookie && p.value.cookieName != ""
    ensures r.Ok? ==> (r.value == Unset <==> p.None?)
    ensures r.Ok? && p.Some? ==> r.value == SessionPersistence(PersistenceTypeName(p.value.ptype), p.value.cookieName)
  {
    match p
    case None => Ok(Unset)
    case Some(block) =>
      var persistence := SessionPersistence(PersistenceTypeName(block.ptype), "");
      if block.ptype == AppCookie then
        if block.cookieName == "" then Err(CookieNameRequired)
        else Ok(persistence.(cookieName := block.cookieName))
      else if block.cookieName != "" then Err(CookieNameNotAllowed)
      else Ok(persistence)
  }

  /** `pools.CreateOpts`: `persistence` is None when the field is omitted from the request. */
  datatype CreateOpts = CreateOpts(
    tenantId: string,
    name: string,
    description: string,
    protocol: Protocol,
    loadbalancerId: string,
    listenerId: string,
    lbMethod: LbMethod,
    adminStateUp: bool,
    persistence: Option<SessionPersistence>)

  /** The create options of a configuration whose persistence passed the check; the
      persistence block is omitted when it is the zero value. */
  function BuildCreateOpts(c: PoolConfig, persistence: SessionPersistence): (o: CreateOpts)
    ensures o.persistence.Some? <==> persistence != Unset
  {
    CreateOpts(c.tenantId, c.name, c.description, c.protocol, c.loadbalancerId, c.listenerId,
               c.lbMethod, c.adminStateUp, if persistence != Unset then Some(persistence) else None)
  }

  /** Reads a configuration back out of create options: the inverse of building them. */
  function ConfigOfOpts(o: CreateOpts): Option<PoolConfig> {
    var persistence :=
      match o.persistence
      case None => Some(None)
      case Some(sp) =>
        match ParsePersistenceType(sp.ptype)
        case None => None
        case Some(t) => Some(Some(PersistenceBlock(t, sp.cookieName)));
    if persistence.None? then None
    else Some(PoolConfig(o.name, o.description, o.tenantId, o.protocol, o.loadbalancerId,
                         o.listenerId, o.lbMethod, persistence.value, o.adminStateUp))
  }

  /** Create options carry the whole declared configuration: nothing is lost or altered, the
      persistence block is present exactly when one was declared, and a cookie name travels
      only with APP_COOKIE. */
  lemma CreateOptsRoundTrip(c: PoolConfig)
    requires CheckPersistence(c.persistence).Ok?
    ensures var o := BuildCreateOpts(c, CheckPersistence(c.persistence).value);
      && ConfigOfOpts(o) == Some(c)
      && (o.persistence.Some? <==> c.persistence.Some?)
      && (o.persistence.Some? ==> (o.persistence.value.cookieName != "" <==> o.persistence.value.ptype == "APP_COOKIE"))
  {
    NamesRoundTrip(TCP, RoundRobin, if c.persistence.Some? then c.persistence.value.ptype else AppCookie);
  }

  /** `pools.UpdateOpts`: a field is None when it is left out of the request. */
  datatype UpdateOpts = UpdateOpts(
    lbMethod: Option<LbMethod>,
    name: Option<string>,
    description: Option<string>,
    adminStateUp: Option<bool>)

  const NoChanges: UpdateOpts := UpdateOpts(None, None, None, None)

  /** The update options of resourcePoolV2Update: each mutable attribute for which
      `d.HasChange` holds, with its new value. */
  function UpdateDiff(prior: PoolConfig, planned: PoolConfig): (u: UpdateOpts)
    ensures u.lbMethod.Some? <==> prior.lbMethod != planned.lbMethod
    ensures u.name.Some? <==> prior.name != planned.name
    ensures u.description.Some? <==> prior.description != planned.description
    ensures u.adminStateUp.Some? <==> prior.adminStateUp != planned.adminStateUp
  {
    UpdateOpts(
      if prior.lbMethod != planned.lbMethod then Some(planned.lbMethod) else None,
      if prior.name != planned.name then Some(planned.name) else None,
      if prior.description != planned.description then Some(planned.description) else None,
      if prior.adminStateUp != planned.adminStateUp then Some(planned.adminStateUp) else None)
  }

  /** What an update request does to the pool it is applied to: the fields it carries
      replace the pool's, every other attribute is kept. */
  function ApplyUpdate(c: PoolConfig, u: UpdateOpts): PoolConfig {
    c.(lbMethod := u.lbMethod.GetOr(c.lbMethod),
       name := u.name.GetOr(c.name),
       description := u.description.GetOr(c.description),
       adminStateUp := u.adminStateUp.GetOr(c.adminStateUp))
  }

  /** The planned configuration with the attributes that cannot be updated taken from the prior one. */
  function WithImmutablesOf(prior: PoolConfig, planned: PoolConfig): PoolConfig {
    planned.(tenantId := prior.tenantId, protocol := prior.protocol,
             loadbalancerId := prior.loadbalancerId, listenerId := prior.listenerId,
             persistence := prior.persistence)
  }

  /** Applying the diff to the prior configuration yields the planned mutable attributes and
      keeps protocol, parent references, tenant and persistence; the diff is empty exactly
      when no mutable attribute changed. */
  lemma UpdateDiffApplies(prior: PoolConfig, planned: PoolConfig)
    ensures ApplyUpdate(prior, UpdateDiff(prior, planned)) == WithImmutablesOf(prior, planned)
    ensures UpdateDiff(prior, planned) == NoChanges <==> WithImmutablesOf(prior, planned) == prior
  {
  }

  /** A parent that an imported pool is attached to. */
  datatype Dependency = ListenerRef(id: string) | LoadBalancerRef(id: string)

  datatype ImportError = NoParentReference

  predicate HasFirstId(ids: seq<string>) {
    |ids| > 0 && ids[0] != ""
  }

  /** The back-reference selection of resourcePoolV2Import: the first listener when its ID is
      non-empty, else the first load balancer when its ID is non-empty, else an error. */
  function SelectDependency(listeners: seq<string>, loadbalancers: seq<string>): (r: Result<Dependency, ImportError>)
    ensures r.Ok? <==> HasFirstId(listeners) || HasFirstId(loadbalancers)
    ensures r.Ok? ==> r.value.id != ""
    ensures r.Ok? && r.value.ListenerRef? <==> HasFirstId(listeners)
    ensures r.Ok? && r.value.ListenerRef? ==> r.value.id == listeners[0]
    ensures r.Ok? && r.value.LoadBalancerRef? ==> r.value.id == loadbalancers[0]
  {
    if HasFirstId(listeners) then Ok(ListenerRef(listeners[0]))
    else if HasFirstId(loadbalancers) then Ok(LoadBalancerRef(loadbalancers[0]))
    else Err(NoParentReference)
  }

  /** Only the first element of each back-reference list is inspected. */
  lemma SelectDependencyReadsFirstOnly(l1: seq<string>, l2: seq<string>, b1: seq<string>, b2: seq<string>)
    requires |l1| > 0 <==> |l2| > 0
    requires |l1| > 0 ==> l1[0] == l2[0]
    requires |b1| > 0 <==> |b2| > 0
    requires |b1| > 0 ==> b1[0] == b2[0]
    ensures SelectDependency(l1, b1) == SelectDependency(l2, b2)
  {
  }
}
