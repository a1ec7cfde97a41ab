/** The attribute schema of the LBaaS v2 pool resource: the string enumerations its
    attributes are validated against, the ExactlyOneOf rule over the two parent references,
    the one-element persistence block and the default of `admin_state_up`. `Decode` turns a
    configuration as written by the user into the typed values `d.Get` then returns. */
module PoolSchema {
  import opened Wrappers

  datatype Protocol = TCP | UDP | HTTP | HTTPS | PROXY | SCTP | PROXYV2
  datatype LbMethod = RoundRobin | LeastConnections | SourceIp | SourceIpPort
  datatype PersistenceType = SourceIpPersistence | HttpCookie | AppCookie

  /** The slices handed to `validation.StringInSlice` (case-sensitive). */
  const ProtocolNames: seq<string> := ["TCP", "UDP", "HTTP", "HTTPS", "PROXY", "SCTP", "PROXYV2"]
  const LbMethodNames: seq<string> := ["ROUND_ROBIN", "LEAST_CONNECTIONS", "SOURCE_IP", "SOURCE_IP_PORT"]
  const PersistenceTypeNames: seq<string> := ["SOURCE_IP", "HTTP_COOKIE", "APP_COOKIE"]

  function ProtocolName(p: Protocol): (s: string)
    ensures s in ProtocolNames
  {
    match p
    case TCP => "TCP"
    case UDP => "UDP"
    case HTTP => "HTTP"
    case HTTPS => "HTTPS"
    case PROXY => "PROXY"
    case SCTP => "SCTP"
    case PROXYV2 => "PROXYV2"
  }

  /** Accepts exactly the names of the protocol slice, and reads each back as the value it names. */
  function ParseProtocol(s: string): (r: Option<Protocol>)
    ensures r.Some? <==> s in ProtocolNames
    ensures r.Some? ==> ProtocolName(r.value) == s
  {
    if s == "TCP" then Some(TCP)
    else if s == "UDP" then Some(UDP)
    else if s == "HTTP" then Some(HTTP)
    else if s == "HTTPS" then Some(HTTPS)
    else if s == "PROXY" then Some(PROXY)
    else if s == "SCTP" then Some(SCTP)
    else if s == "PROXYV2" then Some(PROXYV2)
    else None
  }

  function LbMethodName(m: LbMethod): (s: string)
    ensures s in LbMethodNames
  {
    match m
    case RoundRobin => "ROUND_ROBIN"
    case LeastConnections => "LEAST_CONNECTIONS"
    case SourceIp => "SOURCE_IP"
    case SourceIpPort => "SOURCE_IP_PORT"
  }

  function ParseLbMethod(s: string): (r: Option<LbMethod>)
    ensures r.Some? <==> s in LbMethodNames
    ensures r.Some? ==> LbMethodName(r.value) == s
  {
    if s == "ROUND_ROBIN" then Some(RoundRobin)
    else if s == "LEAST_CONNECTIONS" then Some(LeastConnections)
    else if s == "SOURCE_IP" then Some(SourceIp)
    else if s == "SOURCE_IP_PORT" then Some(SourceIpPort)
    else None
  }

  function PersistenceTypeName(t: PersistenceType): (s: string)
    ensures s in PersistenceTypeNames
    ensures s != ""
  {
    match t
    case SourceIpPersistence => "SOURCE_IP"
    case HttpCookie => "HTTP_COOKIE"
    case AppCookie => "APP_COOKIE"
  }

  function ParsePersistenceType(s: string): (r: Option<PersistenceType>)
    ensures r.Some? <==> s in PersistenceTypeNames
    ensures r.Some? ==> PersistenceTypeName(r.value) == s
  {
    if s == "SOURCE_IP" then Some(SourceIpPersistence)
    else if s == "HTTP_COOKIE" then Some(HttpCookie)
    else if s == "APP_COOKIE" then Some(AppCookie)
    else None
  }

  /** Every enumeration value survives the trip through its wire name. */
  lemma NamesRoundTrip(p: Protocol, m: LbMethod, t: PersistenceType)
    ensures ParseProtocol(ProtocolName(p)) == Some(p)
    ensures ParseLbMethod(LbMethodName(m)) == Some(m)
    ensures ParsePersistenceType(PersistenceTypeName(t)) == Some(t)
  {
  }

  /** One element of the `persistence` list, as written (each key may be absent). */
  datatype RawPersistence = RawPersistence(ptype: Option<string>, cookieName: Option<string>)

  /** The resource's configuration as written: absent keys are `None`. */
  datatype RawConfig = RawConfig(
    name: Option<string>,
    description: Option<string>,
    tenantId: Option<string>,
    protocol: Option<string>,
    loadbalancerId: Option<string>,
    listenerId: Option<string>,
    lbMethod: Option<string>,
    persistence: seq<RawPersistence>,
    adminStateUp: Option<bool>)

  datatype SchemaError =
    | MissingRequired(attribute: string)
    | NotInSlice(attribute: string, value: string)
    | ExactlyOneOfViolated
    | TooManyItems(attribute: string)

  /** The persistence block once decoded: `cookie_name` is "" when unset. */
  datatype PersistenceBlock = PersistenceBlock(ptype: PersistenceType, cookieName: string)

  /** What `d.Get` returns for each attribute once the schema accepted the configuration:
      unset strings read as "", an unset `admin_state_up` as its default. */
  datatype PoolConfig = PoolConfig(
    name: string,
    description: string,
    tenantId: string,
    protocol: Protocol,
    loadbalancerId: string,
    listenerId: string,
    lbMethod: LbMethod,
    persistence: Option<PersistenceBlock>,
    adminStateUp: bool)

  /** Declarative statement of the schema's constraints on a configuration. */
  ghost predicate Conforms(raw: RawConfig) {
    && raw.protocol.Some? && raw.protocol.value in ProtocolNames
    && raw.lbMethod.Some? && raw.lbMethod.value in LbMethodNames
    && (raw.listenerId.Some? <==> raw.loadbalancerId.None?)
    && |raw.persistence| <= 1
    && (forall i | 0 <= i < |raw.persistence| ::
          raw.persistence[i].ptype.Some? && raw.persistence[i].ptype.value in PersistenceTypeNames)
  }

  /** Errors of a required enumerated attribute. */
  function EnumErrors(attribute: string, value: Option<string>, names: seq<string>): (errs: seq<SchemaError>)
    ensures errs == [] <==> value.Some? && value.value in names
  {
    if value.None? then [MissingRequired(attribute)]
    else if value.value !in names then [NotInSlice(attribute, value.value)]
    else []
  }

  function PersistenceErrors(ps: seq<RawPersistence>): (errs: seq<SchemaError>)
    ensures errs == [] <==>
      |ps| <= 1 && forall i | 0 <= i < |ps| :: ps[i].ptype.Some? && ps[i].ptype.value in PersistenceTypeNames
  {
    if |ps| > 1 then [TooManyItems("persistence")]
    else if |ps| == 0 then []
    else EnumErrors("persistence.0.type", ps[0].ptype, PersistenceTypeNames)
  }

  /** The schema's violations, one per rule; only whether the list is empty is meaningful. */
  function SchemaErrors(raw: RawConfig): (errs: seq<SchemaError>)
    ensures errs == [] <==> Conforms(raw)
  {
    EnumErrors("protocol", raw.protocol, ProtocolNames)
    + (if raw.listenerId.Some? == raw.loadbalancerId.Some? then [ExactlyOneOfViolated] else [])
    + EnumErrors("lb_method", raw.lbMethod, LbMethodNames)
    + PersistenceErrors(raw.persistence)
  }

  /** Validates a configuration against the schema and reads its typed values. */
  function Decode(raw: RawConfig): (r: Result<PoolConfig, seq<SchemaError>>)
    ensures r.Ok? <==> Conforms(raw)
    ensures r.Err? ==> r.error != []
    ensures r.Ok? ==>
      && ProtocolName(r.value.protocol) == raw.protocol.value
      && LbMethodName(r.value.lbMethod) == raw.lbMethod.value
      && r.value.name == raw.name.GetOr("")
      && r.value.description == raw.description.GetOr("")
      && r.value.tenantId == raw.tenantId.GetOr("")
      && r.value.adminStateUp == raw.adminStateUp.GetOr(true)
      && r.value.listenerId == raw.listenerId.GetOr("")
      && r.value.loadbalancerId == raw.loadbalancerId.GetOr("")
      && (r.value.persistence.Some? <==> |raw.persistence| == 1)
      && (r.value.persistence.Some? ==>
            PersistenceTypeName(r.value.persistence.value.ptype) == raw.persistence[0].ptype.value
            && r.value.persistence.value.cookieName == raw.persistence[0].cookieName.GetOr(""))
  {
    var errs := SchemaErrors(raw);
    if errs != [] then Err(errs)
    else
      var protocol := ParseProtocol(raw.protocol.value).value;
      var lbMethod := ParseLbMethod(raw.lbMethod.value).value;
      var persistence :=
        if |raw.persistence| == 0 then None
        else Some(PersistenceBlock(ParsePersistenceType(raw.persistence[0].ptype.value).value,
                                   raw.persistence[0].cookieName.GetOr("")));
      Ok(PoolConfig(
        raw.name.GetOr(""), raw.description.GetOr(""), raw.tenantId.GetOr(""), protocol,
        raw.loadbalancerId.GetOr(""), raw.listenerId.GetOr(""), lbMethod, persistence,
        raw.adminStateUp.GetOr(true)))
  }

  /** The schema's ExactlyOneOf rule: an accepted configuration names exactly one parent,
      and an unset `admin_state_up` reads as true. */
  lemma AcceptedNamesOneParent(raw: RawConfig)
    requires Decode(raw).Ok?
    ensures raw.listenerId.Some? != raw.loadbalancerId.Some?
    ensures raw.adminStateUp.None? ==> Decode(raw).value.adminStateUp
    ensures raw.listenerId.None? ==> Decode(raw).value.listenerId == ""
    ensures raw.loadbalancerId.None? ==> Decode(raw).value.loadbalancerId == ""
  {
  }
}
