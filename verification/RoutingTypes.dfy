/**
 The inputs of the routing compiler (Kubernetes objects and the existing gateway) and
 the identifiers it works with (pkg/appgw/internaltypes.go, pkg/appgw/types.go).
 */
module RoutingTypes {
  import opened Resources

  datatype Protocol = HTTP | HTTPS

  // ---------------------------------------------------------------- Kubernetes

  /** `portText` is the service port as written, `portNumber` its number (0 for a name). */
  datatype Backend = Backend(service: string, portText: string, portNumber: int)

  datatype Path = Path(path: string, backend: Backend)

  datatype IngressRule = IngressRule(host: string, http: Option<seq<Path>>)

  datatype Tls = Tls(secretName: string, hosts: seq<string>)

  /** An ingress with the annotations the compiler reads already parsed. */
  datatype Ingress = Ingress(
    ns: string,
    name: string,
    backend: Option<Backend>,
    rules: seq<IngressRule>,
    tls: seq<Tls>,
    sslRedirect: bool,
    privateIp: bool,
    extraHosts: seq<string>,
    wafPolicy: Option<string>,
    backendHttps: bool
  )

  /** `target` is the target port when it is a number. */
  datatype ServicePort = ServicePort(
    tcp: bool,
    port: int,
    portText: string,
    name: string,
    targetText: string,
    target: Option<int>
  )

  datatype EndpointPort = EndpointPort(name: string, port: int, tcp: bool)

  // ---------------------------------------------------------------- identifiers

  const MAX_HOSTNAMES: nat := 5

  datatype ListenerId = ListenerId(port: int, hostName: string, hostNames: seq<string>, privateIp: bool)

  datatype SecretId = SecretId(ns: string, name: string)

  /** The pointers inside a backend identifier, as positions: ingress number, and rule and path
      number unless it is the ingress' own default backend. */
  datatype BackendId = DefaultOf(ingress: nat) | PathOf(ingress: nat, rule: nat, path: nat)

  datatype PortPair = PortPair(servicePort: int, backendPort: int)

  /**
   Generated resource names. A resource ID is a fixed prefix, the resource kind and the
   name, so one value stands for both. Names hash the listener identifier; as values of a
   datatype they are injective.
   */
  datatype Id =
    | ListenerName(listener: ListenerId)
    | PathMapName(listener: ListenerId)
    | RuleName(listener: ListenerId)
    | RedirectName(target: ListenerId)
    | PoolName(service: string, servicePort: string, backendPort: int)
    | SettingsName(service: string, servicePort: string, backendPort: int, ingress: string)
    | ProbeName(ns: string, service: string, servicePort: string, ingress: string)
    | PortName(port: int)
    | CertName(secret: string)
    | PathRuleName(ns: string, ingress: string, index: nat)
    | DefaultPoolName
    | DefaultSettingsName
    | DefaultProbeName(protocol: Protocol)
    | FromArm(name: string)

  /** What a listener identifier is to be configured with. */
  datatype AzConfig = AzConfig(protocol: Protocol, secret: Option<SecretId>, redirect: Option<Id>, firewall: string)

  // ---------------------------------------------------------------- gateway

  datatype FrontendIp = FrontendIp(id: string, hasProps: bool, hasPrivate: bool, hasPublic: bool)

  datatype FrontendPort = FrontendPort(name: Id, id: Id, number: int)

  datatype Listener = Listener(
    name: Id,
    frontendIp: string,
    port: Id,
    protocol: Protocol,
    hostName: Option<string>,
    hostNames: Option<seq<string>>,
    cert: Option<Id>,
    firewall: Option<string>
  )

  datatype Redirect = Redirect(name: Id, target: Id)

  datatype Setting = Setting(name: Id, port: int, probe: Id)

  type Rule = RoutingRule<Id>
  type PRule = PathRule<Id>
  type Props = PathMapProps<Id>

  datatype UrlPathMap = UrlPathMap(name: Id, props: Props)

  /** Everything a build reads. `certs` holds the keys of the secrets with a certificate;
      `nameRank` places the names as comparing them as strings does. */
  datatype Context = Context(
    ingresses: seq<Ingress>,
    services: map<string, seq<ServicePort>>,
    endpoints: map<string, seq<seq<EndpointPort>>>,
    certs: set<string>,
    usePrivateIp: bool,
    attachWafToListener: bool,
    frontendIps: seq<FrontendIp>,
    ports: map<int, FrontendPort>,
    nameRank: Id -> real
  )
}
