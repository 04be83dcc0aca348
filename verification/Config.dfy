/** The load balancer configuration (config/config.go), as values. */
module Config {
  import opened Prelude

  datatype HealthCheck = HealthCheck(
    responseTimeout: int, interval: int, healthyThreshold: int, unhealthyThreshold: int, requestLine: string, port: int)

  datatype StickinessPolicy = StickinessPolicy(
    cookie: string, domain: string, indirect: bool, nocache: bool, postonly: bool, mode: string)

  datatype Endpoint = Endpoint(
    name: string, ip: string, port: int, config: string, isCname: bool, weight: int, stopping: bool)

  datatype BackendService = BackendService(
    uuid: string, endpoints: seq<Endpoint>, path: string, host: string, ruleComparator: string, port: int,
    protocol: string, config: string, healthCheck: Option<HealthCheck>, priority: int)

  datatype FrontendService = FrontendService(
    name: string, port: int, backends: seq<BackendService>, protocol: string, config: string, acceptProxy: bool)

  datatype LoadBalancerConfig = LoadBalancerConfig(
    frontends: seq<FrontendService>, config: string, policy: Option<StickinessPolicy>)

  const HTTP_PROTO := "http"
  const HTTPS_PROTO := "https"
  const SNI_PROTO := "sni"

  const EQ_COMPARATOR := "eq"
  const BEG_COMPARATOR := "beg"
  const END_COMPARATOR := "end"

  /** Where an endpoint sits in a configuration. */
  datatype Place = Place(fe: nat, be: nat, ep: nat)

  predicate Within(frontends: seq<FrontendService>, p: Place) {
    && p.fe < |frontends|
    && p.be < |frontends[p.fe].backends|
    && p.ep < |frontends[p.fe].backends[p.be].endpoints|
  }

  function BackendOf(frontends: seq<FrontendService>, p: Place): BackendService
    requires Within(frontends, p)
  {
    frontends[p.fe].backends[p.be]
  }

  function EndpointAt(frontends: seq<FrontendService>, p: Place): Endpoint
    requires Within(frontends, p)
  {
    BackendOf(frontends, p).endpoints[p.ep]
  }

  /** backend/server, the key the runtime uses. */
  function KeyOf(frontends: seq<FrontendService>, p: Place): string
    requires Within(frontends, p)
  {
    BackendOf(frontends, p).uuid + "/" + EndpointAt(frontends, p).name
  }
}
