/** The Traefik dynamic configuration document (`http.routers`,
    `http.services`) as the plug-in reads and writes it. */
module TraefikTypes {
  import opened Common

  datatype Router = Router(rule: string, service: string)

  datatype Server = Server(url: string)

  /** The health-check block of a load balancer; an empty string is an
      unset field and an empty map an absent `headers` entry. */
  datatype HealthCheck = HealthCheck(
    path: string,
    interval: string,
    timeout: string,
    scheme: string,
    mode: string,
    hostname: string,
    port: string,
    followRedirects: string,
    httpMethod: string,
    status: string,
    headers: map<string, string>)

  datatype LoadBalancer = LoadBalancer(servers: seq<Server>, healthCheck: Option<HealthCheck>)

  datatype Service = Service(loadBalancer: LoadBalancer)

  datatype Config = Config(routers: map<string, Router>, services: map<string, Service>)

  /** The `hasValues` test: at least one field of the block is set. */
  predicate HasValues(h: HealthCheck)
  {
    || h.path != "" || h.interval != "" || h.timeout != "" || h.scheme != ""
    || h.mode != "" || h.hostname != "" || h.port != "" || h.followRedirects != ""
    || h.httpMethod != "" || h.status != "" || |h.headers| > 0
  }

  /** Every router points at a service entry of the same name. */
  predicate RoutersResolve(cfg: Config)
  {
    forall name :: name in cfg.routers ==> name in cfg.services && cfg.routers[name].service == name
  }
}
