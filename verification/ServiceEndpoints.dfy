/** From services and containers to endpoints (controller/rancher/rancher.go:681-781). */
module ServiceEndpoints {
  import opened Prelude
  import opened Text
  import opened Config
  import Sorting

  datatype Container = Container(state: string, primaryIp: string, hostUUID: string)

  datatype Service = Service(
    kind: string, links: set<string>, externalIps: seq<string>, hostname: string, containers: seq<Container>)

  /** What the expansion depends on: the metadata lookup of a link (an error, no service, or a
      service), the hash that names endpoints, and the request. */
  datatype Site = Site(
    lookup: string -> Result<Option<Service>>, hash: string -> string,
    targetPort: int, selfHost: string, preference: string)

  // ---------------------------------------------------------------------------------------
  // Containers
  // ---------------------------------------------------------------------------------------

  predicate IsStopping(c: Container) {
    EqualFold(c.state, "stopping")
  }

  predicate IsLive(c: Container) {
    EqualFold(c.state, "running") || EqualFold(c.state, "starting") || IsStopping(c)
  }

  /** Usable only when nothing local is. */
  predicate IsContingency(site: Site, c: Container) {
    site.preference != "any" && !EqualFold(c.hostUUID, site.selfHost)
  }

  /** getContainerEndpoint. A stopping container keeps an endpoint, with weight 0. */
  function ContainerEndpoint(site: Site, c: Container): (r: Option<(Endpoint, bool)>)
    ensures r.Some? <==> IsLive(c)
    ensures r.Some? ==> (r.value.0.stopping <==> IsStopping(c)) && (r.value.0.stopping ==> r.value.0.weight == 0)
    ensures r.Some? ==> (r.value.1 <==> IsContingency(site, c)) && r.value.0.ip == c.primaryIp
  {
    if !IsLive(c) then None
    else
      var ep := Endpoint(site.hash(c.primaryIp), c.primaryIp, site.targetPort, "", false, 0, IsStopping(c));
      Some((ep, IsContingency(site, c)))
  }

  /** The endpoints of the live containers that are, or are not, contingencies. */
  function Live(site: Site, cs: seq<Container>, contingency: bool): seq<Endpoint> {
    if cs == [] then []
    else
      var last := ContainerEndpoint(site, cs[|cs| - 1]);
      Live(site, cs[..|cs| - 1], contingency) + if last.Some? && last.value.1 == contingency then [last.value.0] else []
  }

  function Regular(svc: Service, site: Site): seq<Endpoint> {
    if site.preference == "prefer-local" && Live(site, svc.containers, false) == []
    then Live(site, svc.containers, true)
    else Live(site, svc.containers, false)
  }

  method RegularServiceEndpoints(svc: Service, site: Site) returns (eps: seq<Endpoint>)
    ensures eps == Regular(svc, site)
  {
    var contingencyEps := [];
    eps := [];
    for i := 0 to |svc.containers|
      invariant eps == Live(site, svc.containers[..i], false)
      invariant contingencyEps == Live(site, svc.containers[..i], true)
    {
      assert svc.containers[..i + 1][..i] == svc.containers[..i];
      var ep := ContainerEndpoint(site, svc.containers[i]);
      if ep.None? {
        continue;
      }
      if ep.value.1 {
        contingencyEps := contingencyEps + [ep.value.0];
        continue;
      }
      eps := eps + [ep.value.0];
    }
    assert svc.containers[..|svc.containers|] == svc.containers;
    if site.preference == "prefer-local" && |eps| == 0 {
      return contingencyEps;
    }
  }

  /** Endpoints come from live containers of the service; remote ones only without a preference,
      or with "prefer-local" when no live container is local. */
  lemma RegularEndpointOrigin(svc: Service, site: Site, ep: Endpoint) returns (c: Container)
    requires ep in Regular(svc, site)
    ensures c in svc.containers && ContainerEndpoint(site, c).Some? && ContainerEndpoint(site, c).value.0 == ep
    ensures IsContingency(site, c) ==>
              site.preference == "prefer-local"
              && forall d :: d in svc.containers && IsLive(d) ==> IsContingency(site, d)
  {
    if ep in Live(site, svc.containers, false) {
      c := LiveOrigin(site, svc.containers, false, ep);
    } else {
      c := LiveOrigin(site, svc.containers, true, ep);
    }
    forall d | d in svc.containers && IsLive(d) && !IsContingency(site, d)
      ensures ContainerEndpoint(site, d).value.0 in Live(site, svc.containers, false)
    {
      LiveIncludes(site, svc.containers, d);
    }
  }

  lemma {:induction false} LiveOrigin(site: Site, cs: seq<Container>, contingency: bool, ep: Endpoint)
    returns (c: Container)
    requires ep in Live(site, cs, contingency)
    ensures c in cs && ContainerEndpoint(site, c) == Some((ep, contingency))
  {
    var n := |cs| - 1;
    if ep in Live(site, cs[..n], contingency) {
      c := LiveOrigin(site, cs[..n], contingency, ep);
    } else {
      c := cs[n];
    }
  }

  lemma {:induction false} LiveIncludes(site: Site, cs: seq<Container>, c: Container)
    requires c in cs && IsLive(c)
    ensures ContainerEndpoint(site, c).value.0 in Live(site, cs, IsContingency(site, c))
  {
    var n := |cs| - 1;
    if c in cs[..n] {
      LiveIncludes(site, cs[..n], c);
    } else {
      assert c == cs[n];
    }
  }

  // ---------------------------------------------------------------------------------------
  // External services
  // ---------------------------------------------------------------------------------------

  function External(svc: Service, site: Site): seq<Endpoint> {
    seq(|svc.externalIps|, i requires 0 <= i < |svc.externalIps| =>
      Endpoint(site.hash(svc.externalIps[i]), svc.externalIps[i], site.targetPort, "", false, 0, false))
    + if svc.hostname != "" then [Endpoint(svc.hostname, svc.hostname, site.targetPort, "", true, 0, false)] else []
  }

  // ---------------------------------------------------------------------------------------
  // Alias services
  // ---------------------------------------------------------------------------------------

  predicate IsExternal(svc: Service) {
    EqualFold(svc.kind, "externalService")
  }

  predicate IsAlias(svc: Service) {
    !IsExternal(svc) && EqualFold(svc.kind, "dnsService")
  }

  function LinksOf(svc: Service): set<string> {
    if IsAlias(svc) then svc.links else {}
  }

  /** Below `bound` the links of alias services lead down in `rank`, so there is no cycle. Services
      that are not reached may be ranked at `bound`, with whatever links they have. */
  ghost predicate Acyclic(site: Site, rank: string -> nat, bound: nat) {
    forall link, next ::
      (rank(link) < bound && site.lookup(link).Ok? && site.lookup(link).value.Some?
       && next in LinksOf(site.lookup(link).value.value)) ==> rank(next) < rank(link)
  }

  ghost predicate Below(links: set<string>, rank: string -> nat, bound: nat) {
    forall link :: link in links ==> rank(link) < bound
  }

  /** All endpoints of the leaf services under `svc`, once for each chain of links that leads
      there; an error if any lookup on the way fails. */
  ghost function Leaves(svc: Service, site: Site, rank: string -> nat, bound: nat): Result<multiset<Endpoint>>
    requires Acyclic(site, rank, bound) && Below(LinksOf(svc), rank, bound)
    decreases bound, 1
  {
    if IsExternal(svc) then Ok(multiset(External(svc, site)))
    else if IsAlias(svc) then LeavesOfLinks(svc.links, site, rank, bound)
    else Ok(multiset(Regular(svc, site)))
  }

  /** What one link contributes. */
  ghost function LeavesOfLink(link: string, site: Site, rank: string -> nat): Result<multiset<Endpoint>>
    requires Acyclic(site, rank, rank(link) + 1)
    decreases rank(link), 2
  {
    match site.lookup(link)
    case Err => Err
    case Ok(None) => Ok(multiset{})
    case Ok(Some(svc)) => Leaves(svc, site, rank, rank(link))
  }

  ghost function LeavesOfLinks(links: set<string>, site: Site, rank: string -> nat,
        bound: nat): Result<multiset<Endpoint>>
    requires Acyclic(site, rank, bound) && Below(links, rank, bound)
    decreases bound, 0, links
  {
    if links == {} then Ok(multiset{})
    else
      var link :| link in links;
      Plus(LeavesOfLink(link, site, rank), LeavesOfLinks(links - {link}, site, rank, bound))
  }

  ghost function Plus(a: Result<multiset<Endpoint>>, b: Result<multiset<Endpoint>>): Result<multiset<Endpoint>> {
    if a.Err? || b.Err? then Err else Ok(a.value + b.value)
  }

  lemma PlusCommutes(a: Result<multiset<Endpoint>>, b: Result<multiset<Endpoint>>, c: Result<multiset<Endpoint>>)
    ensures Plus(a, Plus(b, c)) == Plus(b, Plus(a, c))
    ensures Plus(a, Plus(b, c)) == Plus(Plus(a, b), c)
    ensures Plus(Ok(multiset{}), a) == a
  {
    if a.Ok? && b.Ok? && c.Ok? {
      assert a.value + (b.value + c.value) == b.value + (a.value + c.value);
      assert a.value + (b.value + c.value) == (a.value + b.value) + c.value;
    }
    if a.Ok? {
      assert multiset{} + a.value == a.value;
    }
  }

  /** Links may be taken in any order. */
  lemma {:induction false} AnyLinkFirst(links: set<string>, link: string, site: Site, rank: string -> nat, bound: nat)
    requires Acyclic(site, rank, bound) && Below(links, rank, bound) && link in links
    ensures LeavesOfLinks(links, site, rank, bound) ==
            Plus(LeavesOfLink(link, site, rank), LeavesOfLinks(links - {link}, site, rank, bound))
    decreases links
  {
    var first :| first in links && LeavesOfLinks(links, site, rank, bound) ==
      Plus(LeavesOfLink(first, site, rank), LeavesOfLinks(links - {first}, site, rank, bound));
    if first != link {
      AnyLinkFirst(links - {first}, link, site, rank, bound);
      AnyLinkFirst(links - {link}, first, site, rank, bound);
      assert links - {first} - {link} == links - {link} - {first};
      PlusCommutes(LeavesOfLink(first, site, rank), LeavesOfLink(link, site, rank),
                   LeavesOfLinks(links - {first} - {link}, site, rank, bound));
    }
  }

  /** getServiceEndpoints: whatever order links are ranged in, the leaf endpoints with their
      multiplicity, sorted by descending IP; an error exactly if some lookup fails. */
  method GetServiceEndpoints(svc: Service, site: Site, ghost rank: string -> nat, ghost bound: nat)
    returns (r: Result<seq<Endpoint>>)
    requires Acyclic(site, rank, bound) && Below(LinksOf(svc), rank, bound)
    ensures r.Ok? <==> Leaves(svc, site, rank, bound).Ok?
    ensures r.Ok? ==> multiset(r.value) == Leaves(svc, site, rank, bound).value
    ensures r.Ok? ==> Sorting.Sorted(r.value, (ep: Endpoint) => ep.ip, true)
    decreases bound, 1
  {
    var eps;
    if IsExternal(svc) {
      eps := External(svc, site);
    } else if IsAlias(svc) {
      var expanded := GetAliasServiceEndpoints(svc, site, rank, bound);
      if expanded.Err? {
        return Err;
      }
      eps := expanded.value;
    } else {
      eps := RegularServiceEndpoints(svc, site);
    }
    eps := Sorting.Sort(eps, (ep: Endpoint) => ep.ip, true);
    return Ok(eps);
  }

  method GetAliasServiceEndpoints(svc: Service, site: Site, ghost rank: string -> nat, ghost bound: nat)
    returns (r: Result<seq<Endpoint>>)
    requires Acyclic(site, rank, bound) && IsAlias(svc) && Below(svc.links, rank, bound)
    ensures r.Ok? <==> Leaves(svc, site, rank, bound).Ok?
    ensures r.Ok? ==> multiset(r.value) == Leaves(svc, site, rank, bound).value
    decreases bound, 0
  {
    var eps: seq<Endpoint> := [];
    var todo := svc.links;
    PlusCommutes(LeavesOfLinks(todo, site, rank, bound), Err, Err);
    while todo != {}
      invariant todo <= svc.links
      invariant LeavesOfLinks(svc.links, site, rank, bound) ==
                Plus(Ok(multiset(eps)), LeavesOfLinks(todo, site, rank, bound))
      decreases todo
    {
      var link :| link in todo;
      AnyLinkFirst(todo, link, site, rank, bound);
      PlusCommutes(Ok(multiset(eps)), LeavesOfLink(link, site, rank), LeavesOfLinks(todo - {link}, site, rank, bound));
      assert multiset(eps) + multiset{} == multiset(eps);
      var service := site.lookup(link);
      if service.Err? {
        return Err;
      }
      if service.value.Some? {
        var newEps := GetServiceEndpoints(service.value.value, site, rank, rank(link));
        if newEps.Err? {
          return Err;
        }
        eps := eps + newEps.value;
      }
      todo := todo - {link};
    }
    return Ok(eps);
  }
}
