/**
 What the endpoints of a service are, field by field, and which services the links of an alias lead to
 (controller/rancher/rancher.go:681-781).
 */
module EndpointFields {
  import opened Prelude
  import opened Text
  import opened Config
  import opened ServiceEndpoints

  // ---------------------------------------------------------------------------------------
  // Containers
  // ---------------------------------------------------------------------------------------

  predicate HasState(c: Container, state: string) {
    EqualFold(c.state, state)
  }

  predicate IsAlive(c: Container) {
    HasState(c, "running") || HasState(c, "starting") || HasState(c, "stopping")
  }

  /** On another host, and the request prefers one. */
  predicate IsRemote(site: Site, c: Container) {
    site.preference != "any" && !EqualFold(c.hostUUID, site.selfHost)
  }

  /** Its name is the hash of its address, its port that of the request, and its weight zero: it gets
      one from the port rule unless it is stopping. */
  predicate IsEndpointOf(site: Site, c: Container, ep: Endpoint) {
    && ep.name == site.hash(c.primaryIp) && ep.ip == c.primaryIp && ep.port == site.targetPort
    && ep.config == "" && !ep.isCname && ep.weight == 0
    && (ep.stopping <==> HasState(c, "stopping"))
  }

  lemma ContainerEndpointIs(site: Site, c: Container)
    ensures var r := ContainerEndpoint(site, c);
            && (r.Some? <==> IsAlive(c))
            && (r.Some? ==> IsEndpointOf(site, c, r.value.0) && (r.value.1 <==> IsRemote(site, c)))
  {
    hide EqualFold;
  }

  predicate Increasing(at: seq<nat>) {
    forall j, k :: 0 <= j < k < |at| ==> at[j] < at[k]
  }

  /** The endpoints are those of the containers at these places, one each and in this order. */
  predicate AreAt(site: Site, cs: seq<Container>, at: seq<nat>, eps: seq<Endpoint>) {
    && Increasing(at) && |eps| == |at|
    && forall j :: 0 <= j < |at| ==> at[j] < |cs| && IsEndpointOf(site, cs[at[j]], eps[j])
  }

  lemma {:induction false} LiveAre(site: Site, cs: seq<Container>, remote: bool) returns (at: seq<nat>)
    ensures AreAt(site, cs, at, Live(site, cs, remote))
    ensures forall i: nat :: i in at <==> i < |cs| && IsAlive(cs[i]) && IsRemote(site, cs[i]) == remote
  {
    hide IsAlive, IsRemote, IsEndpointOf, ContainerEndpoint;
    if cs == [] {
      at := [];
    } else {
      var n := |cs| - 1;
      at := LiveAre(site, cs[..n], remote);
      ContainerEndpointIs(site, cs[n]);
      if IsAlive(cs[n]) && IsRemote(site, cs[n]) == remote {
        assert forall j :: 0 <= j < |at| ==> at[j] in at && at[j] < n;
        at := at + [n];
      }
    }
  }

  /** A container is used if it is not remote, or with "prefer-local" if all that are alive are. */
  predicate IsUsed(site: Site, cs: seq<Container>, c: Container) {
    && IsAlive(c)
    && (IsRemote(site, c) ==>
          site.preference == "prefer-local"
          && forall i :: 0 <= i < |cs| && IsAlive(cs[i]) ==> IsRemote(site, cs[i]))
  }

  /** A regular service has the endpoints of exactly those containers that are used, in their order. */
  lemma RegularAre(svc: Service, site: Site) returns (at: seq<nat>)
    ensures AreAt(site, svc.containers, at, Regular(svc, site))
    ensures forall i: nat :: i in at <==> i < |svc.containers| && IsUsed(site, svc.containers, svc.containers[i])
  {
    hide IsAlive, IsRemote, IsEndpointOf, Live;
    var cs := svc.containers;
    var near := LiveAre(site, cs, false);
    var far := LiveAre(site, cs, true);
    if site.preference == "prefer-local" && near == [] {
      at := far;
      assert forall i: nat :: i < |cs| && IsAlive(cs[i]) ==> i !in near && IsRemote(site, cs[i]);
    } else {
      at := near;
      if near != [] {
        assert near[0] in near;
      }
    }
  }

  // ---------------------------------------------------------------------------------------
  // External services
  // ---------------------------------------------------------------------------------------

  /** One endpoint for each address, and one for the host name if there is one. */
  lemma ExternalAre(svc: Service, site: Site)
    ensures var eps, ips := External(svc, site), svc.externalIps;
            && |eps| == |ips| + (if svc.hostname == "" then 0 else 1)
            && (forall i :: 0 <= i < |ips| ==>
                  && eps[i].name == site.hash(ips[i]) && eps[i].ip == ips[i] && eps[i].port == site.targetPort
                  && eps[i].config == "" && !eps[i].isCname && eps[i].weight == 0 && !eps[i].stopping)
            && (svc.hostname != "" ==>
                  var last := eps[|ips|];
                  && last.name == svc.hostname && last.ip == svc.hostname && last.port == site.targetPort
                  && last.config == "" && last.isCname && last.weight == 0 && !last.stopping)
  {
  }

  // ---------------------------------------------------------------------------------------
  // Chains of links
  // ---------------------------------------------------------------------------------------

  predicate LeadsOn(svc: Service) {
    EqualFold(svc.kind, "dnsService")
  }

  /** The endpoints of a service that leads nowhere else. */
  function OwnEndpoints(svc: Service, site: Site): seq<Endpoint> {
    if EqualFold(svc.kind, "externalService") then External(svc, site) else Regular(svc, site)
  }

  predicate FollowsTo(svc: Service, site: Site, link: string, next: Service) {
    LeadsOn(svc) && link in svc.links && site.lookup(link) == Ok(Some(next))
  }

  /** Following these links one after the other ends at a service that leads nowhere else. */
  predicate ReachesLeaf(svc: Service, site: Site, chain: seq<string>, leaf: Service)
    decreases |chain|
  {
    if chain == [] then leaf == svc && !LeadsOn(svc)
    else
      && site.lookup(chain[0]).Ok? && site.lookup(chain[0]).value.Some?
      && FollowsTo(svc, site, chain[0], site.lookup(chain[0]).value.value)
      && ReachesLeaf(site.lookup(chain[0]).value.value, site, chain[1..], leaf)
  }

  /** The last of these links cannot be looked up. */
  predicate FailsAt(svc: Service, site: Site, chain: seq<string>)
    decreases |chain|
  {
    if chain == [] then false
    else if |chain| == 1 then LeadsOn(svc) && chain[0] in svc.links && site.lookup(chain[0]).Err?
    else
      && site.lookup(chain[0]).Ok? && site.lookup(chain[0]).value.Some?
      && FollowsTo(svc, site, chain[0], site.lookup(chain[0]).value.value)
      && FailsAt(site.lookup(chain[0]).value.value, site, chain[1..])
  }

  lemma KindsDiffer(svc: Service)
    ensures EqualFold(svc.kind, "externalService") ==> !LeadsOn(svc)
    ensures IsAlias(svc) <==> LeadsOn(svc)
    ensures IsExternal(svc) <==> EqualFold(svc.kind, "externalService")
  {
  }

  lemma {:induction false} FailingLink(links: set<string>, site: Site, rank: string -> nat, bound: nat)
    returns (link: string)
    requires Acyclic(site, rank, bound) && Below(links, rank, bound) && LeavesOfLinks(links, site, rank, bound).Err?
    ensures link in links && LeavesOfLink(link, site, rank).Err?
    decreases links
  {
    link :| link in links;
    AnyLinkFirst(links, link, site, rank, bound);
    if LeavesOfLink(link, site, rank).Ok? {
      link := FailingLink(links - {link}, site, rank, bound);
    }
  }

  lemma {:induction false} OfferingLink(links: set<string>, site: Site, rank: string -> nat, bound: nat, ep: Endpoint)
    returns (link: string)
    requires Acyclic(site, rank, bound) && Below(links, rank, bound) && LeavesOfLinks(links, site, rank, bound).Ok?
    requires ep in LeavesOfLinks(links, site, rank, bound).value
    ensures link in links && LeavesOfLink(link, site, rank).Ok? && ep in LeavesOfLink(link, site, rank).value
    decreases links
  {
    link :| link in links;
    AnyLinkFirst(links, link, site, rank, bound);
    if ep !in LeavesOfLink(link, site, rank).value {
      link := OfferingLink(links - {link}, site, rank, bound, ep);
    }
  }

  /** Looking up the endpoints fails exactly if some chain of links leads to one that cannot be looked
      up. */
  lemma {:induction false} FailingChain(svc: Service, site: Site, rank: string -> nat, bound: nat)
    returns (chain: seq<string>)
    requires Acyclic(site, rank, bound) && Below(LinksOf(svc), rank, bound) && Leaves(svc, site, rank, bound).Err?
    ensures FailsAt(svc, site, chain)
    decreases bound
  {
    KindsDiffer(svc);
    var link := FailingLink(svc.links, site, rank, bound);
    if site.lookup(link).Err? {
      chain := [link];
    } else {
      var next := site.lookup(link).value.value;
      var rest := FailingChain(next, site, rank, rank(link));
      chain := [link] + rest;
      assert chain[1..] == rest;
    }
  }

  lemma {:induction false} ChainFails(svc: Service, site: Site, rank: string -> nat, bound: nat, chain: seq<string>)
    requires Acyclic(site, rank, bound) && Below(LinksOf(svc), rank, bound) && FailsAt(svc, site, chain)
    ensures Leaves(svc, site, rank, bound).Err?
    decreases |chain|
  {
    KindsDiffer(svc);
    var link := chain[0];
    AnyLinkFirst(svc.links, link, site, rank, bound);
    if |chain| > 1 {
      ChainFails(site.lookup(link).value.value, site, rank, rank(link), chain[1..]);
    }
  }

  lemma FailsIff(svc: Service, site: Site, rank: string -> nat, bound: nat)
    requires Acyclic(site, rank, bound) && Below(LinksOf(svc), rank, bound)
    ensures Leaves(svc, site, rank, bound).Err? <==> exists chain :: FailsAt(svc, site, chain)
  {
    hide FailsAt;
    if Leaves(svc, site, rank, bound).Err? {
      var chain := FailingChain(svc, site, rank, bound);
      assert FailsAt(svc, site, chain);
    } else if chain :| FailsAt(svc, site, chain) {
      ChainFails(svc, site, rank, bound, chain);
    }
  }

  lemma {:induction false} OfferingChain(svc: Service, site: Site, rank: string -> nat, bound: nat, ep: Endpoint)
    returns (chain: seq<string>, leaf: Service)
    requires Acyclic(site, rank, bound) && Below(LinksOf(svc), rank, bound) && Leaves(svc, site, rank, bound).Ok?
    requires ep in Leaves(svc, site, rank, bound).value
    ensures ReachesLeaf(svc, site, chain, leaf) && ep in OwnEndpoints(leaf, site)
    decreases bound
  {
    hide External, Regular;
    KindsDiffer(svc);
    if LeadsOn(svc) {
      var link := OfferingLink(svc.links, site, rank, bound, ep);
      var rest;
      rest, leaf := OfferingChain(site.lookup(link).value.value, site, rank, rank(link), ep);
      chain := [link] + rest;
      assert chain[1..] == rest;
    } else {
      chain, leaf := [], svc;
      assert ep in OwnEndpoints(svc, site) by {
        InBag(OwnEndpoints(svc, site), ep);
      }
    }
  }

  lemma InBag(eps: seq<Endpoint>, ep: Endpoint)
    ensures ep in eps <==> ep in multiset(eps)
  {
  }

  lemma {:induction false} ChainOffers(svc: Service, site: Site, rank: string -> nat, bound: nat, chain: seq<string>,
        leaf: Service, ep: Endpoint)
    requires Acyclic(site, rank, bound) && Below(LinksOf(svc), rank, bound) && Leaves(svc, site, rank, bound).Ok?
    requires ReachesLeaf(svc, site, chain, leaf) && ep in OwnEndpoints(leaf, site)
    ensures ep in Leaves(svc, site, rank, bound).value
    decreases |chain|
  {
    hide External, Regular;
    KindsDiffer(svc);
    if chain == [] {
      InBag(OwnEndpoints(svc, site), ep);
    } else {
      var link := chain[0];
      AnyLinkFirst(svc.links, link, site, rank, bound);
      ChainOffers(site.lookup(link).value.value, site, rank, rank(link), chain[1..], leaf, ep);
    }
  }

  /** Otherwise an endpoint is found exactly if some chain of links leads to a service that has it as
      its own; a link without a service leads nowhere. */
  lemma FoundIff(svc: Service, site: Site, rank: string -> nat, bound: nat, ep: Endpoint)
    requires Acyclic(site, rank, bound) && Below(LinksOf(svc), rank, bound) && Leaves(svc, site, rank, bound).Ok?
    ensures ep in Leaves(svc, site, rank, bound).value <==>
            exists chain, leaf :: ReachesLeaf(svc, site, chain, leaf) && ep in OwnEndpoints(leaf, site)
  {
    hide Acyclic, Below, LinksOf, ReachesLeaf, OwnEndpoints;
    if ep in Leaves(svc, site, rank, bound).value {
      var chain, leaf := OfferingChain(svc, site, rank, bound, ep);
    }
    if chain, leaf :| ReachesLeaf(svc, site, chain, leaf) && ep in OwnEndpoints(leaf, site) {
      ChainOffers(svc, site, rank, bound, chain, leaf, ep);
    }
  }

  /** An endpoint found under several links of an alias is there once for each time it is found. */
  lemma CountsAdd(links: set<string>, link: string, site: Site, rank: string -> nat, bound: nat, ep: Endpoint)
    requires Acyclic(site, rank, bound) && Below(links, rank, bound) && link in links
    requires LeavesOfLinks(links, site, rank, bound).Ok?
    ensures LeavesOfLink(link, site, rank).Ok? && LeavesOfLinks(links - {link}, site, rank, bound).Ok?
    ensures LeavesOfLinks(links, site, rank, bound).value[ep] ==
            LeavesOfLink(link, site, rank).value[ep] + LeavesOfLinks(links - {link}, site, rank, bound).value[ep]
  {
    AnyLinkFirst(links, link, site, rank, bound);
  }
}
