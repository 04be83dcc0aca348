/**
 The whole way of a stopping container: from its metadata through the merged port rules, the
 printed server line and the desired state read back from it, to the weight commands of every
 later step of the controller.
 */
module EndToEnd {
  import opened Prelude
  import opened Text
  import opened Config
  import opened ServiceEndpoints
  import opened RuleMerge
  import opened RuleMergeProperties
  import opened CustomSections
  import opened ServerLines
  import opened CustomConfig
  import opened CustomLines
  import opened CustomText
  import opened Desired
  import opened DrainModel
  import opened DrainRuns
  import opened DrainAuthority

  // ---------------------------------------------------------------------------------------
  // From the metadata to the endpoints of a rule
  // ---------------------------------------------------------------------------------------

  /** Whatever runs at this address is stopping: no other live container and no external host. */
  predicate ServiceStopsAt(svc: Service, ip: string) {
    && (forall i :: 0 <= i < |svc.containers| ==> ContainerStopsAt(svc.containers[i], ip))
    && ip !in svc.externalIps && ip != svc.hostname
  }

  predicate ContainerStopsAt(c: Container, ip: string) {
    c.primaryIp == ip && IsLive(c) ==> IsStopping(c)
  }

  /** So for every service that links ranked below `bound` lead to. */
  ghost predicate LinksStopAt(site: Site, rank: string -> nat, bound: nat, ip: string) {
    forall link ::
      (rank(link) < bound && site.lookup(link).Ok? && site.lookup(link).value.Some?)
        ==> ServiceStopsAt(site.lookup(link).value.value, ip)
  }

  predicate StopsAt(ep: Endpoint, ip: string) {
    ep.ip == ip ==> ep.stopping && ep.weight == 0
  }

  lemma RegularStopsAt(svc: Service, site: Site, ip: string, ep: Endpoint)
    requires ServiceStopsAt(svc, ip) && ep in Regular(svc, site)
    ensures StopsAt(ep, ip)
  {
    var c := RegularEndpointOrigin(svc, site, ep);
    assert ContainerStopsAt(c, ip);
  }

  lemma ExternalIsElsewhere(svc: Service, site: Site, ip: string, ep: Endpoint)
    requires ServiceStopsAt(svc, ip) && ep in External(svc, site)
    ensures ep.ip != ip
  {
    var i :| 0 <= i < |External(svc, site)| && External(svc, site)[i] == ep;
    if i < |svc.externalIps| {
      assert ep.ip == svc.externalIps[i];
    }
  }

  /** However deep the links of an alias service go. */
  lemma {:induction false} LeavesStopAt(svc: Service, site: Site, rank: string -> nat, bound: nat, ip: string,
        ep: Endpoint)
    requires Acyclic(site, rank, bound) && Below(LinksOf(svc), rank, bound)
    requires ServiceStopsAt(svc, ip) && LinksStopAt(site, rank, bound, ip)
    requires Leaves(svc, site, rank, bound).Ok? && ep in Leaves(svc, site, rank, bound).value
    ensures StopsAt(ep, ip)
    decreases bound, 1
  {
    if IsExternal(svc) {
      ExternalIsElsewhere(svc, site, ip, ep);
    } else if IsAlias(svc) {
      LinksLeadToStopping(svc.links, site, rank, bound, ip, ep);
    } else {
      RegularStopsAt(svc, site, ip, ep);
    }
  }

  lemma {:induction false} LinksLeadToStopping(links: set<string>, site: Site, rank: string -> nat, bound: nat,
        ip: string, ep: Endpoint)
    requires Acyclic(site, rank, bound) && Below(links, rank, bound) && LinksStopAt(site, rank, bound, ip)
    requires LeavesOfLinks(links, site, rank, bound).Ok? && ep in LeavesOfLinks(links, site, rank, bound).value
    ensures StopsAt(ep, ip)
    decreases bound, 0, links
  {
    if links == {} {
      assert false;
    } else {
      var link :| link in links;
      AnyLinkFirst(links, link, site, rank, bound);
      if ep in LeavesOfLink(link, site, rank).value {
        LeavesStopAt(site.lookup(link).value.value, site, rank, rank(link), ip, ep);
      } else {
        LinksLeadToStopping(links - {link}, site, rank, bound, ip, ep);
      }
    }
  }

  /** What a port rule points to. */
  datatype Origin = OfService(svc: Service) | OfContainer(c: Container)

  /** The endpoints were obtained from the metadata, over links without a cycle, and wherever those
      links lead, whatever runs at `ip` is stopping. */
  ghost predicate ObtainedStopping(eps: seq<Endpoint>, origin: Origin, site: Site, ip: string) {
    match origin
    case OfService(svc) =>
      && ServiceStopsAt(svc, ip)
      && exists rank: string -> nat, bound: nat ::
           && Acyclic(site, rank, bound) && Below(LinksOf(svc), rank, bound) && LinksStopAt(site, rank, bound, ip)
           && Leaves(svc, site, rank, bound) == Ok(multiset(eps))
    case OfContainer(c) =>
      ContainerStopsAt(c, ip) && ContainerEndpoint(site, c).Some? && eps == [ContainerEndpoint(site, c).value.0]
  }

  lemma ObtainedStopsAt(eps: seq<Endpoint>, origin: Origin, site: Site, ip: string, i: nat)
    requires ObtainedStopping(eps, origin, site, ip) && i < |eps|
    ensures StopsAt(eps[i], ip)
  {
    if origin.OfService? {
      var rank: string -> nat, bound: nat :|
        && Acyclic(site, rank, bound) && Below(LinksOf(origin.svc), rank, bound) && LinksStopAt(site, rank, bound, ip)
        && Leaves(origin.svc, site, rank, bound) == Ok(multiset(eps));
      assert eps[i] in multiset(eps);
      LeavesStopAt(origin.svc, site, rank, bound, ip, eps[i]);
    }
  }

  // ---------------------------------------------------------------------------------------
  // Through the merged rules
  // ---------------------------------------------------------------------------------------

  /** Where the rules get their endpoints from. */
  datatype Metadata = Metadata(origin: PortRule -> Origin, site: PortRule -> Site)

  /** The rule offers the address to the backend of `key`. */
  predicate Offers(rule: PortRule, resolve: Resolver, ip: string, key: string) {
    Eligible(resolve, rule) && RenderedKey(rule) == key && ip in IPs(resolve(rule).endpoints)
  }

  /** Rule `n` is the first that does. */
  predicate FirstOffers(rules: seq<PortRule>, resolve: Resolver, ip: string, key: string, n: nat)
    requires n < |rules|
  {
    Offers(rules[n], resolve, ip, key) && forall i :: 0 <= i < n ==> !Offers(rules[i], resolve, ip, key)
  }

  /** The first rule that offers the address to this backend gets its endpoints from metadata in
      which whatever runs there is stopping. Later rules of the backend, and rules of any other
      port, host or path, may have anything at that address. */
  ghost predicate StoppingFirst(rules: seq<PortRule>, resolve: Resolver, meta: Metadata, ip: string, key: string) {
    forall n :: 0 <= n < |rules| && FirstOffers(rules, resolve, ip, key, n) ==>
      ObtainedStopping(resolve(rules[n]).endpoints, meta.origin(rules[n]), meta.site(rules[n]), ip)
  }

  lemma NoneOffersBefore(rules: seq<PortRule>, resolve: Resolver, ip: string, key: string)
    requires forall i :: 0 <= i < |Group(rules, resolve, key)| ==>
               Eligible(resolve, Group(rules, resolve, key)[i])
                   && ip !in IPs(resolve(Group(rules, resolve, key)[i]).endpoints)
    ensures forall h :: 0 <= h < |rules| ==> !Offers(rules[h], resolve, ip, key)
  {
    hide RenderedKey, IPs, Group;
    forall h | 0 <= h < |rules| ensures !Offers(rules[h], resolve, ip, key) {
      if Offers(rules[h], resolve, ip, key) {
        var i := RuleIsGrouped(rules, resolve, h);
      }
    }
  }

  lemma IPIsIn(eps: seq<Endpoint>, k: nat)
    requires k < |eps|
    ensures eps[k].ip in IPs(eps)
  {
  }

  lemma ComesFromFirstOffer(rules: seq<PortRule>, resolve: Resolver, key: string, ep: Endpoint, i: nat)
    returns (n: nat, k: nat)
    requires AllEligible(Group(rules, resolve, key), resolve)
    requires ComesFrom(Group(rules, resolve, key), resolve, ep, i)
    ensures n < |rules| && FirstOffers(rules, resolve, ep.ip, key, n)
    ensures k < |resolve(rules[n]).endpoints| && ep == Weighted(resolve(rules[n]).endpoints[k], rules[n].weight)
  {
    hide RenderedKey, IPs, Group;
    var group := Group(rules, resolve, key);
    GroupsAreEligible(rules, resolve, key);
    n := GroupedRuleIsARule(rules, resolve, key, i);
    k :| 0 <= k < |Offered(group, resolve, i)| && ep == Weighted(Offered(group, resolve, i)[k], group[i].weight);
    IPIsIn(resolve(rules[n]).endpoints, k);
    forall i' | 0 <= i' < i ensures ep.ip !in IPs(resolve(group[..i][i']).endpoints) {
      assert Offered(group, resolve, i') == resolve(group[i']).endpoints;
    }
    NoneOffersBefore(rules[..n], resolve, ep.ip, key);
  }

  /** Each endpoint of a backend is one of the first rule that offers its address there, at that
      rule's weight or, if it is stopping, at its own. */
  lemma FirstOfferDecides(rules: seq<PortRule>, resolve: Resolver, r: Routing, key: string, j: nat)
    returns (n: nat, k: nat)
    requires IsGroupBy(rules, resolve, r) && key in r.backends && j < |r.backends[key].endpoints|
    ensures n < |rules| && FirstOffers(rules, resolve, r.backends[key].endpoints[j].ip, key, n)
    ensures k < |resolve(rules[n]).endpoints|
    ensures var ep := resolve(rules[n]).endpoints[k];
            r.backends[key].endpoints[j] == if ep.stopping then ep else ep.(weight := rules[n].weight)
  {
    hide RenderedKey, Group, PortGroup, PortFrontend, FirstOffers, ComesFrom, Eligible, GroupEndpoints;
    var i := EachEndpointComesFrom(Group(rules, resolve, key), resolve, j);
    n, k := ComesFromFirstOffer(rules, resolve, key, r.backends[key].endpoints[j], i);
  }

  /** Merging rules, of whatever weights, leaves a stopping address at weight zero. */
  lemma MergedStopsAt(rules: seq<PortRule>, resolve: Resolver, r: Routing, meta: Metadata, ip: string, key: string,
        j: nat)
    requires IsGroupBy(rules, resolve, r) && StoppingFirst(rules, resolve, meta, ip, key)
    requires key in r.backends && j < |r.backends[key].endpoints|
    ensures StopsAt(r.backends[key].endpoints[j], ip)
  {
    hide IsGroupBy, RenderedKey, ObtainedStopping;
    if r.backends[key].endpoints[j].ip == ip {
      var n, k := FirstOfferDecides(rules, resolve, r, key, j);
      ObtainedStopsAt(resolve(rules[n]).endpoints, meta.origin(rules[n]), meta.site(rules[n]), ip, k);
    }
  }

  /** The first offer is what counts: if it has only live endpoints at the address, the backend has
      no stopping one there, whatever later rules say. */
  lemma LiveFirstStaysLive(rules: seq<PortRule>, resolve: Resolver, r: Routing, ip: string, n: nat, j: nat)
    requires IsGroupBy(rules, resolve, r) && n < |rules| && FirstOffers(rules, resolve, ip, RenderedKey(rules[n]), n)
    requires forall k :: 0 <= k < |resolve(rules[n]).endpoints| && resolve(rules[n]).endpoints[k].ip == ip ==>
               !resolve(rules[n]).endpoints[k].stopping
    requires RenderedKey(rules[n]) in r.backends && j < |r.backends[RenderedKey(rules[n])].endpoints|
    ensures var ep := r.backends[RenderedKey(rules[n])].endpoints[j];
            ep.ip == ip ==> !ep.stopping && ep.weight == rules[n].weight
  {
    hide IsGroupBy, RenderedKey;
    if r.backends[RenderedKey(rules[n])].endpoints[j].ip == ip {
      var m, k := FirstOfferDecides(rules, resolve, r, RenderedKey(rules[n]), j);
      assert m == n;
    }
  }

  /** The rule is the first of its backend. */
  predicate Founds(rules: seq<PortRule>, resolve: Resolver, n: nat)
    requires n < |rules|
  {
    Group(rules[..n], resolve, RenderedKey(rules[n])) == []
  }

  /** What the backend of rule `n` has at the address, if the rule is the first that offers it
      there: all its endpoints there if the rule founds the backend, and otherwise the first. */
  function Taken(rules: seq<PortRule>, resolve: Resolver, ip: string, n: nat): seq<Endpoint>
    requires n < |rules| && FirstOffers(rules, resolve, ip, RenderedKey(rules[n]), n)
  {
    var there := AtAddress(resolve(rules[n]).endpoints, ip);
    if Founds(rules, resolve, n) || there == [] then there else [there[0]]
  }

  lemma FirstInGroup(rules: seq<PortRule>, resolve: Resolver, ip: string, n: nat)
    requires n < |rules| && FirstOffers(rules, resolve, ip, RenderedKey(rules[n]), n)
    ensures var key := RenderedKey(rules[n]);
            var group, i := Group(rules, resolve, key), |Group(rules[..n], resolve, key)|;
            AllEligible(group, resolve) && i < |group| && group[i] == rules[n] && FirstAt(group, resolve, ip, i)
  {
    hide RenderedKey, AtAddress, Group;
    var key := RenderedKey(rules[n]);
    var group, before := Group(rules, resolve, key), Group(rules[..n], resolve, key);
    GroupsAreEligible(rules, resolve, key);
    RuleInGroup(rules, resolve, n);
    NothingThereIff(resolve(rules[n]).endpoints, ip);
    forall i' | 0 <= i' < |before| ensures AtAddress(Offered(group, resolve, i'), ip) == [] {
      var m := GroupedRuleIsARule(rules[..n], resolve, key, i');
      assert group[i'] == before[i'] == rules[m] && !Offers(rules[m], resolve, ip, key);
      NothingThereIff(Offered(group, resolve, i'), ip);
    }
  }

  /** The exact endpoints of a backend at an address. */
  lemma BackendAt(rules: seq<PortRule>, resolve: Resolver, r: Routing, ip: string, n: nat)
    requires IsGroupBy(rules, resolve, r) && n < |rules| && FirstOffers(rules, resolve, ip, RenderedKey(rules[n]), n)
    ensures RenderedKey(rules[n]) in r.backends
    ensures AtAddress(r.backends[RenderedKey(rules[n])].endpoints, ip) ==
            AllWeighted(Taken(rules, resolve, ip, n), rules[n].weight)
  {
    hide RenderedKey, AtAddress, Group, FirstAt, GroupEndpoints;
    var key := RenderedKey(rules[n]);
    var group, i := Group(rules, resolve, key), |Group(rules[..n], resolve, key)|;
    FirstInGroup(rules, resolve, ip, n);
    GroupAt(group, resolve, ip, i);
    NothingThereIff(resolve(rules[n]).endpoints, ip);
  }

  predicate AllStopping(eps: seq<Endpoint>) {
    forall i :: 0 <= i < |eps| ==> eps[i].stopping
  }

  /** So a backend has only stopping endpoints at an address if and only if those are stopping that
      it takes from the first rule that offers it. */
  lemma StoppingThereIff(rules: seq<PortRule>, resolve: Resolver, r: Routing, ip: string, n: nat)
    requires IsGroupBy(rules, resolve, r) && n < |rules| && FirstOffers(rules, resolve, ip, RenderedKey(rules[n]), n)
    ensures RenderedKey(rules[n]) in r.backends
    ensures AllStopping(AtAddress(r.backends[RenderedKey(rules[n])].endpoints, ip)) <==>
            AllStopping(Taken(rules, resolve, ip, n))
  {
    hide IsGroupBy, RenderedKey, FirstOffers, Taken, AtAddress;
    BackendAt(rules, resolve, r, ip, n);
    var taken := Taken(rules, resolve, ip, n);
    forall i | 0 <= i < |taken| ensures AllWeighted(taken, rules[n].weight)[i].stopping == taken[i].stopping {}
  }

  function ExampleEndpoint(stopping: bool): Endpoint {
    Endpoint("e", "10.1.1.10", 8080, "", false, 0, stopping)
  }

  /** The service "live" has a running container at the address, every other a stopping one. */
  function ExampleResolver(): Resolver {
    (rule: PortRule) => Found([ExampleEndpoint(rule.service != "live")], None)
  }

  const EXAMPLE_LIVE := PortRule(80, "http", "", "", "live", "", 8080, "", 5, 0)
  const EXAMPLE_RULES := [EXAMPLE_LIVE, EXAMPLE_LIVE.(service := "stopping")]

  /** A failing input: two rules of one backend, the first to a running container and the second to
      a stopping one at the same address. The backend keeps the running one, at weight 5. */
  lemma EarlierLiveOfferWins(r: Routing)
    requires IsGroupBy(EXAMPLE_RULES, ExampleResolver(), r)
    ensures RenderedKey(EXAMPLE_RULES[0]) == RenderedKey(EXAMPLE_RULES[1])
    ensures ExampleResolver()(EXAMPLE_RULES[1]).endpoints == [ExampleEndpoint(true)]
    ensures RenderedKey(EXAMPLE_RULES[1]) in r.backends
    ensures AtAddress(r.backends[RenderedKey(EXAMPLE_RULES[1])].endpoints, "10.1.1.10") ==
            [ExampleEndpoint(false).(weight := 5)]
  {
    hide IsGroupBy;
    var rules, resolve, ip := EXAMPLE_RULES, ExampleResolver(), "10.1.1.10";
    var eps := resolve(rules[0]).endpoints;
    assert eps == [ExampleEndpoint(false)];
    assert eps[0].ip in IPs(eps);
    assert rules[..0] == [];
    BackendAt(rules, resolve, r, ip, 0);
    assert AtAddress([], ip) == [];
    AtAddressNext([], ExampleEndpoint(false), ip);
    assert [] + [ExampleEndpoint(false)] == eps;
  }

  /** And the address is not lost: the backend of every rule that offers it has it. */
  lemma MergedKeepsAddress(rules: seq<PortRule>, resolve: Resolver, r: Routing, meta: Metadata, ip: string, n: nat)
    returns (j: nat)
    requires IsGroupBy(rules, resolve, r) && n < |rules|
    requires Eligible(resolve, rules[n]) && ip in IPs(resolve(rules[n]).endpoints)
    requires StoppingFirst(rules, resolve, meta, ip, RenderedKey(rules[n]))
    ensures RenderedKey(rules[n]) in r.backends && j < |r.backends[RenderedKey(rules[n])].endpoints|
    ensures var ep := r.backends[RenderedKey(rules[n])].endpoints[j]; ep.ip == ip && ep.stopping && ep.weight == 0
  {
    hide RenderedKey, StoppingFirst;
    var group := Group(rules, resolve, RenderedKey(rules[n]));
    var i := RuleIsGrouped(rules, resolve, n);
    assert RenderedKey(rules[n]) in r.backends;
    assert Offered(group, resolve, i) == resolve(rules[n]).endpoints;
    GroupIPs(group, resolve, ip);
    var eps := r.backends[RenderedKey(rules[n])].endpoints;
    j :| 0 <= j < |eps| && eps[j].ip == ip;
    MergedStopsAt(rules, resolve, r, meta, ip, RenderedKey(rules[n]), j);
  }

  /** Equal up to the order of backends. */
  predicate SameService(a: FrontendService, b: FrontendService) {
    a == b.(backends := a.backends) && multiset(a.backends) == multiset(b.backends)
  }

  /** The frontends are those of the routing, each once and with its own backends, in whatever
      order both were sorted. */
  ghost predicate Arranged(r: Routing, frontends: seq<FrontendService>) {
    && Complete(r)
    && (forall f :: 0 <= f < |frontends| ==>
          frontends[f].name in r.frontends && SameService(frontends[f], ServiceOf(r, frontends[f].name)))
    && (forall f, g :: 0 <= f < g < |frontends| ==> frontends[f].name != frontends[g].name)
    && (forall port :: port in r.frontends ==> exists f :: 0 <= f < |frontends| && frontends[f].name == port)
  }

  lemma ArrangedBackend(r: Routing, frontends: seq<FrontendService>, f: nat, b: nat) returns (key: string)
    requires Arranged(r, frontends) && f < |frontends| && b < |frontends[f].backends|
    ensures key in r.backends && r.backends[key] == frontends[f].backends[b]
  {
    var svc := ServiceOf(r, frontends[f].name);
    assert frontends[f].backends[b] in multiset(svc.backends);
    var i :| 0 <= i < |svc.backends| && svc.backends[i] == frontends[f].backends[b];
    key := r.frontends[frontends[f].name].keys[i];
  }

  /** Every backend of the routing has a place, under the frontend of its port. */
  lemma BackendIsPlaced(rules: seq<PortRule>, resolve: Resolver, r: Routing, frontends: seq<FrontendService>,
        rule: PortRule)
    returns (f: nat, b: nat)
    requires IsGroupBy(rules, resolve, r) && Arranged(r, frontends) && RenderedKey(rule) in r.backends
    ensures f < |frontends| && frontends[f].name == PortName(rule)
    ensures b < |frontends[f].backends| && frontends[f].backends[b] == r.backends[RenderedKey(rule)]
  {
    hide IsGroupBy, RenderedKey, PortName;
    var port := BackendHasOneFrontend(rules, resolve, r, RenderedKey(rule));
    f :| 0 <= f < |frontends| && frontends[f].name == port;
    var keys, svc := r.frontends[port].keys, ServiceOf(r, port);
    var i :| 0 <= i < |keys| && keys[i] == RenderedKey(rule);
    assert svc.backends[i] in multiset(frontends[f].backends);
    b :| 0 <= b < |frontends[f].backends| && frontends[f].backends[b] == svc.backends[i];
  }

  /** BuildConfigFromMetadata, up to the order of frontends and backends: an error exactly when a
      target cannot be looked up, and otherwise the group-by with all texts filled in. */
  method BuildConfigFromMetadata(rules: seq<PortRule>, resolve: Resolver, policy: Option<StickinessPolicy>,
        text: string)
    returns (out: Result<LoadBalancerConfig>, ghost r: Routing, ghost config: LoadBalancerConfig)
    ensures out.Ok? <==> forall i :: 0 <= i < |rules| && rules[i].sourcePort >= 1 ==> !resolve(rules[i]).Unavailable?
    ensures out.Ok? ==>
              && IsGroupBy(rules, resolve, r) && Arranged(r, config.frontends)
              && config.policy == policy && config.config == ""
              && IsBuilt(config, DefaultConfig(), text, out.value)
  {
    hide IsGroupBy, IsBuilt, Complete, ServiceOf, DefaultConfig;
    r, config := Routing(map[], map[]), LoadBalancerConfig([], "", None);
    var merged := MergeRules(rules, resolve);
    if merged.Err? {
      return Err, r, config;
    }
    r := merged.value;
    GroupByIsComplete(rules, resolve, r);
    var frontends := Assemble(merged.value);
    var unprinted := LoadBalancerConfig(frontends, "", policy);
    config := unprinted;
    var printed := BuildCustomConfig(unprinted, text);
    out := Ok(printed);
  }

  // ---------------------------------------------------------------------------------------
  // Through the printed server line
  // ---------------------------------------------------------------------------------------

  /** Whatever the custom text says before the weight, a stopping endpoint with a unique key is
      desired at zero, and the zero is known to be temporary. */
  lemma StoppingIsDesiredAtZero(config: LoadBalancerConfig, defaults: Sections, text: string,
        out: LoadBalancerConfig, p: Place)
    requires IsBuilt(config, defaults, text, out) && Within(out.frontends, p) && UniqueKey(out.frontends, p)
    requires Within(config.frontends, p) ==>
             EndpointAt(config.frontends, p).stopping && EndpointAt(config.frontends, p).weight == 0
    ensures KeyOf(out.frontends, p) in DesiredOf(out.frontends)
    ensures Stopping(DesiredOf(out.frontends)[KeyOf(out.frontends, p)])
  {
    hide IsBuilt, DesiredOf, WeightIn, Fields;
    var line := BuiltEndpoint(config, defaults, text, out, p);
    WeightRoundTrip(line, 0);
    UniqueKeyDesired(out.frontends, p);
    assert EndpointAt(out.frontends, p).config == line + WeightText(0);
  }

  /** The word is not "weight" and no number. */
  predicate IsPlainWord(word: string) {
    word != "" && word[0] != 'w' && !IsDigit(word[0]) && word[0] !in {'+', '-'}
  }

  predicate IsOtherWord(word: string) {
    word != "" && word[0] != 'w'
  }

  lemma PlainWordIsNoNumber(word: string, n: int)
    requires IsPlainWord(word)
    ensures !Denotes(word, n)
  {
    hide Denotes;
    AtoiIff(word, n);
  }

  lemma NumberIsOther(n: int)
    ensures IsOtherWord(Itoa(n))
  {
    hide Digits;
    assert n >= 0 ==> IsDigit(Digits(n)[0]);
  }

  /** The words between the custom ones and the weight. */
  function MiddleWords(be: BackendService, ep: Endpoint, sticky: bool): seq<string> {
    CheckWords(be) + ResolverWords(be, ep) + CookieWords(sticky, ep)
  }

  predicate NoWeightIn(words: seq<string>) {
    (words != [] ==> IsPlainWord(words[0])) && forall i :: 0 <= i < |words| ==> IsOtherWord(words[i])
  }

  lemma LiteralsArePlain()
    ensures IsPlainWord("check") && IsPlainWord("resolvers") && IsPlainWord("cookie")
    ensures IsOtherWord("port") && IsOtherWord("inter") && IsOtherWord("rise") && IsOtherWord("fall")
    ensures IsOtherWord("rancher") && IsOtherWord("check") && IsOtherWord("resolvers") && IsOtherWord("cookie")
  {
  }

  lemma CheckWordsArePlain(be: BackendService)
    ensures NoWeightIn(CheckWords(be))
  {
    hide IsPlainWord, IsOtherWord, Itoa;
    LiteralsArePlain();
    if be.healthCheck.Some? {
      NumberIsOther(be.healthCheck.value.port);
      NumberIsOther(be.healthCheck.value.interval);
      NumberIsOther(be.healthCheck.value.healthyThreshold);
      NumberIsOther(be.healthCheck.value.unhealthyThreshold);
    }
  }

  lemma ResolverWordsArePlain(be: BackendService, ep: Endpoint)
    ensures NoWeightIn(ResolverWords(be, ep))
  {
    hide IsPlainWord, IsOtherWord, CheckWords;
    LiteralsArePlain();
  }

  /** Only the last of them, the name of a cookie, may be any word. */
  lemma MiddleIsPlain(be: BackendService, ep: Endpoint, sticky: bool)
    ensures var words := MiddleWords(be, ep, sticky);
            && (words != [] ==> IsPlainWord(words[0]))
            && forall i :: 0 <= i < |words| - 1 ==> IsOtherWord(words[i])
  {
    hide IsPlainWord, IsOtherWord, CheckWords, ResolverWords;
    LiteralsArePlain();
    CheckWordsArePlain(be);
    ResolverWordsArePlain(be, ep);
  }

  /** They add no weight to those before them. */
  lemma SamePairs(custom: seq<string>, middle: seq<string>, i: nat, weight: int)
    requires middle != [] ==> IsPlainWord(middle[0])
    requires forall j :: 0 <= j < |middle| - 1 ==> IsOtherWord(middle[j])
    ensures WeightPair(custom + middle, i, weight) <==> WeightPair(custom, i, weight)
  {
    hide Denotes, IsPlainWord;
    if middle != [] {
      PlainWordIsNoNumber(middle[0], weight);
    }
    assert "weight"[0] == 'w';
  }

  lemma PrintedWeightIsRead(words: seq<string>, weight: int)
    requires 0 <= weight <= 256
    ensures var all := words + ["weight", Itoa(weight)];
            WeightPair(all, |words|, weight) && NoPairBetween(all, |words| + 1, |all|)
  {
    hide Denotes, Itoa;
    AtoiOfItoa(weight);
    AtoiIff(Itoa(weight), weight);
  }

  lemma LineOfMiddle(words: seq<string>, config: LoadBalancerConfig, p: Place)
    requires Within(config.frontends, p)
    ensures var be, ep := BackendOf(config.frontends, p), EndpointAt(config.frontends, p);
            var middle := MiddleWords(be, ep, CarriesCookies(config.policy, config.frontends[p.fe]));
            && words + MoreWords(config, p) == words + middle + WeightWords(ep.weight)
            && (middle != [] ==> IsPlainWord(middle[0]))
            && forall i :: 0 <= i < |middle| - 1 ==> IsOtherWord(middle[i])
  {
    hide CheckWords, ResolverWords, CookieWords, WeightWords, CarriesCookies, IsPlainWord, IsOtherWord;
    var be, ep := BackendOf(config.frontends, p), EndpointAt(config.frontends, p);
    MiddleIsPlain(be, ep, CarriesCookies(config.policy, config.frontends[p.fe]));
  }

  lemma WeightOfLine(printed: Endpoint, words: seq<string>, middle: seq<string>, weight: int)
    requires Fields(printed.config) == words + middle + WeightWords(weight)
    requires middle != [] ==> IsPlainWord(middle[0])
    requires forall i :: 0 <= i < |middle| - 1 ==> IsOtherWord(middle[i])
    ensures var d := DesiredEndpointOf(printed);
            && (0 <= weight <= 256 && weight != 1 ==> d.weight == weight)
            && (weight == 1 || weight < 0 || weight > 256 ==>
                  && (NoPairBetween(words, 0, |words|) ==> d.weight == 1)
                  && forall i: nat, w: int ::
                       WeightPair(words, i, w) && NoPairBetween(words, i + 1, |words|) ==> d.weight == w)
  {
    hide Fields, DesiredEndpointOf, Itoa, IsPlainWord, IsOtherWord, Denotes;
    DesiredOfLine(printed);
    if 0 <= weight <= 256 && weight != 1 {
      PrintedWeightIsRead(words + middle, weight);
    } else {
      var all := words + middle;
      assert Fields(printed.config) == all;
      forall i: nat, w: int ensures WeightPair(all, i, w) <==> WeightPair(words, i, w) {
        SamePairs(words, middle, i, w);
      }
      SameReading(words, all);
    }
  }

  lemma SameReading(words: seq<string>, all: seq<string>)
    requires |words| <= |all|
    requires forall i: nat, w: int :: WeightPair(all, i, w) <==> WeightPair(words, i, w)
    ensures forall i: nat :: NoPairBetween(words, i, |words|) ==> NoPairBetween(all, i, |all|)
  {
    hide Denotes;
    forall i: nat | NoPairBetween(words, i, |words|) ensures NoPairBetween(all, i, |all|) {
      forall j: nat, w: int | i <= j < |all| ensures !WeightPair(all, j, w) {
        assert j >= |words| ==> !WeightPair(words, j, w);
      }
    }
  }

  /** The weight that is read back for a unique key. The endpoint's own in 0..256 if it is printed,
      that is unless it is 1; otherwise the one that the custom words of its backend's server lines
      give last, or 1. So it is the endpoint's own, 1 included, if they give none. */
  lemma OwnWeightIsDesired(config: LoadBalancerConfig, defaults: Sections, text: string, out: LoadBalancerConfig,
        p: Place)
    requires IsBuilt(config, defaults, text, out) && KeywordSections(defaults)
    requires Within(out.frontends, p) && UniqueKey(out.frontends, p) && IsToken(EndpointAt(out.frontends, p).name)
    ensures Within(config.frontends, p) && KeyOf(out.frontends, p) in DesiredOf(out.frontends)
    ensures var be, ep := BackendOf(config.frontends, p), EndpointAt(config.frontends, p);
            var words := AllWords(TextsOf(SplitLines(text), "backend " + be.uuid + "_$IP", |SplitLines(text)|));
            var d := DesiredOf(out.frontends)[KeyOf(out.frontends, p)];
            && (0 <= ep.weight <= 256 && ep.weight != 1 ==> d.weight == ep.weight)
            && (ep.weight == 1 || ep.weight < 0 || ep.weight > 256 ==>
                  && (NoPairBetween(words, 0, |words|) ==> d.weight == 1)
                  && forall i: nat, w: int ::
                       WeightPair(words, i, w) && NoPairBetween(words, i + 1, |words|) ==> d.weight == w)
            && (0 <= ep.weight <= 256 && NoPairBetween(words, 0, |words|) ==> d.weight == ep.weight)
  {
    hide IsBuilt, DesiredOf, Fields, IsToken, TextsOf, AllWords, SplitLines, MiddleWords, WeightPair, DesiredEndpointOf;
    hide HasText, ServerTexts, NoPairBetween;
    ServerLineIs(config, defaults, text, out, p);
    UniqueKeyDesired(out.frontends, p);
    var be, ep := BackendOf(config.frontends, p), EndpointAt(config.frontends, p);
    var lines := SplitLines(text);
    var words := AllWords(TextsOf(lines, "backend " + be.uuid + "_$IP", |lines|));
    var sticky := CarriesCookies(config.policy, config.frontends[p.fe]);
    var printed := EndpointAt(out.frontends, p);
    LineOfMiddle(words, config, p);
    WeightOfLine(printed, words, MiddleWords(be, ep, sticky), ep.weight);
  }

  // ---------------------------------------------------------------------------------------
  // Through every later step
  // ---------------------------------------------------------------------------------------

  predicate NotApplied(v: KeyState, e: KeyEvent) {
    e.KeyApply? ==> !e.reload.KeySucceeded?
  }

  predicate StoppingDesired(v: KeyState) {
    v.desired.Some? && Stopping(v.desired.value)
  }

  /** A reconcile never raises a key that is desired at the stopping zero. */
  lemma StoppingIsNotRaised(v: KeyState, io: KeyIO)
    requires StoppingDesired(v)
    ensures ReconcileOrderAt(v, io) in {None, Some(0)}
  {
    if ReconcileOrderAt(v, io).Some? {
      ReconcileOrderIff(v, io, ReconcileOrderAt(v, io).value);
    }
  }

  lemma StoppingStepOrders(v: KeyState, e: KeyEvent)
    requires StoppingDesired(v) && NotApplied(v, e)
    ensures OrderAt(v, e) in {None, Some(0)} && StoppingDesired(StepAt(v, e))
  {
    if e.KeyTick? {
      StoppingIsNotRaised(v, e.io);
    }
  }

  lemma ApplyOfStopping(s: Sys, config: map<Key, DesiredEndpoint>, process: Option<Process>, io: IO, key: Key)
    requires WellFiled(s) && FiledEvent(ApplyConfig(config, Succeeded(process), io))
    requires key in config && Stopping(config[key])
    ensures var apply := ApplyConfig(config, Succeeded(process), io);
            && (key in Orders(s, apply) ==> Orders(s, apply)[key] == 0)
            && WellFiled(Step(s, apply)) && StoppingDesired(At(Step(s, apply), key))
  {
    hide Step, Orders, At, WellFiled, FiledEvent;
    var apply := ApplyConfig(config, Succeeded(process), io);
    StepIsPointwise(s, apply, key);
    var v, ke := At(s, key), EventAt(s, apply, key);
    StoppingIsNotRaised(AppliedAt(v, ke.config, ke.reload), ke.io);
    assert Lookup(Orders(s, apply), key) in {None, Some(0)};
  }

  lemma StoppingRunOrders(s: Sys, es: seq<Event>, e: Event, key: Key)
    requires WellFiled(s) && FiledRun(es) && FiledEvent(e) && StoppingDesired(At(s, key))
    requires forall i :: 0 <= i < |es| && es[i].ApplyConfig? ==> FailedApply(es[i])
    requires e.ApplyConfig? ==> FailedApply(e)
    ensures key in Orders(Run(s, es), e) ==> Orders(Run(s, es), e)[key] == 0
  {
    hide Step, Orders, Run, At, WellFiled, FiledEvent, StepAt, OrderAt, StoppingDesired;
    forall v, e | StoppingDesired(v) && NotApplied(v, e) ensures StoppingDesired(StepAt(v, e)) {
      StoppingStepOrders(v, e);
    }
    InvariantHolds(s, es, key, NotApplied, StoppingDesired);
    RunKeepsFiled(s, es);
    StepIsPointwise(Run(s, es), e, key);
    StoppingStepOrders(At(Run(s, es), key), EventAt(Run(s, es), e, key));
    assert Lookup(Orders(Run(s, es), e), key) in {None, Some(0)};
  }

  /** The key is desired at the stopping zero; neither the reconcile of the apply that says so nor,
      after the steps `es`, the step `e` sends it anything but a zero. */
  predicate NeverRaisedAt(s: Sys, config: map<Key, DesiredEndpoint>, process: Option<Process>, io: IO,
        es: seq<Event>, e: Event, key: Key)
  {
    var apply := ApplyConfig(config, Succeeded(process), io);
    && key in config && Stopping(config[key])
    && (key in Orders(s, apply) ==> Orders(s, apply)[key] == 0)
    && (key in Orders(Run(Step(s, apply), es), e) ==> Orders(Run(Step(s, apply), es), e)[key] == 0)
  }

  /** From the apply that brings the stopping zero, in any run of drains, removals, timers,
      failed applies, operator and process changes without another successful apply, every
      command for the key is a zero. */
  lemma NeverRaised(s: Sys, config: map<Key, DesiredEndpoint>, process: Option<Process>, io: IO, es: seq<Event>,
        e: Event, key: Key)
    requires WellFiled(s) && FiledEvent(ApplyConfig(config, Succeeded(process), io)) && FiledRun(es) && FiledEvent(e)
    requires key in config && Stopping(config[key])
    requires forall i :: 0 <= i < |es| && es[i].ApplyConfig? ==> FailedApply(es[i])
    requires e.ApplyConfig? ==> FailedApply(e)
    ensures NeverRaisedAt(s, config, process, io, es, e, key)
  {
    hide Step, Orders, Run, At, WellFiled, FiledEvent;
    ApplyOfStopping(s, config, process, io, key);
    StoppingRunOrders(Step(s, ApplyConfig(config, Succeeded(process), io)), es, e, key);
  }

  /** Wherever the configuration has a server that is marked as stopping, at weight zero and under a
      unique key, it is printed and read back at zero, and from the apply of that configuration on
      no step raises it, until a later apply succeeds. */
  lemma StoppingPlaceStaysAtZero(
      config: LoadBalancerConfig, defaults: Sections, text: string, out: LoadBalancerConfig, p: Place,
      s: Sys, process: Option<Process>, io: IO, es: seq<Event>, e: Event)
    requires IsBuilt(config, defaults, text, out)
    requires Within(out.frontends, p) && UniqueKey(out.frontends, p)
    requires EndpointAt(out.frontends, p).stopping && EndpointAt(out.frontends, p).weight == 0
    requires WellFiled(s) && FiledEvent(ApplyConfig(DesiredOf(out.frontends), Succeeded(process), io))
    requires FiledRun(es) && FiledEvent(e)
    requires forall i :: 0 <= i < |es| && es[i].ApplyConfig? ==> FailedApply(es[i])
    requires e.ApplyConfig? ==> FailedApply(e)
    ensures NeverRaisedAt(s, DesiredOf(out.frontends), process, io, es, e, KeyOf(out.frontends, p))
  {
    hide IsBuilt, DesiredOf, Step, Orders, Run;
    var line := BuiltEndpoint(config, defaults, text, out, p);
    StoppingIsDesiredAtZero(config, defaults, text, out, p);
    NeverRaised(s, DesiredOf(out.frontends), process, io, es, e, KeyOf(out.frontends, p));
  }

  /** Any server at a stopping address of its backend is so marked, wherever it is placed. */
  lemma StoppingAddressIsMarked(
      rules: seq<PortRule>, resolve: Resolver, r: Routing, meta: Metadata, ip: string,
      config: LoadBalancerConfig, defaults: Sections, text: string, out: LoadBalancerConfig, p: Place)
    returns (key: string)
    requires IsGroupBy(rules, resolve, r) && Arranged(r, config.frontends) && IsBuilt(config, defaults, text, out)
    requires Within(out.frontends, p)
    ensures Within(config.frontends, p) && key in r.backends && r.backends[key] == BackendOf(config.frontends, p)
    ensures StoppingFirst(rules, resolve, meta, ip, key) ==> StopsAt(EndpointAt(out.frontends, p), ip)
  {
    hide IsBuilt, IsGroupBy, Arranged, StoppingFirst;
    var line := BuiltEndpoint(config, defaults, text, out, p);
    key := ArrangedBackend(r, config.frontends, p.fe, p.be);
    if StoppingFirst(rules, resolve, meta, ip, key) {
      MergedStopsAt(rules, resolve, r, meta, ip, key, p.ep);
    }
  }

  /** A stopping address is not lost on the way: for every eligible rule that offers it, the
      frontend of the rule's port has a server at it, marked as stopping and at weight zero. */
  lemma StoppingAddressIsPlaced(
      rules: seq<PortRule>, resolve: Resolver, r: Routing, meta: Metadata, ip: string, n: nat,
      config: LoadBalancerConfig, defaults: Sections, text: string, out: LoadBalancerConfig) returns (p: Place)
    requires IsGroupBy(rules, resolve, r) && Arranged(r, config.frontends) && IsBuilt(config, defaults, text, out)
    requires n < |rules| && Eligible(resolve, rules[n]) && ip in IPs(resolve(rules[n]).endpoints)
    requires StoppingFirst(rules, resolve, meta, ip, RenderedKey(rules[n]))
    ensures Within(out.frontends, p) && out.frontends[p.fe].name == PortName(rules[n])
    ensures var ep := EndpointAt(out.frontends, p); ep.ip == ip && ep.stopping && ep.weight == 0
  {
    hide IsBuilt, IsGroupBy, Arranged, StoppingFirst, RenderedKey, PortName;
    var j := MergedKeepsAddress(rules, resolve, r, meta, ip, n);
    var f, b := BackendIsPlaced(rules, resolve, r, config.frontends, rules[n]);
    p := Place(f, b, j);
    BuiltPlace(config, defaults, text, out, p);
    var line := BuiltEndpoint(config, defaults, text, out, p);
  }

  /** A container that stops is never given weight again. Whatever the port rules, their weights
      and the custom text, and for every rule that offers an address to a backend for which that
      address is stopping: the configuration has a server at it under the rule's port, marked and at
      weight zero. If its key is unique, it is printed and read back at zero, and from the apply
      of that configuration on no step of any run raises it, until a later apply succeeds. */
  lemma StoppingContainerStaysAtZero(
      rules: seq<PortRule>, resolve: Resolver, r: Routing, meta: Metadata, ip: string, n: nat,
      config: LoadBalancerConfig, defaults: Sections, text: string, out: LoadBalancerConfig,
      s: Sys, process: Option<Process>, io: IO, es: seq<Event>, e: Event) returns (p: Place)
    requires IsGroupBy(rules, resolve, r) && Arranged(r, config.frontends) && IsBuilt(config, defaults, text, out)
    requires n < |rules| && Eligible(resolve, rules[n]) && ip in IPs(resolve(rules[n]).endpoints)
    requires StoppingFirst(rules, resolve, meta, ip, RenderedKey(rules[n]))
    requires WellFiled(s) && FiledEvent(ApplyConfig(DesiredOf(out.frontends), Succeeded(process), io))
    requires FiledRun(es) && FiledEvent(e)
    requires forall i :: 0 <= i < |es| && es[i].ApplyConfig? ==> FailedApply(es[i])
    requires e.ApplyConfig? ==> FailedApply(e)
    ensures Within(out.frontends, p) && out.frontends[p.fe].name == PortName(rules[n])
    ensures var ep := EndpointAt(out.frontends, p); ep.ip == ip && ep.stopping && ep.weight == 0
    ensures UniqueKey(out.frontends, p) ==>
              NeverRaisedAt(s, DesiredOf(out.frontends), process, io, es, e, KeyOf(out.frontends, p))
  {
    hide IsBuilt, IsGroupBy, Arranged, StoppingFirst, NeverRaisedAt, FiledEvent, WellFiled, Eligible, IPs, DesiredOf;
    p := StoppingAddressIsPlaced(rules, resolve, r, meta, ip, n, config, defaults, text, out);
    if UniqueKey(out.frontends, p) {
      StoppingPlaceStaysAtZero(config, defaults, text, out, p, s, process, io, es, e);
    }
  }
}
