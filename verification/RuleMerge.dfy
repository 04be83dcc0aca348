/** Merging port rules into frontends and backends (controller/rancher/rancher.go:305-428). */
module RuleMerge {
  import opened Prelude
  import opened Text
  import opened Config

  datatype PortRule = PortRule(
    sourcePort: int, protocol: string, hostname: string, path: string, service: string, container: string,
    targetPort: int, backendName: string, weight: int, priority: int)

  /** What the metadata says about the target of a rule: an error; nothing to route to (no active
      service, no live container); or its endpoints and health check. */
  datatype Target = Unavailable | Nothing | Found(endpoints: seq<Endpoint>, healthCheck: Option<HealthCheck>)

  type Resolver = PortRule -> Target

  predicate Eligible(resolve: Resolver, rule: PortRule) {
    rule.sourcePort >= 1 && resolve(rule).Found?
  }

  // ---------------------------------------------------------------------------------------
  // Routes
  // ---------------------------------------------------------------------------------------

  datatype Route = Route(host: string, path: string, comparator: string)

  predicate RoutesByHost(protocol: string) {
    EqualFold(protocol, HTTPS_PROTO) || EqualFold(protocol, HTTP_PROTO) || EqualFold(protocol, SNI_PROTO)
  }

  function RouteOf(rule: PortRule): Route {
    var hostname := if RoutesByHost(rule.protocol) then rule.hostname else "";
    var path := if RoutesByHost(rule.protocol) then rule.path else "";
    if |hostname| > 2 && hostname[0] == '*' then Route(hostname[1..], path, END_COMPARATOR)
    else if |hostname| > 2 && hostname[|hostname| - 1] == '*' then
      Route(hostname[..|hostname| - 1], path, BEG_COMPARATOR)
    else Route(hostname, path, EQ_COMPARATOR)
  }

  function PortName(rule: PortRule): string {
    Itoa(rule.sourcePort)
  }

  /** The key rules are grouped by. */
  function RenderedKey(rule: PortRule): string {
    PortName(rule) + "_" + RouteOf(rule).host + "_" + RouteOf(rule).path
  }

  predicate IsAlphanumeric(c: char) {
    'A' <= c <= 'Z' || 'a' <= c <= 'z' || '0' <= c <= '9'
  }

  /** Every run of other characters becomes one '_'. */
  function Sanitized(s: string): string {
    if s == "" then ""
    else if IsAlphanumeric(s[0]) then [s[0]] + Sanitized(s[1..])
    else if |s| > 1 && !IsAlphanumeric(s[1]) then Sanitized(s[1..])
    else "_" + Sanitized(s[1..])
  }

  // ---------------------------------------------------------------------------------------
  // Reference: a group-by
  // ---------------------------------------------------------------------------------------

  /** The eligible rules of a rendered key, in order. */
  function Group(rules: seq<PortRule>, resolve: Resolver, key: string): seq<PortRule> {
    if rules == [] then []
    else
      var last := rules[|rules| - 1];
      Group(rules[..|rules| - 1], resolve, key) +
      if Eligible(resolve, last) && RenderedKey(last) == key then [last] else []
  }

  /** The eligible rules of a source port, in order. */
  function PortGroup(rules: seq<PortRule>, resolve: Resolver, port: string): seq<PortRule> {
    if rules == [] then []
    else
      var last := rules[|rules| - 1];
      PortGroup(rules[..|rules| - 1], resolve, port) +
      if Eligible(resolve, last) && PortName(last) == port then [last] else []
  }

  /** The rendered keys of rules, each once, in order of first use. */
  function FirstKeys(rules: seq<PortRule>): seq<string> {
    if rules == [] then []
    else
      var front, key := FirstKeys(rules[..|rules| - 1]), RenderedKey(rules[|rules| - 1]);
      if key in front then front else front + [key]
  }

  function Weighted(ep: Endpoint, weight: int): Endpoint {
    if ep.stopping then ep else ep.(weight := weight)
  }

  function AllWeighted(eps: seq<Endpoint>, weight: int): seq<Endpoint> {
    seq(|eps|, i requires 0 <= i < |eps| => Weighted(eps[i], weight))
  }

  function IPs(eps: seq<Endpoint>): set<string> {
    set i | 0 <= i < |eps| :: eps[i].ip
  }

  /** `before` with those of `eps` whose IP is new. */
  function AddNew(before: seq<Endpoint>, eps: seq<Endpoint>, weight: int): seq<Endpoint> {
    if eps == [] then before
    else
      var so, last := AddNew(before, eps[..|eps| - 1], weight), eps[|eps| - 1];
      if last.ip in IPs(so) then so else so + [Weighted(last, weight)]
  }

  /** The endpoints of a group: all those of its first rule, then whatever later rules add. */
  function GroupEndpoints(group: seq<PortRule>, resolve: Resolver): seq<Endpoint>
    requires forall i :: 0 <= i < |group| ==> Eligible(resolve, group[i])
  {
    if group == [] then []
    else if |group| == 1 then
      assert Eligible(resolve, group[0]);
      AllWeighted(resolve(group[0]).endpoints, group[0].weight)
    else
      var last := group[|group| - 1];
      assert Eligible(resolve, last);
      AddNew(GroupEndpoints(group[..|group| - 1], resolve), resolve(last).endpoints, last.weight)
  }

  function NewBackend(rule: PortRule, endpoints: seq<Endpoint>, healthCheck: Option<HealthCheck>): BackendService {
    var route := RouteOf(rule);
    BackendService(if rule.backendName == "" then Sanitized(RenderedKey(rule)) else rule.backendName,
                   endpoints, route.path, route.host, route.comparator, rule.targetPort, rule.protocol, "",
                   healthCheck, rule.priority)
  }

  function GroupBackend(group: seq<PortRule>, resolve: Resolver): BackendService
    requires group != [] && forall i :: 0 <= i < |group| ==> Eligible(resolve, group[i])
  {
    NewBackend(group[0], GroupEndpoints(group, resolve), resolve(group[0]).healthCheck)
  }

  datatype Frontend = Frontend(port: int, protocol: string, keys: seq<string>)

  function PortFrontend(group: seq<PortRule>): Frontend
    requires group != []
  {
    Frontend(group[0].sourcePort, group[0].protocol, FirstKeys(group))
  }

  lemma {:induction false} GroupsAreEligible(rules: seq<PortRule>, resolve: Resolver, key: string)
    ensures forall i :: 0 <= i < |Group(rules, resolve, key)| ==>
              Eligible(resolve, Group(rules, resolve, key)[i]) && RenderedKey(Group(rules, resolve, key)[i]) == key
    ensures forall i :: 0 <= i < |PortGroup(rules, resolve, key)| ==>
              Eligible(resolve, PortGroup(rules, resolve, key)[i]) && PortName(PortGroup(rules, resolve, key)[i]) == key
  {
    if rules != [] {
      GroupsAreEligible(rules[..|rules| - 1], resolve, key);
    }
  }

  /** The maps built from the rules. A frontend lists its backends by rendered key. */
  datatype Routing = Routing(frontends: map<string, Frontend>, backends: map<string, BackendService>)

  ghost predicate IsGroupBy(rules: seq<PortRule>, resolve: Resolver, r: Routing) {
    && (forall port :: port in r.frontends <==> PortGroup(rules, resolve, port) != [])
    && (forall port :: port in r.frontends ==> r.frontends[port] == PortFrontend(PortGroup(rules, resolve, port)))
    && (forall key :: key in r.backends <==> Group(rules, resolve, key) != [])
    && (forall key :: key in r.backends ==>
          (forall i :: 0 <= i < |Group(rules, resolve, key)| ==> Eligible(resolve, Group(rules, resolve, key)[i]))
          && r.backends[key] == GroupBackend(Group(rules, resolve, key), resolve))
  }

  // ---------------------------------------------------------------------------------------
  // Rendered keys
  // ---------------------------------------------------------------------------------------

  lemma NumberHasNoUnderscore(n: int)
    ensures '_' !in Itoa(n)
  {
    var digits := Digits(if n < 0 then -n else n);
    assert forall i :: 0 <= i < |digits| ==> IsDigit(digits[i]);
  }

  lemma {:induction false} SplitAtUnderscore(a: string, x: string, b: string, y: string)
    requires '_' !in a && '_' !in b && a + "_" + x == b + "_" + y
    ensures a == b && x == y
  {
    var s, t := a + "_" + x, b + "_" + y;
    assert a == "" ==> s[0] == '_' && s[1..] == x;
    assert b == "" ==> t[0] == '_' && t[1..] == y;
    assert a != "" ==> s[0] == a[0] && s[1..] == a[1..] + "_" + x;
    assert b != "" ==> t[0] == b[0] && t[1..] == b[1..] + "_" + y;
    if a != "" {
      SplitAtUnderscore(a[1..], x, b[1..], y);
    }
  }

  /** Rules share a backend exactly when port, and host and path joined by '_', agree; the ports
      always agree. */
  lemma SameKeyIff(r: PortRule, q: PortRule)
    requires MIN_INT <= r.sourcePort <= MAX_INT && MIN_INT <= q.sourcePort <= MAX_INT
    ensures RenderedKey(r) == RenderedKey(q) <==>
            && r.sourcePort == q.sourcePort
            && RouteOf(r).host + "_" + RouteOf(r).path == RouteOf(q).host + "_" + RouteOf(q).path
    ensures '_' !in RouteOf(r).host && '_' !in RouteOf(q).host && RenderedKey(r) == RenderedKey(q) ==>
            RouteOf(r).host == RouteOf(q).host && RouteOf(r).path == RouteOf(q).path
  {
    NumberHasNoUnderscore(r.sourcePort);
    NumberHasNoUnderscore(q.sourcePort);
    AtoiOfItoa(r.sourcePort);
    AtoiOfItoa(q.sourcePort);
    var x, y := RouteOf(r).host + "_" + RouteOf(r).path, RouteOf(q).host + "_" + RouteOf(q).path;
    assert RenderedKey(r) == PortName(r) + "_" + x && RenderedKey(q) == PortName(q) + "_" + y;
    if RenderedKey(r) == RenderedKey(q) {
      SplitAtUnderscore(PortName(r), x, PortName(q), y);
      if '_' !in RouteOf(r).host && '_' !in RouteOf(q).host {
        SplitAtUnderscore(RouteOf(r).host, RouteOf(r).path, RouteOf(q).host, RouteOf(q).path);
      }
    }
  }

  /** The comparator is no part of the key: a wildcard host, with its star at either end, and the
      exact host of the same text share one backend, which keeps the comparator of the first. */
  lemma WildcardAndExactHostCollapse(rule: PortRule, host: string)
    requires RoutesByHost(rule.protocol) && |host| >= 2 && host[0] != '*' && host[|host| - 1] != '*'
    ensures var exact, before, after :=
            rule.(hostname := host), rule.(hostname := "*" + host), rule.(hostname := host + "*");
            && RenderedKey(exact) == RenderedKey(before) == RenderedKey(after)
            && RouteOf(exact).comparator == EQ_COMPARATOR
            && RouteOf(before).comparator == END_COMPARATOR && RouteOf(after).comparator == BEG_COMPARATOR
  {
    assert (host + "*")[..|host|] == host && ("*" + host)[1..] == host;
  }

  lemma SameKeySamePort(r: PortRule, q: PortRule)
    requires RenderedKey(r) == RenderedKey(q)
    ensures PortName(r) == PortName(q)
  {
    NumberHasNoUnderscore(r.sourcePort);
    NumberHasNoUnderscore(q.sourcePort);
    var x, y := RouteOf(r).host + "_" + RouteOf(r).path, RouteOf(q).host + "_" + RouteOf(q).path;
    assert RenderedKey(r) == PortName(r) + "_" + x && RenderedKey(q) == PortName(q) + "_" + y;
    SplitAtUnderscore(PortName(r), x, PortName(q), y);
  }

  // ---------------------------------------------------------------------------------------
  // The rule loop
  // ---------------------------------------------------------------------------------------

  /** The endpoint loop for the first rule of a key. */
  method WeighAll(eps: seq<Endpoint>, weight: int) returns (weighted: seq<Endpoint>, seen: set<string>)
    ensures weighted == AllWeighted(eps, weight) && seen == IPs(weighted)
  {
    weighted, seen := eps, {};
    for i := 0 to |eps|
      invariant |weighted| == |eps| && weighted[i..] == eps[i..] && weighted[..i] == AllWeighted(eps[..i], weight)
      invariant seen == IPs(weighted[..i])
    {
      seen := seen + {eps[i].ip};
      if !weighted[i].stopping {
        weighted := weighted[i := weighted[i].(weight := weight)];
      }
      assert weighted[..i + 1] == weighted[..i] + [weighted[i]];
      IPsNext(weighted[..i], weighted[i]);
    }
    assert weighted[..|eps|] == weighted && eps[..|eps|] == eps;
  }

  lemma IPsNext(eps: seq<Endpoint>, ep: Endpoint)
    ensures IPs(eps + [ep]) == IPs(eps) + {ep.ip}
  {
    var all := eps + [ep];
    assert all[|eps|].ip == ep.ip;
    forall x | x in IPs(eps) ensures x in IPs(all) {
      var i :| 0 <= i < |eps| && eps[i].ip == x;
      assert all[i].ip == x;
    }
  }

  /** The endpoint loop for a later rule of a key. */
  method AddEndpoints(endpoints: seq<Endpoint>, ips: set<string>, eps: seq<Endpoint>, weight: int)
    returns (merged: seq<Endpoint>, seen: set<string>)
    requires ips == IPs(endpoints)
    ensures merged == AddNew(endpoints, eps, weight) && seen == IPs(merged)
  {
    merged, seen := endpoints, ips;
    for i := 0 to |eps|
      invariant merged == AddNew(endpoints, eps[..i], weight) && seen == IPs(merged)
    {
      var ep := eps[i];
      assert eps[..i + 1][..i] == eps[..i];
      if ep.ip !in seen {
        seen := seen + {ep.ip};
        if !ep.stopping {
          ep := ep.(weight := weight);
        }
        IPsNext(merged, ep);
        merged := merged + [ep];
      }
    }
    assert eps[..|eps|] == eps;
  }

  lemma NextGroups(rules: seq<PortRule>, rule: PortRule, resolve: Resolver, name: string)
    ensures var g := Group(rules, resolve, name);
            Group(rules + [rule], resolve, name) ==
            if Eligible(resolve, rule) && RenderedKey(rule) == name then g + [rule] else g
    ensures var g := PortGroup(rules, resolve, name);
            PortGroup(rules + [rule], resolve, name) ==
            if Eligible(resolve, rule) && PortName(rule) == name then g + [rule] else g
  {
    assert (rules + [rule])[..|rules|] == rules;
  }

  lemma NextFirstKeys(rules: seq<PortRule>, rule: PortRule)
    ensures FirstKeys(rules + [rule]) ==
            if RenderedKey(rule) in FirstKeys(rules) then FirstKeys(rules) else FirstKeys(rules) + [RenderedKey(rule)]
  {
    assert (rules + [rule])[..|rules|] == rules;
  }

  lemma {:induction false} KeyListedIffGrouped(rules: seq<PortRule>, resolve: Resolver, port: string, key: string)
    requires forall r :: RenderedKey(r) == key ==> PortName(r) == port
    ensures key in FirstKeys(PortGroup(rules, resolve, port)) <==> Group(rules, resolve, key) != []
  {
    if rules != [] {
      var front, last := rules[..|rules| - 1], rules[|rules| - 1];
      KeyListedIffGrouped(front, resolve, port, key);
      assert rules == front + [last];
      NextGroups(front, last, resolve, key);
      NextGroups(front, last, resolve, port);
      NextFirstKeys(PortGroup(front, resolve, port), last);
    }
  }

  /** The group-by after one more eligible rule. */
  ghost predicate IsNext(rules: seq<PortRule>, rule: PortRule, resolve: Resolver, r: Routing, r': Routing)
  {
    var key, port := RenderedKey(rule), PortName(rule);
    && Eligible(resolve, rule)
    && (forall i :: 0 <= i < |Group(rules, resolve, key)| ==> Eligible(resolve, Group(rules, resolve, key)[i]))
    && r'.backends == r.backends[key := GroupBackend(Group(rules, resolve, key) + [rule], resolve)]
    && r'.frontends == r.frontends[port := PortFrontend(PortGroup(rules, resolve, port) + [rule])]
  }

  lemma NextIsGroupBy(rules: seq<PortRule>, rule: PortRule, resolve: Resolver, r: Routing, r': Routing)
    requires IsGroupBy(rules, resolve, r)
    requires if Eligible(resolve, rule) then IsNext(rules, rule, resolve, r, r') else r' == r
    ensures IsGroupBy(rules + [rule], resolve, r')
  {
    hide RenderedKey, PortName, GroupBackend, PortFrontend, Group, PortGroup, Eligible;
    var all := rules + [rule];
    forall port ensures port in r'.frontends <==> PortGroup(all, resolve, port) != []
    {
      NextGroups(rules, rule, resolve, port);
    }
    forall port | port in r'.frontends ensures r'.frontends[port] == PortFrontend(PortGroup(all, resolve, port))
    {
      NextGroups(rules, rule, resolve, port);
    }
    forall key ensures key in r'.backends <==> Group(all, resolve, key) != []
    {
      NextGroups(rules, rule, resolve, key);
    }
    forall key | key in r'.backends
      ensures (forall i :: 0 <= i < |Group(all, resolve, key)| ==> Eligible(resolve, Group(all, resolve, key)[i]))
      ensures r'.backends[key] == GroupBackend(Group(all, resolve, key), resolve)
    {
      GroupsAreEligible(all, resolve, key);
      NextGroups(rules, rule, resolve, key);
    }
  }

  /** The target of the rule is looked up without an error, or not at all. */
  predicate LooksUp(resolve: Resolver, rule: PortRule) {
    rule.sourcePort < 1 || !resolve(rule).Unavailable?
  }

  ghost predicate SeenIPs(backends: map<string, BackendService>, ips: map<string, set<string>>) {
    ips.Keys == backends.Keys && forall key :: key in ips ==> ips[key] == IPs(backends[key].endpoints)
  }

  /** One eligible rule. */
  method MergeRule(r: Routing, ips: map<string, set<string>>, rule: PortRule, eps: seq<Endpoint>,
        healthCheck: Option<HealthCheck>)
    returns (r': Routing, ips': map<string, set<string>>)
    requires SeenIPs(r.backends, ips)
    ensures SeenIPs(r'.backends, ips')
    ensures var key, port := RenderedKey(rule), PortName(rule);
            && r'.backends == r.backends[key :=
                 if key in r.backends
                 then r.backends[key].(endpoints := AddNew(r.backends[key].endpoints, eps, rule.weight))
                 else NewBackend(rule, AllWeighted(eps, rule.weight), healthCheck)]
            && var made := Frontend(rule.sourcePort, rule.protocol, []);
               var was := if port in r.frontends then r.frontends[port] else made;
               r'.frontends == r.frontends[port := if key in r.backends then was else was.(keys := was.keys + [key])]
  {
    var port, key := PortName(rule), RenderedKey(rule);
    var frontend := if port in r.frontends then r.frontends[port] else Frontend(rule.sourcePort, rule.protocol, []);
    var backend, endpoints, seen;
    if key in r.backends {
      endpoints, seen := AddEndpoints(r.backends[key].endpoints, ips[key], eps, rule.weight);
      backend := r.backends[key].(endpoints := endpoints);
    } else {
      endpoints, seen := WeighAll(eps, rule.weight);
      backend := NewBackend(rule, endpoints, healthCheck);
      frontend := frontend.(keys := frontend.keys + [key]);
    }
    r' := Routing(r.frontends[port := frontend], r.backends[key := backend]);
    ips' := ips[key := seen];
  }

  /** One round of the rule loop, after the rules `done`. */
  method NextRule(r: Routing, ips: map<string, set<string>>, rule: PortRule, resolve: Resolver,
        ghost done: seq<PortRule>)
    returns (ok: bool, r': Routing, ips': map<string, set<string>>)
    requires IsGroupBy(done, resolve, r) && SeenIPs(r.backends, ips)
    ensures ok <==> LooksUp(resolve, rule)
    ensures ok ==> IsGroupBy(done + [rule], resolve, r') && SeenIPs(r'.backends, ips')
  {
    hide RenderedKey, RouteOf, PortName, NewBackend, AllWeighted, AddNew, IsGroupBy, SeenIPs, GroupBackend;
    hide PortFrontend;
    ok, r', ips' := true, r, ips;
    if rule.sourcePort >= 1 {
      var target := resolve(rule);
      if target.Unavailable? {
        return false, r, ips;
      }
      if target.Found? {
        r', ips' := MergeRule(r, ips, rule, target.endpoints, target.healthCheck);
        BackendIsNext(done, rule, resolve, r, r'.backends[RenderedKey(rule)]);
        FrontendIsNext(done, rule, resolve, r, r'.frontends[PortName(rule)]);
      }
    }
    NextIsGroupBy(done, rule, resolve, r, r');
  }

  /** The rule loop. It fails exactly when the target of a rule with a port cannot be looked up. */
  method MergeRules(rules: seq<PortRule>, resolve: Resolver) returns (r: Result<Routing>)
    ensures r.Ok? <==> forall i :: 0 <= i < |rules| && rules[i].sourcePort >= 1 ==> !resolve(rules[i]).Unavailable?
    ensures r.Ok? ==> IsGroupBy(rules, resolve, r.value)
  {
    var routing := Routing(map[], map[]);
    var ips: map<string, set<string>> := map[];
    for n := 0 to |rules|
      invariant forall i :: 0 <= i < n ==> LooksUp(resolve, rules[i])
      invariant IsGroupBy(rules[..n], resolve, routing)
      invariant SeenIPs(routing.backends, ips)
    {
      var ok;
      ok, routing, ips := NextRule(routing, ips, rules[n], resolve, rules[..n]);
      if !ok {
        return Err;
      }
      assert rules[..n + 1] == rules[..n] + [rules[n]];
    }
    assert rules[..|rules|] == rules;
    return Ok(routing);
  }

  lemma BackendIsNext(rules: seq<PortRule>, rule: PortRule, resolve: Resolver, r: Routing, backend: BackendService)
    requires IsGroupBy(rules, resolve, r) && Eligible(resolve, rule)
    requires var key, target := RenderedKey(rule), resolve(rule);
             backend == if key in r.backends
                        then var was := r.backends[key];
                             was.(endpoints := AddNew(was.endpoints, target.endpoints, rule.weight))
                        else NewBackend(rule, AllWeighted(target.endpoints, rule.weight), target.healthCheck)
    ensures var g := Group(rules, resolve, RenderedKey(rule));
            && (forall i :: 0 <= i < |g| ==> Eligible(resolve, g[i]))
            && (forall i :: 0 <= i < |g + [rule]| ==> Eligible(resolve, (g + [rule])[i]))
            && backend == GroupBackend(g + [rule], resolve)
  {
    var g := Group(rules, resolve, RenderedKey(rule));
    GroupsAreEligible(rules, resolve, RenderedKey(rule));
    assert (g + [rule])[..|g|] == g;
    if g != [] {
      assert (g + [rule])[0] == g[0];
    }
  }

  lemma FrontendIsNext(rules: seq<PortRule>, rule: PortRule, resolve: Resolver, r: Routing, frontend: Frontend)
    requires IsGroupBy(rules, resolve, r) && Eligible(resolve, rule)
    requires var port, key := PortName(rule), RenderedKey(rule);
             var was := if port in r.frontends then r.frontends[port] else Frontend(rule.sourcePort, rule.protocol, []);
             frontend == if key in r.backends then was else was.(keys := was.keys + [key])
    ensures frontend == PortFrontend(PortGroup(rules, resolve, PortName(rule)) + [rule])
  {
    var g := PortGroup(rules, resolve, PortName(rule));
    forall q | RenderedKey(q) == RenderedKey(rule) ensures PortName(q) == PortName(rule) {
      SameKeySamePort(q, rule);
    }
    KeyListedIffGrouped(rules, resolve, PortName(rule), RenderedKey(rule));
    NextFirstKeys(g, rule);
    if g != [] {
      assert (g + [rule])[0] == g[0];
    }
  }
}
