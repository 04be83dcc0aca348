/**
 What merged backends and frontends take from which rule, on the fields of the rules alone
 (controller/rancher/rancher.go:308-421).
 */
module RouteFields {
  import opened Prelude
  import opened Text
  import opened Config
  import opened RuleMerge
  import opened RuleMergeProperties

  // ---------------------------------------------------------------------------------------
  // One rule
  // ---------------------------------------------------------------------------------------

  /** The protocols that route by host and path, in any letter case. */
  predicate ByHostAndPath(rule: PortRule) {
    EqualFold(rule.protocol, "http") || EqualFold(rule.protocol, "https") || EqualFold(rule.protocol, "sni")
  }

  function PathFor(rule: PortRule): string {
    if ByHostAndPath(rule) then rule.path else ""
  }

  /** `host` is what the rule's hostname leaves to compare, and `comparator` says how: the text after a
      leading star at the end, the text before a trailing one at the beginning, anything else as is. A
      star counts in a hostname of at least three characters. */
  predicate ComparesHost(rule: PortRule, host: string, comparator: string) {
    var pattern := rule.hostname;
    if !ByHostAndPath(rule) then host == "" && comparator == "eq"
    else if |pattern| >= 3 && pattern[0] == '*' then "*" + host == pattern && comparator == "end"
    else if |pattern| >= 3 && pattern[|pattern| - 1] == '*' then host + "*" == pattern && comparator == "beg"
    else host == pattern && comparator == "eq"
  }

  /** A rule is routed by exactly one host text, comparator and path. */
  lemma RouteIs(rule: PortRule, host: string, comparator: string)
    ensures ComparesHost(rule, host, comparator) <==>
            host == RouteOf(rule).host && comparator == RouteOf(rule).comparator
    ensures RouteOf(rule).path == PathFor(rule)
  {
    var pattern := rule.hostname;
    if ByHostAndPath(rule) && |pattern| >= 3 {
      assert pattern == "*" + host ==> pattern[1..] == host;
      assert pattern == host + "*" ==> pattern[..|pattern| - 1] == host;
      assert pattern[0] == '*' ==> "*" + pattern[1..] == pattern;
      assert pattern[|pattern| - 1] == '*' ==> pattern[..|pattern| - 1] + "*" == pattern;
    }
  }

  /** How the grouping key is put together. */
  lemma KeyText(rule: PortRule, host: string, comparator: string)
    requires ComparesHost(rule, host, comparator)
    ensures RenderedKey(rule) == Itoa(rule.sourcePort) + "_" + host + "_" + PathFor(rule)
  {
    RouteIs(rule, host, comparator);
  }

  /** Rules of one port and one hostname share a backend if and only if they have the same path. */
  lemma PathsApart(r: PortRule, q: PortRule)
    requires ByHostAndPath(r) && ByHostAndPath(q)
    requires r.sourcePort == q.sourcePort && r.hostname == q.hostname
    ensures RenderedKey(r) == RenderedKey(q) <==> r.path == q.path
  {
    hide RouteOf, ByHostAndPath, ComparesHost;
    var host, comparator := RouteOf(r).host, RouteOf(r).comparator;
    RouteIs(r, host, comparator);
    SameHost(r, q, host, comparator);
    KeyText(r, host, comparator);
    KeyText(q, host, comparator);
    var before := Itoa(r.sourcePort) + "_" + host + "_";
    assert (before + PathFor(r))[|before|..] == PathFor(r) && (before + PathFor(q))[|before|..] == PathFor(q);
    PathIs(r);
    PathIs(q);
  }

  lemma SameHost(r: PortRule, q: PortRule, host: string, comparator: string)
    requires ByHostAndPath(r) && ByHostAndPath(q) && r.hostname == q.hostname && ComparesHost(r, host, comparator)
    ensures ComparesHost(q, host, comparator)
  {
  }

  lemma PathIs(rule: PortRule)
    requires ByHostAndPath(rule)
    ensures PathFor(rule) == rule.path
  {
  }

  /** Rules that do not route by host and path share a backend if and only if they have one port. */
  lemma PortsApart(r: PortRule, q: PortRule)
    requires !ByHostAndPath(r) && !ByHostAndPath(q)
    requires r.sourcePort >= 1 && q.sourcePort >= 1
    ensures RenderedKey(r) == RenderedKey(q) <==> r.sourcePort == q.sourcePort
  {
    KeyText(r, "", "eq");
    KeyText(q, "", "eq");
    DigitsValueOfDigits(r.sourcePort);
    DigitsValueOfDigits(q.sourcePort);
    var x, y := Itoa(r.sourcePort) + "__", Itoa(q.sourcePort) + "__";
    assert RenderedKey(r) == x && RenderedKey(q) == y;
    assert x[..|x| - 2] == Itoa(r.sourcePort) && y[..|y| - 2] == Itoa(q.sourcePort);
  }

  // ---------------------------------------------------------------------------------------
  // Backends
  // ---------------------------------------------------------------------------------------

  /** The rule has a port and a target with endpoints. */
  predicate Counts(rule: PortRule, resolve: Resolver) {
    1 <= rule.sourcePort && resolve(rule).Found?
  }

  /** Rule `n` is the first of its key. */
  predicate FirstOfKey(rules: seq<PortRule>, resolve: Resolver, key: string, n: nat) {
    && n < |rules| && Counts(rules[n], resolve) && RenderedKey(rules[n]) == key
    && forall i :: 0 <= i < n ==> !(Counts(rules[i], resolve) && RenderedKey(rules[i]) == key)
  }

  /** There is a backend for exactly the keys of the rules that count. */
  lemma KeysAre(rules: seq<PortRule>, resolve: Resolver, r: Routing, key: string)
    requires IsGroupBy(rules, resolve, r)
    ensures key in r.backends <==> exists n: nat :: FirstOfKey(rules, resolve, key, n)
  {
    hide RenderedKey, GroupBackend, PortFrontend;
    if key in r.backends {
      var n := FirstRule(rules, resolve, key);
    }
    if n: nat :| FirstOfKey(rules, resolve, key, n) {
      var i := RuleIsGrouped(rules, resolve, n);
    }
  }

  lemma FirstRule(rules: seq<PortRule>, resolve: Resolver, key: string) returns (n: nat)
    requires Group(rules, resolve, key) != []
    ensures FirstOfKey(rules, resolve, key, n) && rules[n] == Group(rules, resolve, key)[0]
  {
    hide RenderedKey;
    GroupsAreEligible(rules, resolve, key);
    n := GroupedRuleIsARule(rules, resolve, key, 0);
    assert Group(rules[..n], resolve, key) == [];
    forall i | 0 <= i < n ensures !(Counts(rules[i], resolve) && RenderedKey(rules[i]) == key) {
      if Counts(rules[i], resolve) && RenderedKey(rules[i]) == key {
        var j := RuleIsGrouped(rules[..n], resolve, i);
      }
    }
  }

  /** Everything but its endpoints a backend has from the first rule of its key. */
  lemma BackendFields(rules: seq<PortRule>, resolve: Resolver, r: Routing, key: string) returns (n: nat)
    requires IsGroupBy(rules, resolve, r) && key in r.backends
    ensures FirstOfKey(rules, resolve, key, n)
    ensures var be, rule := r.backends[key], rules[n];
            && ComparesHost(rule, be.host, be.ruleComparator) && be.path == PathFor(rule)
            && be.uuid == (if rule.backendName != "" then rule.backendName else Sanitized(key))
            && be.port == rule.targetPort && be.protocol == rule.protocol && be.priority == rule.priority
            && be.healthCheck == resolve(rule).healthCheck && be.config == ""
  {
    hide RenderedKey, RouteOf, GroupEndpoints, Sanitized, ComparesHost, PathFor, PortFrontend;
    n := FirstRule(rules, resolve, key);
    RouteIs(rules[n], RouteOf(rules[n]).host, RouteOf(rules[n]).comparator);
  }

  // ---------------------------------------------------------------------------------------
  // Frontends
  // ---------------------------------------------------------------------------------------

  predicate FirstOfPort(rules: seq<PortRule>, resolve: Resolver, port: string, n: nat) {
    && n < |rules| && Counts(rules[n], resolve) && Itoa(rules[n].sourcePort) == port
    && forall i :: 0 <= i < n ==> !(Counts(rules[i], resolve) && Itoa(rules[i].sourcePort) == port)
  }

  lemma FirstRuleOfPort(rules: seq<PortRule>, resolve: Resolver, port: string) returns (n: nat)
    requires PortGroup(rules, resolve, port) != []
    ensures FirstOfPort(rules, resolve, port, n) && rules[n] == PortGroup(rules, resolve, port)[0]
  {
    hide Itoa;
    GroupsAreEligible(rules, resolve, port);
    n := PortRuleIsARule(rules, resolve, port, 0);
    assert PortGroup(rules[..n], resolve, port) == [];
    forall i | 0 <= i < n ensures !(Counts(rules[i], resolve) && Itoa(rules[i].sourcePort) == port) {
      if Counts(rules[i], resolve) && Itoa(rules[i].sourcePort) == port {
        var j := RuleIsOfPort(rules[..n], resolve, i);
      }
    }
  }

  /** There is a frontend for exactly the ports of the rules that count. It has number and protocol of
      the first rule of its port, and lists exactly the keys of the rules of that port. */
  lemma FrontendFields(rules: seq<PortRule>, resolve: Resolver, r: Routing, port: string)
    requires IsGroupBy(rules, resolve, r)
    ensures port in r.frontends <==> exists n: nat :: FirstOfPort(rules, resolve, port, n)
    ensures forall n: nat :: port in r.frontends && FirstOfPort(rules, resolve, port, n) ==>
              r.frontends[port].port == rules[n].sourcePort && r.frontends[port].protocol == rules[n].protocol
    ensures forall key :: port in r.frontends ==>
              (key in r.frontends[port].keys <==>
                 exists n :: 0 <= n < |rules| && ListsKey(rules[n], resolve, port, key))
  {
    hide RenderedKey, Itoa, GroupBackend, FirstKeys;
    var g := PortGroup(rules, resolve, port);
    if port in r.frontends {
      var n := FirstRuleOfPort(rules, resolve, port);
      forall key
        ensures key in FirstKeys(g) <==> exists n :: 0 <= n < |rules| && ListsKey(rules[n], resolve, port, key)
      {
        KeysOfPort(rules, resolve, port, key);
      }
    }
    if n: nat :| FirstOfPort(rules, resolve, port, n) {
      var i := RuleIsOfPort(rules, resolve, n);
    }
  }

  predicate ListsKey(rule: PortRule, resolve: Resolver, port: string, key: string) {
    Counts(rule, resolve) && Itoa(rule.sourcePort) == port && RenderedKey(rule) == key
  }

  lemma KeysOfPort(rules: seq<PortRule>, resolve: Resolver, port: string, key: string)
    ensures key in FirstKeys(PortGroup(rules, resolve, port)) <==>
              exists n :: 0 <= n < |rules| && ListsKey(rules[n], resolve, port, key)
  {
    hide RenderedKey, Itoa;
    var g := PortGroup(rules, resolve, port);
    FirstKeysAreDistinct(g);
    GroupsAreEligible(rules, resolve, port);
    if key in FirstKeys(g) {
      var i :| 0 <= i < |g| && RenderedKey(g[i]) == key;
      var n := PortRuleIsARule(rules, resolve, port, i);
      assert ListsKey(rules[n], resolve, port, key);
    }
    if n :| 0 <= n < |rules| && ListsKey(rules[n], resolve, port, key) {
      var i := RuleIsOfPort(rules, resolve, n);
      KeyOfRuleIsListed(g, i);
    }
  }

  /** A frontend of the configuration carries what the routing has for its port, and nothing else. */
  lemma ServiceFields(r: Routing, port: string)
    requires Complete(r) && port in r.frontends
    ensures var fe, f := ServiceOf(r, port), r.frontends[port];
            && fe.name == port && fe.port == f.port && fe.protocol == f.protocol && fe.config == "" && !fe.acceptProxy
            && |fe.backends| == |f.keys|
            && forall i :: 0 <= i < |f.keys| ==> fe.backends[i] == r.backends[f.keys[i]]
  {
  }
}
