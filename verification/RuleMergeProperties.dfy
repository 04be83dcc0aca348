/** What the grouping of port rules guarantees. */
module RuleMergeProperties {
  import opened Prelude
  import opened Text
  import opened Config
  import opened RuleMerge

  predicate AllEligible(group: seq<PortRule>, resolve: Resolver) {
    forall i :: 0 <= i < |group| ==> Eligible(resolve, group[i])
  }

  /** The endpoints the target of an eligible rule has. */
  function Offered(group: seq<PortRule>, resolve: Resolver, i: nat): seq<Endpoint>
    requires AllEligible(group, resolve) && i < |group|
  {
    assert Eligible(resolve, group[i]);
    resolve(group[i]).endpoints
  }

  // ---------------------------------------------------------------------------------------
  // Rules and groups
  // ---------------------------------------------------------------------------------------

  lemma {:induction false} GroupedRuleIsARule(rules: seq<PortRule>, resolve: Resolver, key: string, i: nat)
    returns (n: nat)
    requires i < |Group(rules, resolve, key)|
    ensures n < |rules| && rules[n] == Group(rules, resolve, key)[i]
    ensures Group(rules[..n], resolve, key) == Group(rules, resolve, key)[..i]
  {
    var last := |rules| - 1;
    var front := rules[..last];
    if i < |Group(front, resolve, key)| {
      n := GroupedRuleIsARule(front, resolve, key, i);
      assert front[..n] == rules[..n];
      assert Group(rules, resolve, key)[..i] == Group(front, resolve, key)[..i];
    } else {
      n := last;
    }
  }

  lemma {:induction false} RuleIsGrouped(rules: seq<PortRule>, resolve: Resolver, n: nat) returns (i: nat)
    requires n < |rules| && Eligible(resolve, rules[n])
    ensures i < |Group(rules, resolve, RenderedKey(rules[n]))|
            && Group(rules, resolve, RenderedKey(rules[n]))[i] == rules[n]
  {
    var last := |rules| - 1;
    if n < last {
      i := RuleIsGrouped(rules[..last], resolve, n);
    } else {
      i := |Group(rules[..last], resolve, RenderedKey(rules[n]))|;
    }
  }

  lemma {:induction false} RuleInGroup(rules: seq<PortRule>, resolve: Resolver, n: nat)
    requires n < |rules| && Eligible(resolve, rules[n])
    ensures var key := RenderedKey(rules[n]);
            var all, before := Group(rules, resolve, key), Group(rules[..n], resolve, key);
            |before| < |all| && all[|before|] == rules[n] && all[..|before|] == before
  {
    hide RenderedKey;
    var last := |rules| - 1;
    if n < last {
      RuleInGroup(rules[..last], resolve, n);
      assert rules[..last][..n] == rules[..n];
    }
  }

  lemma {:induction false} PortRuleIsARule(rules: seq<PortRule>, resolve: Resolver, port: string, i: nat)
    returns (n: nat)
    requires i < |PortGroup(rules, resolve, port)|
    ensures n < |rules| && rules[n] == PortGroup(rules, resolve, port)[i]
    ensures PortGroup(rules[..n], resolve, port) == PortGroup(rules, resolve, port)[..i]
  {
    var last := |rules| - 1;
    var front := rules[..last];
    if i < |PortGroup(front, resolve, port)| {
      n := PortRuleIsARule(front, resolve, port, i);
      assert front[..n] == rules[..n];
      assert PortGroup(rules, resolve, port)[..i] == PortGroup(front, resolve, port)[..i];
    } else {
      n := last;
    }
  }

  lemma {:induction false} RuleIsOfPort(rules: seq<PortRule>, resolve: Resolver, n: nat) returns (i: nat)
    requires n < |rules| && Eligible(resolve, rules[n])
    ensures i < |PortGroup(rules, resolve, PortName(rules[n]))|
    ensures PortGroup(rules, resolve, PortName(rules[n]))[i] == rules[n]
  {
    var last := |rules| - 1;
    if n < last {
      i := RuleIsOfPort(rules[..last], resolve, n);
    } else {
      i := |PortGroup(rules[..last], resolve, PortName(rules[n]))|;
    }
  }

  predicate DistinctIPs(eps: seq<Endpoint>) {
    forall i, j :: 0 <= i < j < |eps| ==> eps[i].ip != eps[j].ip
  }

  // ---------------------------------------------------------------------------------------
  // Endpoints of a group
  // ---------------------------------------------------------------------------------------

  lemma {:induction false} AddNewIPs(before: seq<Endpoint>, eps: seq<Endpoint>, weight: int)
    ensures IPs(AddNew(before, eps, weight)) == IPs(before) + IPs(eps)
  {
    if eps != [] {
      var n := |eps| - 1;
      AddNewIPs(before, eps[..n], weight);
      IPsNext(eps[..n], eps[n]);
      assert eps == eps[..n] + [eps[n]];
      IPsNext(AddNew(before, eps[..n], weight), Weighted(eps[n], weight));
    }
  }

  /** What a later rule adds: distinct new IPs, each with the weight of that rule. */
  lemma {:induction false} AddNewAdds(before: seq<Endpoint>, eps: seq<Endpoint>, weight: int)
    ensures var all := AddNew(before, eps, weight);
            && |before| <= |all| && all[..|before|] == before
            && DistinctIPs(all[|before|..])
            && forall j :: |before| <= j < |all| ==>
                 all[j].ip !in IPs(before) && exists k :: 0 <= k < |eps| && all[j] == Weighted(eps[k], weight)
  {
    if eps != [] {
      var n := |eps| - 1;
      AddNewAdds(before, eps[..n], weight);
      AddNewIPs(before, eps[..n], weight);
      var so, all := AddNew(before, eps[..n], weight), AddNew(before, eps, weight);
      forall j | |before| <= j < |so| ensures exists k :: 0 <= k < |eps| && so[j] == Weighted(eps[k], weight) {
        var k :| 0 <= k < n && so[j] == Weighted(eps[..n][k], weight);
        assert so[j] == Weighted(eps[k], weight);
      }
      forall j | 0 <= j < |so| ensures so[j].ip in IPs(so) {}
      assert all == so || all == so + [Weighted(eps[n], weight)];
    }
  }

  lemma AllWeightedIPs(eps: seq<Endpoint>, weight: int)
    ensures IPs(AllWeighted(eps, weight)) == IPs(eps)
  {
    var all := AllWeighted(eps, weight);
    assert forall i :: 0 <= i < |eps| ==> all[i].ip == eps[i].ip;
    forall x | x in IPs(eps) ensures x in IPs(all) {
      var i :| 0 <= i < |eps| && eps[i].ip == x;
      assert all[i].ip == x;
    }
  }

  /** The IPs of a backend are those of all the rules of its group. */
  lemma {:induction false} GroupIPs(group: seq<PortRule>, resolve: Resolver, ip: string)
    requires AllEligible(group, resolve)
    ensures ip in IPs(GroupEndpoints(group, resolve)) <==>
            exists i :: 0 <= i < |group| && ip in IPs(Offered(group, resolve, i))
  {
    if |group| == 1 {
      AllWeightedIPs(Offered(group, resolve, 0), group[0].weight);
    } else if |group| > 1 {
      var n := |group| - 1;
      var front := group[..n];
      GroupIPs(front, resolve, ip);
      AddNewIPs(GroupEndpoints(front, resolve), Offered(group, resolve, n), group[n].weight);
      forall i | 0 <= i < n ensures Offered(front, resolve, i) == Offered(group, resolve, i) {}
    }
  }

  /** Endpoint `j` of the backend comes from rule `i`: the first of the group that offers its IP,
      whose weight it carries unless it is stopping, in which case it keeps its own. */
  ghost predicate ComesFrom(group: seq<PortRule>, resolve: Resolver, ep: Endpoint, i: nat)
    requires AllEligible(group, resolve)
  {
    && i < |group|
    && (exists k :: 0 <= k < |Offered(group, resolve, i)|
         && ep == Weighted(Offered(group, resolve, i)[k], group[i].weight))
    && forall i' :: 0 <= i' < i ==> ep.ip !in IPs(Offered(group, resolve, i'))
  }

  lemma {:induction false} EachEndpointComesFrom(group: seq<PortRule>, resolve: Resolver, j: nat) returns (i: nat)
    requires AllEligible(group, resolve) && j < |GroupEndpoints(group, resolve)|
    ensures ComesFrom(group, resolve, GroupEndpoints(group, resolve)[j], i)
  {
    var ep := GroupEndpoints(group, resolve)[j];
    if |group| == 1 {
      assert ep == Weighted(Offered(group, resolve, 0)[j], group[0].weight);
      i := 0;
    } else {
      var n := |group| - 1;
      var front := group[..n];
      var before := GroupEndpoints(front, resolve);
      AddNewAdds(before, Offered(group, resolve, n), group[n].weight);
      forall i' | 0 <= i' < n ensures Offered(front, resolve, i') == Offered(group, resolve, i') {}
      if j < |before| {
        assert ep == before[j];
        i := EachEndpointComesFrom(front, resolve, j);
      } else {
        GroupIPs(front, resolve, ep.ip);
        i := n;
      }
    }
  }

  lemma LaterAdded(first: seq<Endpoint>, before: seq<Endpoint>, all: seq<Endpoint>)
    requires |first| <= |before| <= |all| && before[..|first|] == first && all[..|before|] == before
    requires DistinctIPs(before[|first|..]) && DistinctIPs(all[|before|..])
    requires forall j :: |first| <= j < |before| ==> before[j].ip !in IPs(first)
    requires forall j :: |before| <= j < |all| ==> all[j].ip !in IPs(before)
    ensures all[..|first|] == first && DistinctIPs(all[|first|..])
    ensures forall j :: |first| <= j < |all| ==> all[j].ip !in IPs(first)
  {
    assert all[..|first|] == before[..|first|];
    forall x | x in IPs(first) ensures x in IPs(before) {
      var k :| 0 <= k < |first| && first[k].ip == x;
      assert before[k].ip == x;
    }
    forall j | 0 <= j < |before| ensures before[j].ip in IPs(before) && all[j] == before[j] {}
    var n, m := |first|, |before|;
    forall i, j | 0 <= i < j < |all| - n ensures all[n..][i].ip != all[n..][j].ip {
      if n + j < m {
        assert before[n..][i] == all[n..][i] && before[n..][j] == all[n..][j];
      } else if n + i < m {
        assert all[n..][i] == before[n + i] && all[n..][j] == all[n + j];
      } else {
        assert all[m..][n + i - m] == all[n..][i] && all[m..][n + j - m] == all[n..][j];
      }
    }
  }

  /** After the endpoints of the first rule, each IP appears once. */
  lemma {:induction false} LaterIPsAppearOnce(group: seq<PortRule>, resolve: Resolver)
    requires AllEligible(group, resolve) && group != []
    ensures var first, all := AllWeighted(Offered(group, resolve, 0), group[0].weight), GroupEndpoints(group, resolve);
            && |first| <= |all| && all[..|first|] == first
            && DistinctIPs(all[|first|..])
            && forall j :: |first| <= j < |all| ==> all[j].ip !in IPs(first)
  {
    if |group| > 1 {
      var n := |group| - 1;
      var front := group[..n];
      LaterIPsAppearOnce(front, resolve);
      assert Offered(front, resolve, 0) == Offered(group, resolve, 0);
      var first := AllWeighted(Offered(group, resolve, 0), group[0].weight);
      var before, all := GroupEndpoints(front, resolve), GroupEndpoints(group, resolve);
      AddNewAdds(before, Offered(group, resolve, n), group[n].weight);
      LaterAdded(first, before, all);
    }
  }

  // ---------------------------------------------------------------------------------------
  // One address of a group
  // ---------------------------------------------------------------------------------------

  /** The endpoints at an address, in order. */
  function AtAddress(eps: seq<Endpoint>, ip: string): (there: seq<Endpoint>)
    ensures forall i :: 0 <= i < |there| ==> there[i] in eps && there[i].ip == ip
    ensures forall i :: 0 <= i < |eps| && eps[i].ip == ip ==> eps[i] in there
  {
    if eps == [] then []
    else
      var front, last := eps[..|eps| - 1], eps[|eps| - 1];
      assert eps == front + [last];
      AtAddress(front, ip) + if last.ip == ip then [last] else []
  }

  lemma AtAddressNext(eps: seq<Endpoint>, ep: Endpoint, ip: string)
    ensures AtAddress(eps + [ep], ip) == AtAddress(eps, ip) + if ep.ip == ip then [ep] else []
  {
    assert (eps + [ep])[..|eps|] == eps;
  }

  lemma NothingThereIff(eps: seq<Endpoint>, ip: string)
    ensures AtAddress(eps, ip) == [] <==> ip !in IPs(eps)
  {
    if ip in IPs(eps) {
      var i :| 0 <= i < |eps| && eps[i].ip == ip;
      assert eps[i] in AtAddress(eps, ip);
    }
    if AtAddress(eps, ip) != [] {
      var ep := AtAddress(eps, ip)[0];
      assert ep in eps && ep.ip == ip;
    }
  }

  lemma {:induction false} AllWeightedAt(eps: seq<Endpoint>, weight: int, ip: string)
    ensures AtAddress(AllWeighted(eps, weight), ip) == AllWeighted(AtAddress(eps, ip), weight)
  {
    hide AtAddress;
    if eps == [] {
      assert AllWeighted(eps, weight) == [];
      NothingThereIff([], ip);
    } else {
      var front, last := eps[..|eps| - 1], eps[|eps| - 1];
      AllWeightedAt(front, weight, ip);
      assert eps == front + [last];
      assert AllWeighted(eps, weight) == AllWeighted(front, weight) + [Weighted(last, weight)];
      AtAddressNext(front, last, ip);
      AtAddressNext(AllWeighted(front, weight), Weighted(last, weight), ip);
    }
  }

  /** A later rule adds its first endpoint at an address if there is none yet. */
  lemma {:induction false} AddNewAt(before: seq<Endpoint>, eps: seq<Endpoint>, weight: int, ip: string)
    ensures AtAddress(AddNew(before, eps, weight), ip) ==
            if AtAddress(before, ip) != [] then AtAddress(before, ip)
            else if AtAddress(eps, ip) == [] then []
            else [Weighted(AtAddress(eps, ip)[0], weight)]
  {
    hide AtAddress;
    NothingThereIff([], ip);
    if eps != [] {
      var front, last := eps[..|eps| - 1], eps[|eps| - 1];
      AddNewAt(before, front, weight, ip);
      assert eps == front + [last];
      AtAddressNext(front, last, ip);
      var so := AddNew(before, front, weight);
      NothingThereIff(so, ip);
      AtAddressNext(so, Weighted(last, weight), ip);
    }
  }

  /** Rule `i` is the first of the group to offer the address. */
  predicate FirstAt(group: seq<PortRule>, resolve: Resolver, ip: string, i: nat)
    requires AllEligible(group, resolve) && i < |group|
  {
    && AtAddress(Offered(group, resolve, i), ip) != []
    && forall i' :: 0 <= i' < i ==> AtAddress(Offered(group, resolve, i'), ip) == []
  }

  lemma {:induction false} NobodyAt(group: seq<PortRule>, resolve: Resolver, ip: string)
    requires AllEligible(group, resolve)
    requires forall i :: 0 <= i < |group| ==> AtAddress(Offered(group, resolve, i), ip) == []
    ensures AtAddress(GroupEndpoints(group, resolve), ip) == []
  {
    hide AtAddress;
    NothingThereIff(GroupEndpoints(group, resolve), ip);
    GroupIPs(group, resolve, ip);
    forall i | 0 <= i < |group| ensures ip !in IPs(Offered(group, resolve, i)) {
      NothingThereIff(Offered(group, resolve, i), ip);
    }
  }

  /** What a group has at an address is decided by the first rule that offers it: all that this rule
      has there if it is the first of the group, and otherwise the first endpoint it has there. */
  lemma {:induction false} GroupAt(group: seq<PortRule>, resolve: Resolver, ip: string, i: nat)
    requires AllEligible(group, resolve) && i < |group| && FirstAt(group, resolve, ip, i)
    ensures var there := AtAddress(Offered(group, resolve, i), ip);
            AtAddress(GroupEndpoints(group, resolve), ip) ==
            if i == 0 then AllWeighted(there, group[0].weight) else [Weighted(there[0], group[i].weight)]
  {
    hide AtAddress;
    var n := |group| - 1;
    var front := group[..n];
    forall i' | 0 <= i' < n ensures Offered(front, resolve, i') == Offered(group, resolve, i') {}
    if n == 0 {
      AllWeightedAt(Offered(group, resolve, 0), group[0].weight, ip);
    } else {
      AddNewAt(GroupEndpoints(front, resolve), Offered(group, resolve, n), group[n].weight, ip);
      if i < n {
        GroupAt(front, resolve, ip, i);
      } else {
        NobodyAt(front, resolve, ip);
      }
    }
  }

  // ---------------------------------------------------------------------------------------
  // Frontends
  // ---------------------------------------------------------------------------------------

  predicate DistinctKeys(keys: seq<string>) {
    forall i, j :: 0 <= i < j < |keys| ==> keys[i] != keys[j]
  }

  lemma {:induction false} FirstKeysAreDistinct(rules: seq<PortRule>)
    ensures DistinctKeys(FirstKeys(rules))
    ensures forall key :: key in FirstKeys(rules) ==> exists i :: 0 <= i < |rules| && RenderedKey(rules[i]) == key
  {
    if rules != [] {
      var n := |rules| - 1;
      FirstKeysAreDistinct(rules[..n]);
      forall key | key in FirstKeys(rules) ensures exists i :: 0 <= i < |rules| && RenderedKey(rules[i]) == key {
        if key in FirstKeys(rules[..n]) {
          var i :| 0 <= i < n && RenderedKey(rules[..n][i]) == key;
          assert RenderedKey(rules[i]) == key;
        } else {
          assert RenderedKey(rules[n]) == key;
        }
      }
    }
  }

  lemma {:induction false} KeyOfRuleIsListed(rules: seq<PortRule>, i: nat)
    requires i < |rules|
    ensures RenderedKey(rules[i]) in FirstKeys(rules)
  {
    hide RenderedKey;
    if i < |rules| - 1 {
      KeyOfRuleIsListed(rules[..|rules| - 1], i);
    }
  }

  /** Every backend is listed once, by the frontend of its own port and by no other. */
  lemma BackendHasOneFrontend(rules: seq<PortRule>, resolve: Resolver, r: Routing, key: string) returns (port: string)
    requires IsGroupBy(rules, resolve, r) && key in r.backends
    ensures port in r.frontends && key in r.frontends[port].keys && DistinctKeys(r.frontends[port].keys)
    ensures forall rule :: RenderedKey(rule) == key ==> PortName(rule) == port
    ensures forall other :: other in r.frontends && key in r.frontends[other].keys ==> other == port
  {
    hide RenderedKey, PortName, GroupBackend, FirstKeys, DistinctKeys, Eligible;
    GroupsAreEligible(rules, resolve, key);
    var rule := Group(rules, resolve, key)[0];
    port := PortName(rule);
    forall q | RenderedKey(q) == key ensures PortName(q) == port {
      SameKeySamePort(q, rule);
    }
    KeyListedIffGrouped(rules, resolve, port, key);
    FirstKeysAreDistinct(PortGroup(rules, resolve, port));
    forall other | other in r.frontends && key in r.frontends[other].keys ensures other == port {
      FirstKeysAreDistinct(PortGroup(rules, resolve, other));
      GroupsAreEligible(rules, resolve, other);
    }
  }

  /** Conversely a frontend lists only backends that exist. */
  lemma ListedBackendExists(rules: seq<PortRule>, resolve: Resolver, r: Routing, port: string, key: string)
    requires IsGroupBy(rules, resolve, r) && port in r.frontends && key in r.frontends[port].keys
    ensures key in r.backends
  {
    hide RenderedKey, PortName, GroupBackend, FirstKeys, DistinctKeys, Eligible;
    FirstKeysAreDistinct(PortGroup(rules, resolve, port));
    GroupsAreEligible(rules, resolve, port);
    var g := PortGroup(rules, resolve, port);
    var i :| 0 <= i < |g| && RenderedKey(g[i]) == key;
    forall q | RenderedKey(q) == key ensures PortName(q) == port {
      SameKeySamePort(q, g[i]);
    }
    KeyListedIffGrouped(rules, resolve, port, key);
  }

  // ---------------------------------------------------------------------------------------
  // The resulting configuration
  // ---------------------------------------------------------------------------------------

  predicate Complete(r: Routing) {
    forall port :: port in r.frontends ==>
      forall i :: 0 <= i < |r.frontends[port].keys| ==> r.frontends[port].keys[i] in r.backends
  }

  lemma GroupByIsComplete(rules: seq<PortRule>, resolve: Resolver, r: Routing)
    requires IsGroupBy(rules, resolve, r)
    ensures Complete(r)
  {
    hide IsGroupBy;
    forall port | port in r.frontends
      ensures forall i :: 0 <= i < |r.frontends[port].keys| ==> r.frontends[port].keys[i] in r.backends
    {
      forall i | 0 <= i < |r.frontends[port].keys| ensures r.frontends[port].keys[i] in r.backends {
        ListedBackendExists(rules, resolve, r, port, r.frontends[port].keys[i]);
      }
    }
  }

  function ServiceOf(r: Routing, port: string): FrontendService
    requires Complete(r) && port in r.frontends
  {
    var f := r.frontends[port];
    FrontendService(port, f.port, seq(|f.keys|, i requires 0 <= i < |f.keys| => r.backends[f.keys[i]]), f.protocol,
                    "", false)
  }

  /** Collecting the frontends, in any order. */
  method Assemble(r: Routing) returns (fes: seq<FrontendService>)
    requires Complete(r)
    ensures forall i :: 0 <= i < |fes| ==> fes[i].name in r.frontends && fes[i] == ServiceOf(r, fes[i].name)
    ensures forall i, j :: 0 <= i < j < |fes| ==> fes[i].name != fes[j].name
    ensures forall port :: port in r.frontends ==> exists i :: 0 <= i < |fes| && fes[i].name == port
  {
    fes := [];
    var todo := r.frontends.Keys;
    while todo != {}
      invariant todo <= r.frontends.Keys
      invariant forall i :: 0 <= i < |fes| ==>
                fes[i].name in r.frontends && fes[i].name !in todo && fes[i] == ServiceOf(r, fes[i].name)
      invariant forall i, j :: 0 <= i < j < |fes| ==> fes[i].name != fes[j].name
      invariant forall port :: port in r.frontends && port !in todo ==>
                exists i :: 0 <= i < |fes| && fes[i].name == port
    {
      var port :| port in todo;
      ghost var before := fes;
      fes := fes + [ServiceOf(r, port)];
      todo := todo - {port};
      assert fes[|before|].name == port;
      forall other | other in r.frontends && other !in todo ensures exists i :: 0 <= i < |fes| && fes[i].name == other {
        if other != port {
          var i :| 0 <= i < |before| && before[i].name == other;
          assert fes[i].name == other;
        }
      }
    }
  }
}
