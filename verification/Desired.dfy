/** What setDesired reads from a configuration (provider/haproxy/drain_recovery.go:45-69). */
module Desired {
  import opened Prelude
  import opened Text
  import opened Config
  import opened DrainModel

  /** The weight of the last "weight N" among the first `n` words of a server line. */
  function WeightIn(fields: seq<string>, n: nat): int
    requires n <= |fields|
  {
    if n == 0 then 1
    else if fields[n - 1] == "weight" && n < |fields| && Atoi(fields[n]).Some? then Atoi(fields[n]).value
    else WeightIn(fields, n - 1)
  }

  function DesiredEndpointOf(ep: Endpoint): DesiredEndpoint {
    DesiredEndpoint(WeightIn(Fields(ep.config), |Fields(ep.config)|), "disabled" in Fields(ep.config), ep.stopping)
  }

  function EndpointsDesired(uuid: string, eps: seq<Endpoint>): map<Key, DesiredEndpoint> {
    if eps == [] then map[]
    else EndpointsDesired(uuid, eps[..|eps| - 1])[uuid + "/" + eps[|eps| - 1].name := DesiredEndpointOf(eps[|eps| - 1])]
  }

  function BackendsDesired(bes: seq<BackendService>): map<Key, DesiredEndpoint> {
    if bes == [] then map[]
    else BackendsDesired(bes[..|bes| - 1]) + EndpointsDesired(bes[|bes| - 1].uuid, bes[|bes| - 1].endpoints)
  }

  /** Later endpoints overwrite earlier ones with the same key. */
  function DesiredOf(fes: seq<FrontendService>): map<Key, DesiredEndpoint> {
    if fes == [] then map[]
    else DesiredOf(fes[..|fes| - 1]) + BackendsDesired(fes[|fes| - 1].backends)
  }

  /** The word loop of setDesired. */
  method ReadEndpoint(ep: Endpoint) returns (state: DesiredEndpoint)
    ensures state == DesiredEndpointOf(ep)
  {
    state := DesiredEndpoint(1, false, ep.stopping);
    var fields := Fields(ep.config);
    for i := 0 to |fields|
      invariant state == DesiredEndpoint(WeightIn(fields, i), "disabled" in fields[..i], ep.stopping)
    {
      if fields[i] == "disabled" {
        state := state.(disabled := true);
      }
      if fields[i] == "weight" && i + 1 < |fields| {
        var weight := Atoi(fields[i + 1]);
        if weight.Some? {
          state := state.(weight := weight.value);
        }
      }
      assert fields[..i + 1] == fields[..i] + [fields[i]];
    }
    assert fields[..|fields|] == fields;
  }

  // ---------------------------------------------------------------------------------------
  // What a line says
  // ---------------------------------------------------------------------------------------

  /** Word `i` is "weight" and the next one is a number. */
  ghost predicate WeightPair(words: seq<string>, i: nat, weight: int) {
    i + 1 < |words| && words[i] == "weight" && Denotes(words[i + 1], weight)
  }

  ghost predicate NoPairBetween(words: seq<string>, i: nat, n: nat) {
    forall j: nat, weight: int :: i <= j < n ==> !WeightPair(words, j, weight)
  }

  lemma PairIsRead(words: seq<string>, n: nat)
    requires 0 < n < |words| && words[n - 1] == "weight" && Atoi(words[n]).Some?
    ensures WeightPair(words, n - 1, Atoi(words[n]).value)
  {
    hide Denotes, Atoi;
    AtoiIff(words[n], Atoi(words[n]).value);
  }

  lemma {:induction false} WithoutPair(words: seq<string>, n: nat)
    requires n <= |words| && NoPairBetween(words, 0, n)
    ensures WeightIn(words, n) == 1
  {
    hide WeightPair, Atoi;
    if n > 0 {
      WithoutPair(words, n - 1);
      if n < |words| && words[n - 1] == "weight" && Atoi(words[n]).Some? {
        PairIsRead(words, n);
      }
    }
  }

  lemma {:induction false} LastPair(words: seq<string>, n: nat, i: nat, weight: int)
    requires i < n <= |words| && WeightPair(words, i, weight) && NoPairBetween(words, i + 1, n)
    ensures WeightIn(words, n) == weight
  {
    hide Denotes, Atoi;
    if i == n - 1 {
      AtoiIff(words[n], weight);
    } else {
      LastPair(words, n - 1, i, weight);
      if n < |words| && words[n - 1] == "weight" && Atoi(words[n]).Some? {
        PairIsRead(words, n);
      }
    }
  }

  /** The weight of a line is the number after the last "weight" that a number follows, and 1 if there
      is none; it is disabled if the word occurs; and a stopping endpoint's zero is a temporary one. */
  lemma DesiredOfLine(ep: Endpoint)
    ensures var words, d := Fields(ep.config), DesiredEndpointOf(ep);
            && (NoPairBetween(words, 0, |words|) ==> d.weight == 1)
            && (forall i: nat, w: int ::
                  WeightPair(words, i, w) && NoPairBetween(words, i + 1, |words|) ==> d.weight == w)
            && (d.temporaryZero <==> ep.stopping)
    ensures DesiredEndpointOf(ep).disabled <==>
              exists i :: 0 <= i < |Fields(ep.config)| && Fields(ep.config)[i] == "disabled"
  {
    hide WeightIn, Fields, NoPairBetween, Denotes;
    var words := Fields(ep.config);
    if NoPairBetween(words, 0, |words|) {
      WithoutPair(words, |words|);
    }
    forall i: nat, w: int | WeightPair(words, i, w) && NoPairBetween(words, i + 1, |words|)
      ensures WeightIn(words, |words|) == w
    {
      LastPair(words, |words|, i, w);
    }
    DisabledIff(ep);
  }

  lemma DisabledIff(ep: Endpoint)
    ensures DesiredEndpointOf(ep).disabled <==>
              exists i :: 0 <= i < |Fields(ep.config)| && Fields(ep.config)[i] == "disabled"
  {
    OccursIff(Fields(ep.config), "disabled");
  }

  lemma OccursIff(words: seq<string>, word: string)
    ensures word in words <==> exists i :: 0 <= i < |words| && words[i] == word
  {
  }

  /** The nested loops of setDesired, innermost first. */
  method ReadEndpoints(before: map<Key, DesiredEndpoint>, uuid: string, eps: seq<Endpoint>)
    returns (desired: map<Key, DesiredEndpoint>)
    ensures desired == before + EndpointsDesired(uuid, eps)
  {
    desired := before;
    for e := 0 to |eps|
      invariant desired == before + EndpointsDesired(uuid, eps[..e])
    {
      var state := ReadEndpoint(eps[e]);
      desired := desired[uuid + "/" + eps[e].name := state];
      assert eps[..e + 1][..e] == eps[..e];
    }
    assert eps[..|eps|] == eps;
  }

  lemma MergeAssociates(a: map<Key, DesiredEndpoint>, b: map<Key, DesiredEndpoint>, c: map<Key, DesiredEndpoint>)
    ensures (a + b) + c == a + (b + c)
  {
  }

  method ReadBackends(before: map<Key, DesiredEndpoint>, bes: seq<BackendService>)
    returns (desired: map<Key, DesiredEndpoint>)
    ensures desired == before + BackendsDesired(bes)
  {
    desired := before;
    for b := 0 to |bes|
      invariant desired == before + BackendsDesired(bes[..b])
    {
      desired := ReadEndpoints(desired, bes[b].uuid, bes[b].endpoints);
      MergeAssociates(before, BackendsDesired(bes[..b]), EndpointsDesired(bes[b].uuid, bes[b].endpoints));
      assert bes[..b + 1][..b] == bes[..b];
    }
    assert bes[..|bes|] == bes;
  }

  method ReadDesired(fes: seq<FrontendService>) returns (desired: map<Key, DesiredEndpoint>)
    ensures desired == DesiredOf(fes)
  {
    desired := map[];
    for f := 0 to |fes|
      invariant desired == DesiredOf(fes[..f])
    {
      desired := ReadBackends(desired, fes[f].backends);
      assert fes[..f + 1][..f] == fes[..f];
    }
    assert fes[..|fes|] == fes;
  }

  // ---------------------------------------------------------------------------------------
  // Unique keys
  // ---------------------------------------------------------------------------------------

  /** No other endpoint of the configuration has the key of `p`. */
  ghost predicate UniqueKey(fes: seq<FrontendService>, p: Place)
    requires Within(fes, p)
  {
    forall q | Within(fes, q) && KeyOf(fes, q) == KeyOf(fes, p) :: q == p
  }

  lemma {:induction false} EndpointsDesiredAt(uuid: string, eps: seq<Endpoint>, key: Key)
    ensures key in EndpointsDesired(uuid, eps) <==> exists e :: 0 <= e < |eps| && uuid + "/" + eps[e].name == key
    ensures key in EndpointsDesired(uuid, eps) ==>
              exists e :: 0 <= e < |eps| && uuid + "/" + eps[e].name == key
                          && EndpointsDesired(uuid, eps)[key] == DesiredEndpointOf(eps[e])
  {
    if eps != [] {
      var n := |eps| - 1;
      EndpointsDesiredAt(uuid, eps[..n], key);
      if uuid + "/" + eps[n].name != key && key in EndpointsDesired(uuid, eps[..n]) {
        var e :| 0 <= e < n && uuid + "/" + eps[..n][e].name == key
                 && EndpointsDesired(uuid, eps[..n])[key] == DesiredEndpointOf(eps[..n][e]);
        assert eps[..n][e] == eps[e];
      }
      forall e | 0 <= e < n && uuid + "/" + eps[e].name == key ensures key in EndpointsDesired(uuid, eps[..n]) {
        assert eps[..n][e] == eps[e];
      }
    }
  }

  /** Every desired entry comes from an endpoint of the configuration with that key. */
  lemma {:induction false} BackendsDesiredAt(bes: seq<BackendService>, key: Key)
    ensures key in BackendsDesired(bes) <==>
            exists b, e :: 0 <= b < |bes| && 0 <= e < |bes[b].endpoints|
                && bes[b].uuid + "/" + bes[b].endpoints[e].name == key
    ensures key in BackendsDesired(bes) ==>
            exists b, e :: 0 <= b < |bes| && 0 <= e < |bes[b].endpoints|
                && bes[b].uuid + "/" + bes[b].endpoints[e].name == key
                           && BackendsDesired(bes)[key] == DesiredEndpointOf(bes[b].endpoints[e])
  {
    if bes != [] {
      var n := |bes| - 1;
      BackendsDesiredAt(bes[..n], key);
      EndpointsDesiredAt(bes[n].uuid, bes[n].endpoints, key);
      forall b, e | 0 <= b < |bes| && 0 <= e < |bes[b].endpoints| && bes[b].uuid + "/" + bes[b].endpoints[e].name == key
        ensures key in BackendsDesired(bes)
      {
        if b < n {
          assert bes[..n][b] == bes[b];
        }
      }
      if key in BackendsDesired(bes) && key !in EndpointsDesired(bes[n].uuid, bes[n].endpoints) {
        var b, e :| 0 <= b < n && 0 <= e < |bes[..n][b].endpoints|
            && bes[..n][b].uuid + "/" + bes[..n][b].endpoints[e].name == key
                    && BackendsDesired(bes[..n])[key] == DesiredEndpointOf(bes[..n][b].endpoints[e]);
        assert bes[..n][b] == bes[b];
      }
    }
  }

  predicate EndpointMatches(uuid: string, ep: Endpoint, key: Key) {
    uuid + "/" + ep.name == key
  }

  lemma {:induction false} LastEndpoint(uuid: string, eps: seq<Endpoint>, key: Key) returns (e: nat)
    requires key in EndpointsDesired(uuid, eps)
    ensures e < |eps| && EndpointMatches(uuid, eps[e], key)
    ensures EndpointsDesired(uuid, eps)[key] == DesiredEndpointOf(eps[e])
    ensures forall e' :: e < e' < |eps| ==> !EndpointMatches(uuid, eps[e'], key)
  {
    hide DesiredEndpointOf;
    var n := |eps| - 1;
    if EndpointMatches(uuid, eps[n], key) {
      e := n;
    } else {
      e := LastEndpoint(uuid, eps[..n], key);
      forall e' | e < e' < n ensures !EndpointMatches(uuid, eps[e'], key) {
        assert eps[..n][e'] == eps[e'];
      }
    }
  }

  predicate BackendMatches(be: BackendService, e: nat, key: Key) {
    e < |be.endpoints| && EndpointMatches(be.uuid, be.endpoints[e], key)
  }

  lemma MatchIsDesired(be: BackendService, e: nat, key: Key)
    requires BackendMatches(be, e, key)
    ensures key in EndpointsDesired(be.uuid, be.endpoints)
  {
    hide DesiredEndpointOf;
    EndpointsDesiredAt(be.uuid, be.endpoints, key);
    assert be.uuid + "/" + be.endpoints[e].name == key;
  }

  lemma {:induction false} LastBackend(bes: seq<BackendService>, key: Key) returns (b: nat, e: nat)
    requires key in BackendsDesired(bes)
    ensures b < |bes| && BackendMatches(bes[b], e, key)
    ensures BackendsDesired(bes)[key] == DesiredEndpointOf(bes[b].endpoints[e])
    ensures forall e' :: e' > e ==> !BackendMatches(bes[b], e', key)
    ensures forall b', e' :: b < b' < |bes| ==> !BackendMatches(bes[b'], e', key)
  {
    hide DesiredEndpointOf, EndpointsDesired;
    var n := |bes| - 1;
    if key in EndpointsDesired(bes[n].uuid, bes[n].endpoints) {
      b := n;
      e := LastEndpoint(bes[n].uuid, bes[n].endpoints, key);
    } else {
      b, e := LastBackend(bes[..n], key);
      forall b', e' | b < b' < |bes| ensures !BackendMatches(bes[b'], e', key) {
        if b' == n {
          if BackendMatches(bes[n], e', key) {
            MatchIsDesired(bes[n], e', key);
          }
        } else {
          assert bes[..n][b'] == bes[b'];
        }
      }
    }
  }

  /** In the order frontends, backends and endpoints are gone through. */
  predicate After(q: Place, p: Place) {
    q.fe > p.fe || (q.fe == p.fe && (q.be > p.be || (q.be == p.be && q.ep > p.ep)))
  }

  ghost predicate LastWithKey(fes: seq<FrontendService>, p: Place, key: Key) {
    && Within(fes, p) && KeyOf(fes, p) == key
    && forall q | Within(fes, q) && KeyOf(fes, q) == key :: !After(q, p)
  }

  lemma KeyedIsMatching(fes: seq<FrontendService>, q: Place, key: Key)
    requires Within(fes, q)
    ensures KeyOf(fes, q) == key <==> BackendMatches(fes[q.fe].backends[q.be], q.ep, key)
  {
  }

  lemma BackendMatchIsDesired(bes: seq<BackendService>, b: nat, e: nat, key: Key)
    requires b < |bes| && BackendMatches(bes[b], e, key)
    ensures key in BackendsDesired(bes)
  {
    hide EndpointsDesired, DesiredEndpointOf;
    BackendsDesiredAt(bes, key);
    assert bes[b].uuid + "/" + bes[b].endpoints[e].name == key;
  }

  /** Every desired entry is what the last endpoint with that key says. */
  lemma {:induction false} DesiredHasPlace(fes: seq<FrontendService>, key: Key) returns (p: Place)
    requires key in DesiredOf(fes)
    ensures LastWithKey(fes, p, key)
    ensures DesiredOf(fes)[key] == DesiredEndpointOf(EndpointAt(fes, p))
  {
    hide DesiredEndpointOf, BackendsDesired, EndpointMatches;
    var n := |fes| - 1;
    if key in BackendsDesired(fes[n].backends) {
      var b, e := LastBackend(fes[n].backends, key);
      p := Place(n, b, e);
      KeyedIsMatching(fes, p, key);
      forall q | Within(fes, q) && KeyOf(fes, q) == key ensures !After(q, p) {
        KeyedIsMatching(fes, q, key);
      }
    } else {
      p := DesiredHasPlace(fes[..n], key);
      assert fes[..n][p.fe] == fes[p.fe];
      forall q | Within(fes, q) && KeyOf(fes, q) == key ensures !After(q, p) {
        KeyedIsMatching(fes, q, key);
        if q.fe == n {
          BackendMatchIsDesired(fes[n].backends, q.be, q.ep, key);
        } else {
          assert fes[..n][q.fe] == fes[q.fe] && Within(fes[..n], q) && KeyOf(fes[..n], q) == key;
        }
      }
    }
  }

  lemma {:induction false} PlaceIsDesired(fes: seq<FrontendService>, p: Place)
    requires Within(fes, p)
    ensures KeyOf(fes, p) in DesiredOf(fes)
  {
    var n := |fes| - 1;
    BackendsDesiredAt(fes[n].backends, KeyOf(fes, p));
    if p.fe == n {
      assert fes[n].backends[p.be].uuid + "/" + fes[n].backends[p.be].endpoints[p.ep].name == KeyOf(fes, p);
    } else {
      assert fes[..n][p.fe] == fes[p.fe];
      PlaceIsDesired(fes[..n], p);
    }
  }

  /** An endpoint whose key is unique is desired as its own server line says. */
  lemma UniqueKeyDesired(fes: seq<FrontendService>, p: Place)
    requires Within(fes, p) && UniqueKey(fes, p)
    ensures KeyOf(fes, p) in DesiredOf(fes)
    ensures DesiredOf(fes)[KeyOf(fes, p)] == DesiredEndpointOf(EndpointAt(fes, p))
  {
    PlaceIsDesired(fes, p);
    var q := DesiredHasPlace(fes, KeyOf(fes, p));
  }
}
