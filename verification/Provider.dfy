/**
 The controller as the source has it: objects whose methods update the ownership records, the
 drain list and the runtime weights step by step, in any map order. Each method is proved to
 take the whole state to what `DrainModel` says of the step.
 */
module Provider {
  import opened Prelude
  import opened DrainModel
  import opened Config
  import Desired
  import DrainWaiting
  import Text

  /** A server after a weight command. */
  function Weighed(sv: ServerState, fault: Fault, weight: int): ServerState {
    sv.(weight := WeightAfter(fault, sv.weight, weight))
  }

  /** The HAProxy process behind the socket. */
  class Haproxy {
    var pid: Pid
    var servers: Servers
    var commands: multiset<(Key, int)>  // weight commands received so far

    constructor (pid: Pid, servers: Servers)
      ensures this.pid == pid && this.servers == servers && this.commands == multiset{}
    {
      this.pid, this.servers, this.commands := pid, servers, multiset{};
    }

    /** `show servers state`, parsed. */
    method ReadServerStates(answered: bool) returns (r: Result<Servers>)
      ensures r == if answered then Ok(servers) else Err
    {
      r := if answered then Ok(servers) else Err;
    }

    /** `set server <key> weight <weight>`; true if HAProxy accepted it in time. */
    method SetWeight(key: Key, weight: int, fault: Fault) returns (ok: bool)
      modifies this`servers, this`commands
      ensures commands == old(commands) + multiset{(key, weight)}
      ensures servers == if key in old(servers)
                         then old(servers)[key := Weighed(old(servers)[key], fault, weight)]
                         else old(servers)
      ensures ok <==> key in old(servers) && !fault.error
    {
      commands := commands + multiset{(key, weight)};
      if key !in servers {
        return false;  // "No such server"
      }
      if fault.effect {
        servers := servers[key := servers[key].(weight := weight)];
      } else {
        assert servers == servers[key := servers[key].(weight := servers[key].weight)];
      }
      ok := !fault.error;
    }

    /** setWeightVerified: the command, then a readback of the weight. */
    method SetWeightVerified(key: Key, weight: int, fault: Fault) returns (ok: bool)
      modifies this`servers, this`commands
      ensures commands == old(commands) + multiset{(key, weight)}
      ensures servers == if key in old(servers)
                         then old(servers)[key := Weighed(old(servers)[key], fault, weight)]
                         else old(servers)
      ensures ok <==> key in old(servers) && Verified(fault, old(servers)[key].weight, weight)
    {
      ok := SetWeight(key, weight, fault);
      if !ok {
        return;
      }
      var states := ReadServerStates(fault.readback);
      ok := states.Ok? && key in states.value && states.value[key].weight == weight;
    }
  }

  // ---------------------------------------------------------------------------------------
  // Effects on maps
  // ---------------------------------------------------------------------------------------

  /** The weight seen for a key, if it is there. */
  function Seen(states: Servers, key: Key): int {
    if key in states then states[key].weight else 0
  }

  /** Records with the entry of `key` replaced or deleted. */
  function Put(records: Records, key: Key, owned: Option<DrainWeight>): Records {
    if owned.Some? then records[key := owned.value] else records - {key}
  }

  function Commanded(servers: Servers, r: Decision, key: Key, fault: Fault): Servers
    requires r.Order? ==> key in servers
  {
    if r.Order? then servers[key := Weighed(servers[key], fault, r.target)] else servers
  }

  function CommandsOf(r: Decision, key: Key): multiset<(Key, int)> {
    if r.Order? then multiset{(key, r.target)} else multiset{}
  }

  function Bag(orders: map<Key, int>): multiset<(Key, int)> {
    multiset(set k | k in orders :: (k, orders[k]))
  }

  lemma BagNext(orders: map<Key, int>, key: Key, weight: int)
    requires key !in orders
    ensures Bag(orders[key := weight]) == Bag(orders) + multiset{(key, weight)}
  {
    var more := orders[key := weight];
    var all, all' := set k | k in orders :: (k, orders[k]), set k | k in more :: (k, more[k]);
    forall p | p in all + {(key, weight)} ensures p in all' {
      assert p.0 in more && more[p.0] == p.1;
    }
    assert all' == all + {(key, weight)};
    assert (key, weight) !in all;
  }

  lemma DisjointItems(a: set<(Key, int)>, b: set<(Key, int)>)
    requires a !! b
    ensures multiset(a + b) == multiset(a) + multiset(b)
  {
  }

  lemma BagUnion(a: map<Key, int>, b: map<Key, int>)
    requires a.Keys !! b.Keys
    ensures Bag(a + b) == Bag(a) + Bag(b)
  {
    var both := a + b;
    var pa, pb, pab := set k | k in a :: (k, a[k]), set k | k in b :: (k, b[k]), set k | k in both :: (k, both[k]);
    forall p | p in pa + pb ensures p in pab {
      assert p.0 in both && both[p.0] == p.1;
    }
    assert pab == pa + pb;
    DisjointItems(pa, pb);
  }

  lemma WriteWeightsNext(servers: Servers, orders: map<Key, int>, key: Key, weight: int, io: IO)
    requires key !in orders && key in servers
    ensures WriteWeights(servers, orders[key := weight], io) ==
            WriteWeights(servers, orders, io)[key := Weighed(servers[key], io.At(key), weight)]
  {
  }

  lemma UnverifiedNext(servers: Servers, orders: map<Key, int>, key: Key, weight: int, io: IO)
    requires key !in orders && key in servers
    ensures SomeUnverified(servers, orders[key := weight], io) <==>
            SomeUnverified(servers, orders, io) || !Verified(io.At(key), servers[key].weight, weight)
  {
    if !Verified(io.At(key), servers[key].weight, weight) {
      assert key in orders[key := weight];
    }
    forall k | k in orders && k in servers && !Verified(io.At(k), servers[k].weight, orders[k])
      ensures SomeUnverified(servers, orders[key := weight], io)
    {
      assert k in orders[key := weight] && orders[key := weight][k] == orders[k];
    }
  }

  lemma UnverifiedUnion(servers: Servers, a: map<Key, int>, b: map<Key, int>, io: IO)
    requires a.Keys !! b.Keys
    ensures SomeUnverified(servers, a + b, io) <==> SomeUnverified(servers, a, io) || SomeUnverified(servers, b, io)
  {
    forall k | k in a && k in servers && !Verified(io.At(k), servers[k].weight, a[k])
      ensures SomeUnverified(servers, a + b, io)
    {
      assert k in a + b && (a + b)[k] == a[k];
    }
    forall k | k in b && k in servers && !Verified(io.At(k), servers[k].weight, b[k])
      ensures SomeUnverified(servers, a + b, io)
    {
      assert k in a + b && (a + b)[k] == b[k];
    }
  }

  lemma WriteWeightsUnion(servers: Servers, a: map<Key, int>, b: map<Key, int>, io: IO)
    requires a.Keys !! b.Keys
    ensures WriteWeights(WriteWeights(servers, a, io), b, io) == WriteWeights(servers, a + b, io)
  {
  }

  // ---------------------------------------------------------------------------------------
  // How far a reconcile has come
  // ---------------------------------------------------------------------------------------

  function AfterKey(s: Sys, name: Name, key: Key, io: IO): Option<DrainWeight>
    requires name in s.weights && key in s.weights[name]
  {
    OwnedAfter(DecisionFor(s, name, key), io.At(key), CurrentWeight(s, key))
  }

  /** For each record of a name, what becomes of it. */
  function Outcomes(s: Sys, name: Name, io: IO): map<Key, Option<DrainWeight>>
    requires name in s.weights
  {
    map k | k in s.weights[name] :: AfterKey(s, name, k, io)
  }

  function OrdersOf(s: Sys, name: Name): map<Key, int>
    requires name in s.weights
  {
    map k | k in s.weights[name] && DecisionFor(s, name, k).Order? :: DecisionFor(s, name, k).target
  }

  /** The records while the keys in `todo` are still to come. */
  function RecordsPartly(records: Records, outcomes: map<Key, Option<DrainWeight>>, todo: set<Key>): Records
    requires outcomes.Keys == records.Keys
  {
    map k | k in records && (k in todo || outcomes[k].Some?) :: if k in todo then records[k] else outcomes[k].value
  }

  function OrdersBut(orders: map<Key, int>, todo: set<Key>): map<Key, int> {
    orders - todo
  }

  /** All ownership records while the names in `todo` are still to come. */
  function WeightsPartly(weights: map<Name, Records>, kept: map<Name, Records>, todo: set<Name>): map<Name, Records> {
    map n | n in weights && (n in todo || n in kept) :: if n in todo then weights[n] else kept[n]
  }

  /** The commands sent while the names in `todo` are still to come. */
  function SentPartly(orders: map<Key, int>, todo: set<Name>): map<Key, int> {
    map k | k in orders && NameOf(k) !in todo :: orders[k]
  }

  lemma OrdersOfName(s: Sys, io: IO, name: Name, key: Key)
    requires WellFiled(s) && name in s.weights && ReconcileRuns(s) && io.pidOk && io.readOk
    ensures Lookup(OrdersOf(s, name), key) == if NameOf(key) == name then Lookup(ReconcileOrders(s, io), key) else None
  {
  }

  lemma SentNext(orders: map<Key, int>, ofName: map<Key, int>, todo: set<Name>, name: Name)
    requires name in todo
    requires forall key :: Lookup(ofName, key) == if NameOf(key) == name then Lookup(orders, key) else None
    ensures SentPartly(orders, todo - {name}) == SentPartly(orders, todo) + ofName
    ensures SentPartly(orders, todo).Keys !! ofName.Keys
  {
    forall key ensures Lookup(SentPartly(orders, todo - {name}), key) == Lookup(SentPartly(orders, todo) + ofName, key)
    {
      assert Lookup(ofName, key) == if NameOf(key) == name then Lookup(orders, key) else None;
    }
    forall key ensures key in ofName ==> key !in SentPartly(orders, todo) {
      assert Lookup(ofName, key) == if NameOf(key) == name then Lookup(orders, key) else None;
    }
    SameOrders(SentPartly(orders, todo - {name}), SentPartly(orders, todo) + ofName);
  }

  lemma SameOrders(a: map<Key, int>, b: map<Key, int>)
    requires forall key :: Lookup(a, key) == Lookup(b, key)
    ensures a == b
  {
    forall k ensures k in a <==> k in b {
      assert Lookup(a, k) == Lookup(b, k);
    }
    forall k | k in a ensures a[k] == b[k] {
      assert Lookup(a, k) == Lookup(b, k);
    }
  }

  lemma WeightsNext(weights: map<Name, Records>, kept: map<Name, Records>, todo: set<Name>, name: Name)
    requires name in todo && name in weights
    ensures Lookup(WeightsPartly(weights, kept, todo), name) == Some(weights[name])
    ensures WeightsPartly(weights, kept, todo - {name}) ==
            if name in kept then WeightsPartly(weights, kept, todo)[name := kept[name]]
            else WeightsPartly(weights, kept, todo) - {name}
  {
  }

  lemma KeepSame(weights: map<Name, Records>, name: Name, key: Key)
    requires name in weights && key in weights[name]
    ensures weights[name := Put(weights[name], key, Some(weights[name][key]))] == weights
  {
    assert weights[name][key := weights[name][key]] == weights[name];
  }

  lemma UpdateTwice(weights: map<Name, Records>, name: Name, a: Records, b: Records)
    ensures weights[name := a][name] == a
    ensures weights[name := a][name := b] == weights[name := b]
    ensures weights[name := a] - {name} == weights - {name}
  {
  }

  lemma CommandsAdd(base: multiset<(Key, int)>, a: multiset<(Key, int)>, b: multiset<(Key, int)>)
    ensures (base + a) + b == base + (a + b)
  {
  }

  lemma KeepTwice(weights: map<Name, Records>, name: Name, key: Key, first: DrainWeight, second: DrainWeight)
    requires name in weights
    ensures var once := weights[name := Put(weights[name], key, Some(first))];
            once[name := Put(once[name], key, Some(second))] == weights[name := Put(weights[name], key, Some(second))]
  {
    assert weights[name][key := first][key := second] == weights[name][key := second];
  }

  // ---------------------------------------------------------------------------------------
  // drainMgr
  // ---------------------------------------------------------------------------------------

  class DrainMgr {
    var weights: map<Name, Records>
    var desired: Option<map<Key, DesiredEndpoint>>
    var drainList: map<Name, Pid>
    const haproxy: Haproxy

    constructor (haproxy: Haproxy)
      ensures weights == map[] && desired == None && drainList == map[] && this.haproxy == haproxy
    {
      weights, desired, drainList := map[], None, map[];
      this.haproxy := haproxy;
    }

    ghost function View(blocked: bool): Sys
      reads this, haproxy
    {
      Sys(weights, desired, drainList, blocked, haproxy.pid, haproxy.servers)
    }

    /** The body of reconcileDrains for a record whose drain is active. */
    method ReapplyDrain(name: Name, key: Key, pid: Pid, states: Servers, fault: Fault) returns (ok: bool)
      requires name in weights && key in weights[name] && desired.Some?
      requires Lookup(haproxy.servers, key) == Lookup(states, key)
      modifies this`weights, haproxy`servers, haproxy`commands
      ensures var r := DecideDraining(old(weights)[name][key], pid, Lookup(desired.value, key), Lookup(states, key));
              && weights == old(weights)[name := Put(old(weights)[name], key, OwnedAfter(r, fault, Seen(states, key)))]
              && haproxy.servers == Commanded(old(haproxy.servers), r, key, fault)
              && haproxy.commands == old(haproxy.commands) + CommandsOf(r, key)
              && (ok <==> !(r.Order? && !Verified(fault, states[key].weight, r.target)))
    {
      hide OperatorAdmin, WeightAfter, Verified;
      ok := true;
      var original := weights[name][key];
      if key !in states || key !in desired.value {
        Forget(name, key);
        return;
      }
      var state, want := states[key], desired.value[key];
      if want.disabled || (want.weight == 0 && !want.temporaryZero) || OperatorAdmin(state.admin) {
        Forget(name, key);
        return;
      }
      KeepSame(weights, name, key);
      if state.admin != 0 {
        return;
      }
      if original.pid == pid && !original.retry {
        if state.weight != 0 {
          Forget(name, key);
        }
        return;
      }
      if original.pid != pid {
        if want.temporaryZero && want.weight == 0 && state.initialWeight == 0 && state.weight == 0 {
          Keep(name, key, original.(pid := pid, retry := false, stoppingReload := true));
          return;
        }
        if state.weight == 0 {
          return;
        }
        if state.weight != state.initialWeight {
          Forget(name, key);
          return;
        }
        if state.initialWeight != want.weight {
          return;
        }
      }
      ok := ZeroAgain(name, key, pid, original, state, fault);
    }

    /** The end of that body: the zero is repeated unless it is there already. */
    method ZeroAgain(name: Name, key: Key, pid: Pid, before: DrainWeight, state: ServerState, fault: Fault)
      returns (ok: bool)
      requires name in weights && key in weights[name] && Lookup(haproxy.servers, key) == Some(state)
      modifies this`weights, haproxy`servers, haproxy`commands
      ensures var pending, done := before.(pid := pid, retry := true), before.(pid := pid, retry := false);
              var r := if state.weight == 0 then Hold(done) else Order(pending, 0, Some(done));
              && weights == old(weights)[name := Put(old(weights)[name], key, OwnedAfter(r, fault, state.weight))]
              && haproxy.servers == Commanded(old(haproxy.servers), r, key, fault)
              && haproxy.commands == old(haproxy.commands) + CommandsOf(r, key)
              && (ok <==> !(r.Order? && !Verified(fault, state.weight, r.target)))
    {
      ok := true;
      var original := before.(pid := pid, retry := true);
      Keep(name, key, original);
      if state.weight != 0 {
        ok := haproxy.SetWeightVerified(key, 0, fault);
        if !ok {
          return;
        }
      }
      Keep(name, key, original.(retry := false));
      KeepTwice(old(weights), name, key, original, original.(retry := false));
    }

    /** The body of reconcileDrains for a record whose drain is over. */
    method RecoverWeight(name: Name, key: Key, pid: Pid, states: Servers, fault: Fault) returns (ok: bool)
      requires name in weights && key in weights[name] && desired.Some?
      requires Lookup(haproxy.servers, key) == Lookup(states, key)
      modifies this`weights, haproxy`servers, haproxy`commands
      ensures var r := DecideFinished(old(weights)[name][key], pid, Lookup(desired.value, key), Lookup(states, key));
              && weights == old(weights)[name := Put(old(weights)[name], key, OwnedAfter(r, fault, Seen(states, key)))]
              && haproxy.servers == Commanded(old(haproxy.servers), r, key, fault)
              && haproxy.commands == old(haproxy.commands) + CommandsOf(r, key)
              && (ok <==> !(r.Order? && !Verified(fault, states[key].weight, r.target)))
    {
      hide OperatorAdmin, WeightAfter, Verified;
      ok := true;
      var original := weights[name][key];
      if key !in desired.value || key !in states {
        Forget(name, key);
        return;
      }
      var want, state := desired.value[key], states[key];
      if want.disabled || (want.weight == 0 && !want.temporaryZero) || OperatorAdmin(state.admin) {
        Forget(name, key);
        return;
      }
      KeepSame(weights, name, key);
      if want.temporaryZero && want.weight == 0 {
        if state.weight != 0 {
          Forget(name, key);
          return;
        }
        if original.pid != pid && state.initialWeight == 0 {
          Keep(name, key, original.(pid := pid, stoppingReload := true));
        }
        return;
      }
      ok := RestoreWeight(name, key, pid, want, state, fault);
    }

    /** The rest of that body: the endpoint is meant to serve again. */
    method RestoreWeight(name: Name, key: Key, pid: Pid, want: DesiredEndpoint, state: ServerState, fault: Fault)
      returns (ok: bool)
      requires name in weights && key in weights[name] && Lookup(haproxy.servers, key) == Some(state)
      modifies this`weights, haproxy`servers, haproxy`commands
      ensures var r := DecideRestore(old(weights)[name][key], pid, want, state);
              && weights == old(weights)[name := Put(old(weights)[name], key, OwnedAfter(r, fault, state.weight))]
              && haproxy.servers == Commanded(old(haproxy.servers), r, key, fault)
              && haproxy.commands == old(haproxy.commands) + CommandsOf(r, key)
              && (ok <==> !(r.Order? && !Verified(fault, state.weight, r.target)))
    {
      hide WeightAfter, Verified;
      ok := true;
      KeepSame(weights, name, key);
      var original := weights[name][key];
      var restoreWeight := original.weight;
      if want.weight != original.initialWeight {
        restoreWeight := want.weight;
      }
      var runningReload := original.stoppingReload && original.pid != pid && state.weight > 0 &&
                           state.initialWeight == want.weight &&
                           (state.weight == state.initialWeight || state.weight == restoreWeight);
      if state.weight != 0 && !runningReload {
        Forget(name, key);
        return;
      }
      if original.pid != pid && !runningReload {
        Forget(name, key);
        return;
      }
      if state.admin != 0 || state.operational != 2 {
        return;
      }
      if state.weight != restoreWeight {
        ok := haproxy.SetWeightVerified(key, restoreWeight, fault);
        if !ok {
          return;
        }
      }
      Forget(name, key);
    }

    method Forget(name: Name, key: Key)
      requires name in weights
      modifies this`weights
      ensures weights == old(weights)[name := Put(old(weights)[name], key, None)]
    {
      weights := weights[name := weights[name] - {key}];
    }

    method Keep(name: Name, key: Key, original: DrainWeight)
      requires name in weights
      modifies this`weights
      ensures weights == old(weights)[name := Put(old(weights)[name], key, Some(original))]
    {
      weights := weights[name := weights[name][key := original]];
    }

    /** One record of reconcileDrains. `s` is the state the reconcile started from. */
    method ReconcileKey(name: Name, key: Key, pid: Pid, states: Servers, io: IO, ghost s: Sys) returns (ok: bool)
      requires name in weights && desired.Some?
      requires s.desired == desired && s.drainList == drainList && s.pid == pid && s.servers == states
      requires name in s.weights && key in s.weights[name]
      requires Lookup(weights[name], key) == Some(s.weights[name][key])
      requires Lookup(haproxy.servers, key) == Lookup(states, key)
      modifies this`weights, haproxy`servers, haproxy`commands
      ensures var r := DecisionFor(s, name, key);
              && weights == old(weights)[name := Put(old(weights)[name], key, AfterKey(s, name, key, io))]
              && haproxy.servers == Commanded(old(haproxy.servers), r, key, io.At(key))
              && haproxy.commands == old(haproxy.commands) + CommandsOf(r, key)
              && (ok <==> !(r.Order? && !Verified(io.At(key), s.servers[key].weight, r.target)))
    {
      if name in drainList {
        ok := ReapplyDrain(name, key, pid, states, io.At(key));
      } else {
        ok := RecoverWeight(name, key, pid, states, io.At(key));
      }
    }

    /** One name of reconcileDrains: all its records, whatever their order. */
    method ReconcileName(name: Name, pid: Pid, states: Servers, io: IO, ghost s: Sys) returns (ok: bool)
      requires name in weights && desired.Some?
      requires s.desired == desired && s.drainList == drainList && s.pid == pid && s.servers == states
      requires name in s.weights && s.weights[name] == weights[name]
      requires forall k | k in s.weights[name] :: Lookup(haproxy.servers, k) == Lookup(states, k)
      modifies this`weights, haproxy`servers, haproxy`commands
      ensures weights ==
              if NameStays(s, name, io) then old(weights)[name := KeptRecords(s, name, io)] else old(weights) - {name}
      ensures haproxy.servers == WriteWeights(old(haproxy.servers), OrdersOf(s, name), io)
      ensures haproxy.commands == old(haproxy.commands) + Bag(OrdersOf(s, name))
      ensures ok <==> !SomeUnverified(s.servers, OrdersOf(s, name), io)
    {
      hide WriteWeights, SomeUnverified, Bag, OrdersBut, RecordsPartly, DecisionFor, AfterKey, KeptRecords;
      ok := true;
      var todo := weights[name].Keys;
      ghost var records, outcomes, orders := s.weights[name], Outcomes(s, name, io), OrdersOf(s, name);
      NoneDone(records, outcomes, orders, haproxy.servers, s.servers, io);
      assert haproxy.commands == old(haproxy.commands) + multiset{};
      assert weights == weights[name := weights[name]];
      while todo != {}
        invariant todo <= records.Keys
        invariant weights == old(weights)[name := RecordsPartly(records, outcomes, todo)]
        invariant haproxy.servers == WriteWeights(old(haproxy.servers), OrdersBut(orders, todo), io)
        invariant haproxy.commands == old(haproxy.commands) + Bag(OrdersBut(orders, todo))
        invariant ok <==> !SomeUnverified(s.servers, OrdersBut(orders, todo), io)
      {
        var key :| key in todo;
        NextKey(s, name, todo, key, old(haproxy.servers), io);
        var done := ReconcileKey(name, key, pid, states, io, s);
        UpdateTwice(old(weights), name, RecordsPartly(records, outcomes, todo),
                    RecordsPartly(records, outcomes, todo - {key}));
        CommandsAdd(old(haproxy.commands), Bag(OrdersBut(orders, todo)), CommandsOf(DecisionFor(s, name, key), key));
        ok := ok && done;
        todo := todo - {key};
      }
      AllDone(s, name, io);
      UpdateTwice(old(weights), name, weights[name], weights[name]);
      if name !in drainList && weights[name] == map[] {
        weights := weights - {name};
      }
    }

    /** One server of drainEndpoint: the record is saved before the command goes out. */
    method DrainServer(name: Name, key: Key, state: ServerState, pid: Pid, fault: Fault) returns (ok: bool)
      requires name in weights && Lookup(haproxy.servers, key) == Some(state)
      modifies this`weights, haproxy`servers, haproxy`commands
      ensures weights ==
              old(weights)[name := old(weights)[name][key := DrainRecord(Lookup(old(weights)[name], key), state, pid)]]
      ensures haproxy.servers == old(haproxy.servers)[key := state.(weight := WeightAfter(fault, state.weight, 0))]
      ensures haproxy.commands == old(haproxy.commands) + multiset{(key, 0)}
      ensures ok <==> Verified(fault, state.weight, 0)
    {
      if key !in weights[name] {
        var original := DrainWeight(state.weight, state.initialWeight, pid, false, false);
        weights := weights[name := weights[name][key := original]];
      } else {
        var owned := weights[name][key];
        owned := owned.(pid := pid);
        weights := weights[name := weights[name][key := owned]];
      }
      ok := haproxy.SetWeightVerified(key, 0, fault);
    }

    /** drainEndpoint, whatever the order of servers. */
    method DrainEndpoint(name: Name, pid: Pid, states: Servers, io: IO, ghost s: Sys) returns (ok: bool)
      requires s == View(s.blocked) && pid == s.pid && states == s.servers
      modifies this`weights, haproxy`servers, haproxy`commands
      ensures weights == old(weights)[name := DrainedRecords(s, name)]
      ensures haproxy.servers == WriteWeights(s.servers, DrainOrders(s, name), io)
      ensures haproxy.commands == old(haproxy.commands) + Bag(DrainOrders(s, name))
      ensures ok <==> !SomeUnverified(s.servers, DrainOrders(s, name), io)
    {
      hide WriteWeights, SomeUnverified, DrainedRecords, WeightAfter, Verified, Bag, OrdersBut;
      if name !in weights {
        weights := weights[name := map[]];
      }
      ok := true;
      ghost var base, drained, orders := RecordsOf(s, name), NewRecords(s, name), DrainOrders(s, name);
      var todo := states.Keys;
      NothingDrained(base, drained, orders, s.servers, io);
      assert haproxy.commands == old(haproxy.commands) + multiset{};
      assert weights == old(weights)[name := base];
      while todo != {}
        invariant todo <= states.Keys
        invariant weights == old(weights)[name := base + (drained - todo)]
        invariant haproxy.servers == WriteWeights(s.servers, OrdersBut(orders, todo), io)
        invariant haproxy.commands == old(haproxy.commands) + Bag(OrdersBut(orders, todo))
        invariant ok <==> !SomeUnverified(s.servers, OrdersBut(orders, todo), io)
      {
        var key :| key in todo;
        var state := states[key];
        if state.name == name && state.admin == 0 && state.weight != 0 {
          NextDrained(s, name, todo, key, io);
          var done := DrainServer(name, key, state, pid, io.At(key));
          UpdateTwice(old(weights), name, base + (drained - todo), base + (drained - (todo - {key})));
          CommandsAdd(old(haproxy.commands), Bag(OrdersBut(orders, todo)), multiset{(key, 0)});
          ok := ok && done;
        } else {
          assert drained - todo == drained - (todo - {key});
          OrdersNext(orders, todo, key);
        }
        todo := todo - {key};
      }
      AllDrained(s, name);
    }

    /** AddEndpointForDrain; `name` is empty when there is no named endpoint. */
    method AddEndpointForDrain(name: Name, pid: Pid, io: IO, current: Result<int>, older: Result<bool>, ghost s: Sys)
      returns (waiting: bool)
      requires s == View(s.blocked) && pid == s.pid && io.pidOk
      modifies this`weights, this`drainList, haproxy`servers, haproxy`commands
      ensures var stats := DrainWaiting.StatsOf(current, older);
              && View(s.blocked) == Drain(s, name, io, stats)
              && haproxy.commands == old(haproxy.commands) + Bag(Orders(s, Drained(name, io, stats)))
      ensures waiting <==> name != "" && name in drainList
    {
      if name == "" {
        return false;
      }
      if name in drainList {
        return true;
      }
      if current.Err? {
        return false;
      }
      var states := haproxy.ReadServerStates(io.readOk);
      if states.Err? {
        return false;
      }
      var ok := DrainEndpoint(name, pid, states.value, io, s);
      if !ok {
        return false;
      }
      var listedPid := pid;
      if current.value == 0 {
        var oldPidExists := older.Err? || older.value;  // an error is logged, and taken for yes
        if !oldPidExists {
          return false;
        }
        listedPid := "";
      }
      drainList := drainList[name := listedPid];
      return true;
    }

    method RemoveEndpointFromDrain(name: Name)
      modifies this`drainList
      ensures drainList == old(drainList) - {name}
    {
      drainList := drainList - {name};
    }

    /** isEndpointUpForDrain; the second result is the listed process. */
    method IsEndpointUpForDrain(name: Name) returns (up: bool, pid: Pid)
      requires "" !in drainList
      ensures up <==> name in drainList
      ensures pid == if up then drainList[name] else ""
    {
      if name != "" {
        if name in drainList {
          return true, drainList[name];
        }
      }
      return false, "";
    }

    method SetDesired(frontends: seq<FrontendService>)
      modifies this`desired
      ensures desired == Some(Desired.DesiredOf(frontends))
    {
      var read := Desired.ReadDesired(frontends);
      desired := Some(read);
    }

    /** The name loop of reconcileDrains, whatever the order of names. */
    method ReconcileNames(pid: Pid, states: Servers, io: IO, ghost s: Sys) returns (ok: bool)
      requires s == View(false) && WellFiled(s) && ReconcileRuns(s) && io.pidOk && io.readOk
      requires pid == s.pid && states == s.servers
      modifies this`weights, haproxy`servers, haproxy`commands
      ensures weights == KeptWeights(s, io)
      ensures haproxy.servers == WriteWeights(s.servers, ReconcileOrders(s, io), io)
      ensures haproxy.commands == old(haproxy.commands) + Bag(ReconcileOrders(s, io))
      ensures ok <==> !SomeUnverified(s.servers, ReconcileOrders(s, io), io)
    {
      hide WriteWeights, SomeUnverified, Bag, SentPartly, WeightsPartly, KeptWeights, ReconcileOrders;
      hide WellFiled, NameOf;
      ok := true;
      var todo := weights.Keys;
      ghost var kept, orders := KeptWeights(s, io), ReconcileOrders(s, io);
      NoNameDone(s, io);
      assert haproxy.commands == old(haproxy.commands) + multiset{};
      while todo != {}
        invariant todo <= s.weights.Keys
        invariant weights == WeightsPartly(s.weights, kept, todo)
        invariant haproxy.servers == WriteWeights(s.servers, SentPartly(orders, todo), io)
        invariant haproxy.commands == old(haproxy.commands) + Bag(SentPartly(orders, todo))
        invariant ok <==> !SomeUnverified(s.servers, SentPartly(orders, todo), io)
      {
        var name :| name in todo;
        NameUntouched(s, io, todo, name);
        var done := ReconcileName(name, pid, states, io, s);
        NextName(s, io, todo, name);
        CommandsAdd(old(haproxy.commands), Bag(SentPartly(orders, todo)), Bag(OrdersOf(s, name)));
        ok := ok && done;
        todo := todo - {name};
      }
      AllNamesDone(s, io);
    }
  }

  function NewRecords(s: Sys, name: Name): Records {
    map k | k in DrainOrders(s, name) :: DrainRecord(Lookup(RecordsOf(s, name), k), s.servers[k], s.pid)
  }

  lemma NothingDrained(base: Records, drained: Records, orders: map<Key, int>, servers: Servers, io: IO)
    requires drained.Keys == orders.Keys <= servers.Keys
    ensures base + (drained - servers.Keys) == base
    ensures OrdersBut(orders, servers.Keys) == map[] && Bag(map[]) == multiset{}
    ensures WriteWeights(servers, map[], io) == servers && !SomeUnverified(servers, map[], io)
  {
  }

  lemma AllDrained(s: Sys, name: Name)
    ensures RecordsOf(s, name) + (NewRecords(s, name) - {}) == DrainedRecords(s, name)
    ensures OrdersBut(DrainOrders(s, name), {}) == DrainOrders(s, name)
  {
  }

  /** What draining one more server changes. */
  lemma NextDrained(s: Sys, name: Name, todo: set<Key>, key: Key, io: IO)
    requires key in todo && key in DrainOrders(s, name)
    ensures var base, drained := RecordsOf(s, name), NewRecords(s, name);
            && Lookup(base + (drained - todo), key) == Lookup(base, key)
            && base + (drained - (todo - {key})) ==
                 (base + (drained - todo))[key := DrainRecord(Lookup(base, key), s.servers[key], s.pid)]
    ensures var before, after := OrdersBut(DrainOrders(s, name), todo), OrdersBut(DrainOrders(s, name), todo - {key});
            && Lookup(WriteWeights(s.servers, before, io), key) == Some(s.servers[key])
            && WriteWeights(s.servers, after, io) ==
                 WriteWeights(s.servers, before, io)[key := Weighed(s.servers[key], io.At(key), 0)]
            && Bag(after) == Bag(before) + multiset{(key, 0)}
            && (SomeUnverified(s.servers, after, io) <==>
                  SomeUnverified(s.servers, before, io) || !Verified(io.At(key), s.servers[key].weight, 0))
  {
    var before := OrdersBut(DrainOrders(s, name), todo);
    OrdersNext(DrainOrders(s, name), todo, key);
    WriteWeightsNext(s.servers, before, key, 0, io);
    BagNext(before, key, 0);
    UnverifiedNext(s.servers, before, key, 0, io);
  }

  lemma NoneDone(records: Records, outcomes: map<Key, Option<DrainWeight>>, orders: map<Key, int>, servers: Servers,
        seen: Servers, io: IO)
    requires outcomes.Keys == records.Keys && orders.Keys <= records.Keys
    ensures RecordsPartly(records, outcomes, records.Keys) == records
    ensures OrdersBut(orders, records.Keys) == map[] && Bag(map[]) == multiset{}
    ensures WriteWeights(servers, map[], io) == servers && !SomeUnverified(seen, map[], io)
  {
  }

  lemma AllDone(s: Sys, name: Name, io: IO)
    requires name in s.weights
    ensures RecordsPartly(s.weights[name], Outcomes(s, name, io), {}) == KeptRecords(s, name, io)
    ensures OrdersBut(OrdersOf(s, name), {}) == OrdersOf(s, name)
  {
  }

  lemma RecordsNext(records: Records, outcomes: map<Key, Option<DrainWeight>>, todo: set<Key>, key: Key)
    requires outcomes.Keys == records.Keys && key in todo && key in records
    ensures Lookup(RecordsPartly(records, outcomes, todo), key) == Some(records[key])
    ensures RecordsPartly(records, outcomes, todo - {key}) ==
            Put(RecordsPartly(records, outcomes, todo), key, outcomes[key])
  {
  }

  lemma OrdersNext(orders: map<Key, int>, todo: set<Key>, key: Key)
    requires key in todo
    ensures key !in OrdersBut(orders, todo)
    ensures OrdersBut(orders, todo - {key}) ==
            if key in orders then OrdersBut(orders, todo)[key := orders[key]] else OrdersBut(orders, todo)
  {
  }

  /** What handling one more key changes in the four accounts of a reconcile. */
  lemma NextKey(s: Sys, name: Name, todo: set<Key>, key: Key, servers: Servers, io: IO)
    requires name in s.weights && key in todo && key in s.weights[name]
    requires Lookup(servers, key) == Lookup(s.servers, key)
    ensures var records, outcomes := s.weights[name], Outcomes(s, name, io);
            && Lookup(RecordsPartly(records, outcomes, todo), key) == Some(s.weights[name][key])
            && RecordsPartly(records, outcomes, todo - {key}) ==
                 Put(RecordsPartly(records, outcomes, todo), key, AfterKey(s, name, key, io))
    ensures var r, orders := DecisionFor(s, name, key), OrdersOf(s, name);
            var before, after := OrdersBut(orders, todo), OrdersBut(orders, todo - {key});
            && Lookup(WriteWeights(servers, before, io), key) == Lookup(s.servers, key)
            && WriteWeights(servers, after, io) == Commanded(WriteWeights(servers, before, io), r, key, io.At(key))
            && Bag(after) == Bag(before) + CommandsOf(r, key)
            && (SomeUnverified(s.servers, after, io) <==>
                  || SomeUnverified(s.servers, before, io)
                  || (r.Order? && !Verified(io.At(key), s.servers[key].weight, r.target)))
  {
    var r, before := DecisionFor(s, name, key), OrdersBut(OrdersOf(s, name), todo);
    RecordsNext(s.weights[name], Outcomes(s, name, io), todo, key);
    OrdersNext(OrdersOf(s, name), todo, key);
    if r.Order? {
      assert key in servers && servers[key] == s.servers[key];
      WriteWeightsNext(servers, before, key, r.target, io);
      BagNext(before, key, r.target);
      UnverifiedNext(s.servers, before, key, r.target, io);
    }
  }

  // ---------------------------------------------------------------------------------------
  // Provider
  // ---------------------------------------------------------------------------------------

  class Provider {
    var recoveryBlocked: bool
    const dm: DrainMgr

    constructor (dm: DrainMgr)
      ensures !recoveryBlocked && this.dm == dm
    {
      recoveryBlocked := false;
      this.dm := dm;
    }

    /** Everything the controller and HAProxy know. */
    ghost function View(): Sys
      reads this, dm, dm.haproxy
    {
      dm.View(recoveryBlocked)
    }

    /** reconcileDrains; false if it returns an error. */
    method ReconcileDrains(io: IO) returns (ok: bool)
      requires WellFiled(View())
      modifies dm`weights, dm.haproxy`servers, dm.haproxy`commands
      ensures View() == Reconcile(old(View()), io)
      ensures dm.haproxy.commands == old(dm.haproxy.commands) + Bag(ReconcileOrders(old(View()), io))
      ensures ok <==> !ReconcileFails(old(View()), io)
    {
      ghost var s := Sys(dm.weights, dm.desired, dm.drainList, recoveryBlocked, dm.haproxy.pid, dm.haproxy.servers);
      if recoveryBlocked || |dm.weights| == 0 || dm.desired == None {
        return true;
      }
      if !io.pidOk {
        return false;
      }
      var pid := dm.haproxy.pid;
      var states := dm.haproxy.ReadServerStates(io.readOk);
      if states.Err? {
        return false;
      }
      ok := dm.ReconcileNames(pid, states.value, io, s);
    }

    /** One turn of the timer loop in Run. */
    method Tick(io: IO) returns (ok: bool)
      requires WellFiled(View())
      modifies dm`weights, dm.haproxy`servers, dm.haproxy`commands
      ensures View() == Step(old(View()), DrainModel.Tick(io))
      ensures dm.haproxy.commands == old(dm.haproxy.commands) + Bag(Orders(old(View()), DrainModel.Tick(io)))
      ensures ok <==> !ReconcileFails(old(View()), io)
    {
      ok := ReconcileDrains(io);
    }

    /** DrainEndpoint; true if the caller has to wait for the drain. */
    method DrainEndpoint(name: Name, io: IO, current: Result<int>, older: Result<bool>) returns (waiting: bool)
      requires WellFiled(View())
      modifies dm`weights, dm`drainList, dm.haproxy`servers, dm.haproxy`commands
      ensures var e := Drained(name, io, DrainWaiting.StatsOf(current, older));
              && View() == Step(old(View()), e)
              && dm.haproxy.commands == old(dm.haproxy.commands) + Bag(Orders(old(View()), e))
      ensures waiting <==> io.pidOk && name in View().drainList
    {
      if !io.pidOk {
        return false;
      }
      waiting := dm.AddEndpointForDrain(name, dm.haproxy.pid, io, current, older, View());
    }

    /** IsEndpointDrained. */
    method IsEndpointDrained(name: Name, probe: DrainWaiting.Probe) returns (drained: bool)
      requires WellFiled(View())
      ensures drained <==> DrainWaiting.IsDrained(Lookup(View().drainList, name), View().pid, probe)
    {
      var inDrainList, pid := dm.IsEndpointUpForDrain(name);
      if inDrainList {
        if !probe.pidOk {
          return false;
        }
        var currentPid := dm.haproxy.pid;
        if pid != currentPid {
          if pid != "" {
            var pidInt := Text.Atoi(pid);
            if pidInt.Some? {
              var alive := if pidInt.value < 1 then Err else probe.alive;
              if alive.Ok? && !alive.value {
                return true;
              }
            }
          } else {
            if probe.current.Err? {
              return false;
            }
            if probe.older.Err? {
              return false;
            }
            if !probe.older.value && probe.current.value == 0 {
              return true;
            }
          }
        } else {
          if probe.current.Err? {
            return false;
          }
          if probe.current.value == 0 {
            return true;
          }
        }
      }
      return false;
    }

    /** RemoveEndpointFromDrain. */
    method RemoveEndpointFromDrain(name: Name)
      requires WellFiled(View())
      modifies dm`drainList
      ensures View() == Step(old(View()), Removed(name))
    {
      if name != "" {
        dm.RemoveEndpointFromDrain(name);
      }
    }

    /** The reload command: it may replace the process whether or not it succeeds. */
    method RunReload(reload: Reload) returns (ok: bool)
      requires !reload.NotReached?
      modifies dm.haproxy`pid, dm.haproxy`servers
      ensures View() == Replace(old(View()), reload.process)
      ensures ok <==> reload.Succeeded?
    {
      if reload.process.Some? {
        dm.haproxy.pid, dm.haproxy.servers := reload.process.value.pid, reload.process.value.servers;
      }
      ok := reload.Succeeded?;
    }

    /** applyHaproxyConfig: recovery stays blocked until the new configuration runs. */
    method ApplyHaproxyConfig(config: LoadBalancerConfig, reload: Reload, io: IO) returns (ok: bool)
      requires WellFiled(View()) && FiledEvent(ApplyConfig(Desired.DesiredOf(config.frontends), reload, io))
      modifies this, dm`weights, dm`desired, dm.haproxy
      ensures View() == Step(old(View()), ApplyConfig(Desired.DesiredOf(config.frontends), reload, io))
      ensures dm.haproxy.commands == old(dm.haproxy.commands) +
              Bag(Orders(old(View()), ApplyConfig(Desired.DesiredOf(config.frontends), reload, io)))
      ensures ok <==>
              && reload.Succeeded?
              && !ReconcileFails(Applied(old(View()), Desired.DesiredOf(config.frontends), reload), io)
    {
      recoveryBlocked := true;
      if reload.NotReached? {
        return false;  // certificates or configuration could not be written
      }
      ok := RunReload(reload);
      if !ok {
        return;
      }
      dm.SetDesired(config.frontends);
      recoveryBlocked := false;
      assert View() == Applied(old(View()), Desired.DesiredOf(config.frontends), reload);
      ok := ReconcileDrains(io);
    }
  }

  lemma NoNameDone(s: Sys, io: IO)
    ensures WeightsPartly(s.weights, KeptWeights(s, io), s.weights.Keys) == s.weights
    ensures SentPartly(ReconcileOrders(s, io), s.weights.Keys) == map[] && Bag(map[]) == multiset{}
    ensures WriteWeights(s.servers, map[], io) == s.servers && !SomeUnverified(s.servers, map[], io)
  {
    hide KeptRecords, NameStays, DecisionFor, NameOf, WeightAfter, Verified;
  }

  lemma AllNamesDone(s: Sys, io: IO)
    ensures WeightsPartly(s.weights, KeptWeights(s, io), {}) == KeptWeights(s, io)
    ensures SentPartly(ReconcileOrders(s, io), {}) == ReconcileOrders(s, io)
  {
    hide OrderedAt, NameOf, DecisionFor;
    assert KeptWeights(s, io).Keys <= s.weights.Keys;
  }

  lemma NameUntouched(s: Sys, io: IO, todo: set<Name>, name: Name)
    requires WellFiled(s) && name in todo && name in s.weights
    ensures Lookup(WeightsPartly(s.weights, KeptWeights(s, io), todo), name) == Some(s.weights[name])
    ensures forall k | k in s.weights[name] ::
              Lookup(WriteWeights(s.servers, SentPartly(ReconcileOrders(s, io), todo), io), k) == Lookup(s.servers, k)
  {
    forall k | k in s.weights[name] ensures k !in SentPartly(ReconcileOrders(s, io), todo) {
      assert NameOf(k) == name;
    }
  }

  /** What handling one more name changes in the four accounts of a reconcile. */
  lemma NextName(s: Sys, io: IO, todo: set<Name>, name: Name)
    requires WellFiled(s) && ReconcileRuns(s) && io.pidOk && io.readOk && name in todo && name in s.weights
    ensures var kept := KeptWeights(s, io);
            WeightsPartly(s.weights, kept, todo - {name}) ==
                 if NameStays(s, name, io) then WeightsPartly(s.weights, kept, todo)[name := KeptRecords(s, name, io)]
                 else WeightsPartly(s.weights, kept, todo) - {name}
    ensures var orders := ReconcileOrders(s, io);
            var sent, sent' := SentPartly(orders, todo), SentPartly(orders, todo - {name});
            && WriteWeights(s.servers, sent', io) ==
                 WriteWeights(WriteWeights(s.servers, sent, io), OrdersOf(s, name), io)
            && Bag(sent') == Bag(sent) + Bag(OrdersOf(s, name))
            && (SomeUnverified(s.servers, sent', io) <==>
                  SomeUnverified(s.servers, sent, io) || SomeUnverified(s.servers, OrdersOf(s, name), io))
  {
    var orders, ofName := ReconcileOrders(s, io), OrdersOf(s, name);
    WeightsNext(s.weights, KeptWeights(s, io), todo, name);
    forall key ensures Lookup(ofName, key) == if NameOf(key) == name then Lookup(orders, key) else None {
      OrdersOfName(s, io, name, key);
    }
    SentNext(orders, ofName, todo, name);
    WriteWeightsUnion(s.servers, SentPartly(orders, todo), ofName, io);
    BagUnion(SentPartly(orders, todo), ofName);
    UnverifiedUnion(s.servers, SentPartly(orders, todo), ofName, io);
  }
}
