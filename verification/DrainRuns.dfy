/**
 Theorems over whole runs of the drain and weight recovery protocol. Each is an invariant of
 one key, carried through any sequence of steps by `StepIsPointwise`.
 */
module DrainRuns {
  import opened Prelude
  import opened DrainModel

  // ---------------------------------------------------------------------------------------
  // What the environment may do
  // ---------------------------------------------------------------------------------------

  /** The server of a process that runs `config`. */
  predicate Matches(config: Option<DesiredEndpoint>, server: Option<ServerState>) {
    server.Some? ==>
      && config.Some?
      && server.value.initialWeight == config.value.weight
      && (config.value.disabled ==> OperatorAdmin(server.value.admin))
  }

  /** The server as a new process starts it from `config`. */
  predicate Initialised(config: Option<DesiredEndpoint>, server: Option<ServerState>) {
    && Matches(config, server)
    && (server.Some? ==> server.value.weight == server.value.initialWeight)
  }

  /** The configuration keeps the endpoint present, enabled and at a positive weight. */
  predicate KeepsServing(config: Option<DesiredEndpoint>) {
    config.Some? && !config.value.disabled && config.value.weight > 0
  }

  predicate ValidConfig(config: Option<DesiredEndpoint>) {
    config.Some? ==> 0 <= config.value.weight <= 256
  }

  /** Health checks and DNS failures: neither a weight nor an operator's admin bit changes. */
  predicate OnlyHealth(before: Option<ServerState>, after: Option<ServerState>) {
    if before.Some? && after.Some? then
      && after.value == before.value.(admin := after.value.admin, operational := after.value.operational)
      && OperatorAdmin(after.value.admin) == OperatorAdmin(before.value.admin)
    else before == after
  }

  /** No operator action; a new process starts from the applied configuration; a reload that
      the script skips either finds the process on that configuration already or leaves the
      endpoint serving. */
  predicate LawfulAt(v: KeyState, e: KeyEvent) {
    match e
    case KeyApply(config, KeyFailed(Some(p)), _) => ValidConfig(config) && Initialised(config, p.server)
    case KeyApply(config, KeySucceeded(Some(p)), _) => ValidConfig(config) && Initialised(config, p.server)
    case KeyApply(config, KeySucceeded(None), _) =>
      ValidConfig(config) && (Matches(config, v.server) || KeepsServing(config))
    case KeyRuntime(server) => OnlyHealth(v.server, server)
    case _ => true
  }

  /** As far as `key` can see. Other keys may be touched in any way. */
  predicate Lawful(s: Sys, e: Event, key: Key) {
    FiledEvent(e) && LawfulAt(At(s, key), EventAt(s, e, key))
  }

  /** Every step of the run looks like `allowed` from `key`. */
  ghost predicate Along(s: Sys, es: seq<Event>, key: Key, allowed: (KeyState, KeyEvent) -> bool) {
    forall i :: 0 <= i < |es| ==> allowed(At(Run(s, es[..i]), key), EventAt(Run(s, es[..i]), es[i], key))
  }

  predicate FiledRun(es: seq<Event>) {
    forall i :: 0 <= i < |es| ==> FiledEvent(es[i])
  }

  ghost predicate LawfulRun(s: Sys, es: seq<Event>, key: Key) {
    FiledRun(es) && Along(s, es, key, LawfulAt)
  }

  /** The state in which the controller starts. */
  predicate Start(s: Sys) {
    && s.weights == map[] && s.desired == None && s.drainList == map[] && !s.blocked
    && forall k | k in s.servers ::
         && s.servers[k].name == NameOf(k)
         && 0 <= s.servers[k].initialWeight == s.servers[k].weight
  }

  lemma RunKeepsFiled(s: Sys, es: seq<Event>)
    requires WellFiled(s) && FiledRun(es)
    ensures WellFiled(Run(s, es))
  {
    if es != [] {
      RunKeepsFiled(s, es[..|es| - 1]);
      StepIsPointwise(Run(s, es[..|es| - 1]), es[|es| - 1], "");
    }
  }

  lemma RunStepAt(s: Sys, es: seq<Event>, i: nat, key: Key)
    requires WellFiled(s) && FiledRun(es) && i < |es|
    ensures At(Run(s, es[..i + 1]), key) ==
            StepAt(At(Run(s, es[..i]), key), EventAt(Run(s, es[..i]), es[i], key))
    ensures Lookup(Orders(Run(s, es[..i]), es[i]), key) ==
            OrderAt(At(Run(s, es[..i]), key), EventAt(Run(s, es[..i]), es[i], key))
  {
    RunKeepsFiled(s, es[..i]);
    assert es[..i + 1][..i] == es[..i];
    StepIsPointwise(Run(s, es[..i]), es[i], key);
  }

  lemma PrefixAlong(s: Sys, es: seq<Event>, n: nat, key: Key, allowed: (KeyState, KeyEvent) -> bool)
    requires n <= |es| && FiledRun(es) && Along(s, es, key, allowed)
    ensures FiledRun(es[..n]) && Along(s, es[..n], key, allowed)
  {
    forall i | 0 <= i < n
      ensures allowed(At(Run(s, es[..n][..i]), key), EventAt(Run(s, es[..n][..i]), es[..n][i], key))
    {
      assert es[..n][..i] == es[..i] && es[..n][i] == es[i];
    }
  }

  /** A predicate of one key that every allowed step keeps holds along the whole run. */
  lemma {:induction false} InvariantHolds(s: Sys, es: seq<Event>, key: Key,
        allowed: (KeyState, KeyEvent) -> bool, inv: KeyState -> bool)
    requires WellFiled(s) && FiledRun(es) && Along(s, es, key, allowed) && inv(At(s, key))
    requires forall v, e :: inv(v) && allowed(v, e) ==> inv(StepAt(v, e))
    ensures inv(At(Run(s, es), key))
  {
    if es != [] {
      var n := |es| - 1;
      PrefixAlong(s, es, n, key, allowed);
      InvariantHolds(s, es[..n], key, allowed, inv);
      RunStepAt(s, es, n, key);
      assert es[..n + 1] == es;
    }
  }

  // ---------------------------------------------------------------------------------------
  // No orphan zero
  // ---------------------------------------------------------------------------------------

  /** A zero runtime weight is the process's own configured zero, or an owned one. */
  predicate ZeroExplained(v: KeyState) {
    v.server.Some? && v.server.value.weight == 0 ==>
      v.server.value.initialWeight == 0 || (v.owned.Some? && v.owned.value.pid == v.pid && v.owned.value.weight > 0)
  }

  predicate Explained(v: KeyState) {
    && ZeroExplained(v)
    && (v.owned.Some? ==> v.owned.value.weight > 0)
    && (v.server.Some? ==> 0 <= v.server.value.weight && 0 <= v.server.value.initialWeight)
    && (v.server.Some? && OperatorAdmin(v.server.value.admin) ==> v.server.value.weight == v.server.value.initialWeight)
    && ValidConfig(v.desired)
    && (v.desired.Some? ==> v.known)
    && (!v.blocked && v.known ==> Matches(v.desired, v.server) || KeepsServing(v.desired))
  }

  lemma ReconcileKeepsExplained(v: KeyState, io: KeyIO)
    requires Explained(v)
    ensures Explained(ReconcileAt(v, io))
  {
  }

  lemma AppliedKeepsExplained(v: KeyState, config: Option<DesiredEndpoint>, reload: KeyReload, io: KeyIO)
    requires Explained(v) && LawfulAt(v, KeyApply(config, reload, io))
    ensures Explained(AppliedAt(v, config, reload))
  {
    hide OperatorAdmin;
    match reload
    case KeyNotReached =>
    case KeyFailed(p) =>
      if p.Some? {
        assert Initialised(config, p.value.server);
      }
    case KeySucceeded(p) =>
      if p.Some? {
        assert Initialised(config, p.value.server);
      }
  }

  lemma StepKeepsExplained(v: KeyState, e: KeyEvent)
    requires Explained(v) && LawfulAt(v, e)
    ensures Explained(StepAt(v, e))
  {
    hide ReconcileAt, AppliedAt, Verified;
    if e.KeyApply? {
      AppliedKeepsExplained(v, e.config, e.reload, e.io);
      ReconcileKeepsExplained(AppliedAt(v, e.config, e.reload), e.io);
    } else if e.KeyTick? {
      ReconcileKeepsExplained(v, e.io);
    }
  }

  lemma RunIsExplained(s: Sys, es: seq<Event>, key: Key)
    requires Start(s) && LawfulRun(s, es, key)
    ensures Explained(At(Run(s, es), key))
  {
    assert Explained(At(s, key)) by {
      assert key in s.servers ==> s.servers[key].weight == s.servers[key].initialWeight;
    }
    forall v, e | Explained(v) && LawfulAt(v, e) ensures Explained(StepAt(v, e)) {
      StepKeepsExplained(v, e);
    }
    InvariantHolds(s, es, key, LawfulAt, Explained);
  }

  /** In every lawful run, a server whose runtime weight is zero is either configured with zero
      in the running process, or its zero is owned: recorded for this very process with a
      positive weight to restore. */
  lemma NoOrphanZero(s: Sys, es: seq<Event>, key: Key)
    requires Start(s) && LawfulRun(s, es, key)
    ensures
      var t := Run(s, es);
      key in t.servers && t.servers[key].weight == 0 && t.servers[key].initialWeight != 0 ==>
        && NameOf(key) in t.weights && key in t.weights[NameOf(key)]
        && t.weights[NameOf(key)][key].pid == t.pid
        && t.weights[NameOf(key)][key].weight > 0
  {
    RunIsExplained(s, es, key);
  }

  predicate ServingAt(v: KeyState, e: KeyEvent) {
    && LawfulAt(v, e)
    && (e.KeyApply? ==> KeepsServing(e.config))
  }

  predicate ServesPositive(v: KeyState) {
    v.server.Some? ==> v.server.value.initialWeight > 0
  }

  lemma StepServesPositive(v: KeyState, e: KeyEvent)
    requires ServesPositive(v) && ServingAt(v, e)
    ensures ServesPositive(StepAt(v, e))
  {
    hide OperatorAdmin, WeightAfter, Verified, Decide;
  }

  lemma StartServesPositive(s: Sys, key: Key)
    requires Start(s) && (key in s.servers ==> s.servers[key].initialWeight > 0)
    ensures WellFiled(s) && ServesPositive(At(s, key))
  {
  }

  /** When moreover every configuration keeps the endpoint present, enabled and positive, every
      zero is owned. */
  lemma NoOrphanZeroWhileServing(s: Sys, es: seq<Event>, key: Key)
    requires Start(s) && LawfulRun(s, es, key) && Along(s, es, key, ServingAt)
    requires key in s.servers ==> s.servers[key].initialWeight > 0
    ensures
      var v := At(Run(s, es), key);
      v.server.Some? && v.server.value.weight == 0 ==>
        v.owned.Some? && v.owned.value.pid == v.pid && v.owned.value.weight > 0
  {
    hide OperatorAdmin, NameOf, WeightAfter, Verified, Run;
    RunIsExplained(s, es, key);
    StartServesPositive(s, key);
    forall v, e | ServesPositive(v) && ServingAt(v, e) ensures ServesPositive(StepAt(v, e)) {
      StepServesPositive(v, e);
    }
    InvariantHolds(s, es, key, ServingAt, ServesPositive);
  }

  /** The side condition on skipped reloads is needed. While a drain is in progress or complete,
      a reload that the script skips although the process runs another configuration leaves the
      owned zero explained exactly when the new configuration does not take the server over. */
  lemma SkippedReloadKeepsExplanation(v: KeyState, config: Option<DesiredEndpoint>, io: KeyIO)
    requires Explained(v) && v.server.Some? && v.server.value.weight == 0 && v.server.value.initialWeight != 0
    requires ValidConfig(config)
    ensures ZeroExplained(StepAt(v, KeyApply(config, KeySucceeded(None), io))) <==>
            !io.answered || !TakenOver(config, v.server)
  {
  }

  // ---------------------------------------------------------------------------------------
  // A run that ends with an orphan zero
  // ---------------------------------------------------------------------------------------

  const EXAMPLE_KEY := "b/a"
  const EXAMPLE_IO := IO(true, true, map[])

  function ExampleServers(weight: int): Servers {
    map[EXAMPLE_KEY := ServerState("a", weight, 7, 0, 2)]
  }

  function ExampleConfig(weight: int): map<Key, DesiredEndpoint> {
    map[EXAMPLE_KEY := DesiredEndpoint(weight, false, false)]
  }

  function ExampleApply(weight: int, reload: Reload): Event {
    ApplyConfig(ExampleConfig(weight), reload, EXAMPLE_IO)
  }

  const EXAMPLE_START := Sys(map[], None, map[], false, "1", ExampleServers(7))
  const EXAMPLE_FIRST := ExampleApply(7, Succeeded(Some(Process("2", ExampleServers(7)))))

  lemma ExampleName()
    ensures NameOf(EXAMPLE_KEY) == "a"
  {
    assert "b/a"[1..] == "/a" && "/a"[1..] == "a";
  }

  lemma ExampleIsFiled()
    ensures Start(EXAMPLE_START) && WellFiled(EXAMPLE_START) && FiledEvent(EXAMPLE_FIRST)
    ensures LawfulAt(At(EXAMPLE_START, EXAMPLE_KEY), EventAt(EXAMPLE_START, EXAMPLE_FIRST, EXAMPLE_KEY))
  {
    ExampleName();
  }

  /** The key once the first configuration runs. */
  const EXAMPLE_SERVING :=
    KeyState(None, Some(ServerState("a", 7, 7, 0, 2)), true, Some(DesiredEndpoint(7, false, false)), false, false, "2")

  lemma ExampleServes(es: seq<Event>)
    requires es != [] && FiledRun(es) && es[0] == EXAMPLE_FIRST
    ensures At(Run(EXAMPLE_START, es[..1]), EXAMPLE_KEY) == EXAMPLE_SERVING
  {
    hide NameOf, Run;
    ExampleName();
    ExampleIsFiled();
    EmptyRun(EXAMPLE_START);
    assert es[..0] == [];
    RunStepAt(EXAMPLE_START, es, 0, EXAMPLE_KEY);
  }

  lemma EmptyRun(s: Sys)
    ensures Run(s, []) == s
  {
  }

  /** A drain request for the example, before it is listed. */
  lemma ExampleDrainAt(s: Sys, io: IO, stats: Stats)
    requires !At(s, EXAMPLE_KEY).draining && io.pidOk && io.readOk && stats.Sessions?
    ensures EventAt(s, Drained("a", io, stats), EXAMPLE_KEY) ==
            KeyDrained(io.At(EXAMPLE_KEY), Listed(s, "a", io, stats))
  {
    ExampleName();
  }

  /** The four steps as the key sees them, from the first configuration on. */
  lemma OrphanSteps(listed: bool)
    ensures var zero, io := Some(DesiredEndpoint(0, false, false)), KeyIO(true, NO_FAULT);
            var drained := StepAt(EXAMPLE_SERVING, KeyDrained(NO_FAULT, listed));
            var failed := StepAt(drained, KeyApply(zero, KeyFailed(None), io));
            var end := StepAt(failed, KeyApply(zero, KeySucceeded(None), io));
            end.server == Some(ServerState("a", 0, 7, 0, 2)) && end.owned == None
  {
  }

  /** From the start: a configuration at weight 7, a drain, a configuration at weight 0 whose
      reload fails, and the same configuration again, whose reload is then skipped. */
  lemma SkippedReloadCanOrphanZero() returns (s: Sys, es: seq<Event>, key: Key)
    ensures Start(s) && |es| == 4 && FiledRun(es) && LawfulRun(s, es[..3], key)
    ensures es[2].ApplyConfig? && es[2].reload == Failed(None) && es[3] == es[2].(reload := Succeeded(None))
    ensures var v := At(Run(s, es), key);
            v.server.Some? && v.server.value.weight == 0 && v.server.value.initialWeight > 0 && v.owned == None
  {
    hide NameOf, Run, At, StepAt, OperatorAdmin;
    s, key := EXAMPLE_START, EXAMPLE_KEY;
    var stats := Sessions(false, false);
    es := [EXAMPLE_FIRST, Drained("a", EXAMPLE_IO, stats), ExampleApply(0, Failed(None)),
           ExampleApply(0, Succeeded(None))];
    ExampleIsFiled();
    ExampleServes(es);
    ExampleDrainAt(Run(s, es[..1]), EXAMPLE_IO, stats);
    forall i | 0 < i < 4 {
      RunStepAt(s, es, i, key);
    }
    OrphanSteps(Listed(Run(s, es[..1]), "a", EXAMPLE_IO, stats));
    assert es[..4] == es;
    EmptyRun(s);
    forall i | 0 <= i < 3
      ensures LawfulAt(At(Run(s, es[..3][..i]), key), EventAt(Run(s, es[..3][..i]), es[..3][i], key))
    {
      assert es[..3][..i] == es[..i] && es[..0] == [];
    }
  }
}
