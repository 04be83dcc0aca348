/**
 Who may change a weight: provenance of every command, failures, operator choices and stale
 desired state.
 */
module DrainAuthority {
  import opened Prelude
  import opened DrainModel
  import opened DrainRuns
  import opened DrainLifecycle

  // ---------------------------------------------------------------------------------------
  // Provenance of weight commands
  // ---------------------------------------------------------------------------------------

  /** Grounds for zeroing a key again during an active drain: a zero of this process that was
      never verified, or a process that has just started from the applied configuration. */
  predicate MayZero(v: KeyState)
    requires v.owned.Some? && v.desired.Some? && v.server.Some?
  {
    && v.draining && v.server.value.weight != 0
    && (if v.owned.value.pid == v.pid then v.owned.value.retry
        else v.server.value.weight == v.server.value.initialWeight == v.desired.value.weight)
  }

  /** Grounds for raising a key to `w`: the drain is over, the server healthy, the container not
      stopping, `w` the saved or the edited weight, and the current weight either the zero of
      this very process or the start of a running process that follows a stopping one. */
  predicate MayRaise(v: KeyState, w: int)
    requires v.owned.Some? && v.desired.Some? && v.server.Some?
  {
    && !v.draining && !Stopping(v.desired.value) && v.server.value.operational == 2
    && w == RestoreWeight(v.owned.value, v.desired.value) && v.server.value.weight != w
    && ((v.owned.value.pid == v.pid && v.server.value.weight == 0)
        || RunningReload(v.owned.value, v.pid, v.desired.value, v.server.value))
  }

  /** Exactly when a reconcile sends a weight command, and which. */
  lemma ReconcileOrderIff(v: KeyState, io: KeyIO, w: int)
    ensures ReconcileOrderAt(v, io) == Some(w) <==>
            && Acts(v, io) && !TakenOver(v.desired, v.server) && v.server.value.admin == 0
            && ((w == 0 && MayZero(v)) || MayRaise(v, w))
  {
  }

  /** The record was once bound to a process that started at the stopping zero. */
  predicate BoundToStopping(v: KeyState) {
    && v.owned.Some? && v.owned.value.stoppingReload && v.owned.value.pid == v.pid
    && v.server.Some? && v.server.value.weight == 0 && v.server.value.initialWeight == 0
    && !v.blocked && v.desired.Some? && Stopping(v.desired.value)
  }

  predicate SameSaved(a: Option<DrainWeight>, b: Option<DrainWeight>) {
    a.Some? && b.Some? && a.value.weight == b.value.weight && a.value.initialWeight == b.value.initialWeight
  }

  lemma ReconcileSetsFlag(v: KeyState, io: KeyIO)
    requires ReconcileAt(v, io).owned.Some? && ReconcileAt(v, io).owned.value.stoppingReload
    ensures || BoundToStopping(ReconcileAt(v, io))
            || (v.owned.Some? && v.owned.value.stoppingReload && SameSaved(v.owned, ReconcileAt(v, io).owned))
  {
    hide OperatorAdmin, WeightAfter, Verified;
  }

  lemma FlagIsSetByBinding(v: KeyState, e: KeyEvent)
    requires StepAt(v, e).owned.Some? && StepAt(v, e).owned.value.stoppingReload
    ensures || BoundToStopping(StepAt(v, e))
            || (v.owned.Some? && v.owned.value.stoppingReload && SameSaved(v.owned, StepAt(v, e).owned))
  {
    hide ReconcileAt, WeightAfter;
    if e.KeyTick? {
      ReconcileSetsFlag(v, e.io);
    } else if e.KeyApply? && e.reload.KeySucceeded? {
      ReconcileSetsFlag(AppliedAt(v, e.config, e.reload), e.io);
    }
  }

  lemma {:induction false} FlagHasWitness(s: Sys, es: seq<Event>, key: Key) returns (i: nat)
    requires WellFiled(s) && FiledRun(es) && OwnedAt(s, key) == None
    requires OwnedAt(Run(s, es), key).Some? && OwnedAt(Run(s, es), key).value.stoppingReload
    ensures i <= |es|
    ensures BoundToStopping(At(Run(s, es[..i]), key))
    ensures SameSaved(OwnedAt(Run(s, es[..i]), key), OwnedAt(Run(s, es), key))
  {
    if es == [] {
      assert false;
    }
    var n := |es| - 1;
    assert es[..n + 1] == es;
    RunStepAt(s, es, n, key);
    FlagIsSetByBinding(At(Run(s, es[..n]), key), EventAt(Run(s, es[..n]), es[n], key));
    if BoundToStopping(At(Run(s, es), key)) {
      i := |es|;
    } else {
      i := FlagHasWitness(s, es[..n], key);
      assert es[..n][..i] == es[..i];
    }
  }

  lemma DrainOrderGrounds(s: Sys, name: Name, io: IO, stats: Stats, key: Key)
    requires WellFiled(s) && key in Orders(s, Drained(name, io, stats))
    ensures Orders(s, Drained(name, io, stats))[key] == 0 && NameOf(key) == name
    ensures OwnedAt(Drain(s, name, io, stats), key).Some? && OwnedAt(Drain(s, name, io, stats), key).value.pid == s.pid
  {
    hide DrainOrders, Drain, NameOf;
    DrainIsPointwise(s, name, io, stats, key);
    assert Lookup(Orders(s, Drained(name, io, stats)), key).Some?;
  }

  /** No record saves a zero. */
  predicate SavesNonzero(v: KeyState) {
    v.owned.Some? ==> v.owned.value.weight != 0
  }

  predicate AnyStep(v: KeyState, e: KeyEvent) {
    true
  }

  lemma StepSavesNonzero(v: KeyState, e: KeyEvent)
    requires SavesNonzero(v)
    ensures SavesNonzero(StepAt(v, e))
  {
    hide OperatorAdmin, WeightAfter, Verified;
  }

  lemma RunSavesNonzero(s: Sys, es: seq<Event>, key: Key)
    requires WellFiled(s) && FiledRun(es) && OwnedAt(s, key) == None
    ensures SavesNonzero(At(Run(s, es), key))
  {
    forall v, e | SavesNonzero(v) && AnyStep(v, e) ensures SavesNonzero(StepAt(v, e)) {
      StepSavesNonzero(v, e);
    }
    InvariantHolds(s, es, key, AnyStep, SavesNonzero);
  }

  // --- Ranges ------------------------------------------------------------------------------

  predicate RuntimeInRange(server: Option<ServerState>) {
    server.Some? ==> server.value.weight >= 0
  }

  predicate ProcessInRange(process: Option<KeyProcess>) {
    process.Some? ==> RuntimeInRange(process.value.server)
  }

  /** Weights that come from outside are in range: configured ones and those HAProxy reports. Who
      sets them, and whether a process starts from the applied configuration, does not matter. */
  predicate InRangeStep(v: KeyState, e: KeyEvent) {
    match e
    case KeyApply(_, KeyFailed(process), _) => ProcessInRange(process)
    case KeyApply(config, KeySucceeded(process), _) => ValidConfig(config) && ProcessInRange(process)
    case KeyRuntime(server) => RuntimeInRange(server)
    case _ => true
  }

  predicate InRange(v: KeyState) {
    && (v.owned.Some? ==> v.owned.value.weight > 0)
    && RuntimeInRange(v.server) && ValidConfig(v.desired)
  }

  lemma ReconcileKeepsRange(v: KeyState, io: KeyIO)
    requires InRange(v)
    ensures InRange(ReconcileAt(v, io))
  {
    hide OperatorAdmin;
  }

  lemma AppliedKeepsRange(v: KeyState, e: KeyEvent)
    requires InRange(v) && InRangeStep(v, e) && e.KeyApply?
    ensures InRange(AppliedAt(v, e.config, e.reload))
  {
  }

  lemma StepKeepsRange(v: KeyState, e: KeyEvent)
    requires InRange(v) && InRangeStep(v, e)
    ensures InRange(StepAt(v, e))
  {
    hide ReconcileAt, AppliedAt;
    if e.KeyApply? {
      AppliedKeepsRange(v, e);
      ReconcileKeepsRange(AppliedAt(v, e.config, e.reload), e.io);
    } else if e.KeyTick? {
      ReconcileKeepsRange(v, e.io);
    }
  }

  /** All weights from outside are in range, in the run and in the step after it. */
  ghost predicate RunInRange(s: Sys, es: seq<Event>, e: Event, key: Key) {
    && InRange(At(s, key)) && Along(s, es, key, InRangeStep)
    && InRangeStep(At(Run(s, es), key), EventAt(Run(s, es), e, key))
  }

  lemma RunKeepsRange(s: Sys, es: seq<Event>, e: Event, key: Key)
    requires WellFiled(s) && FiledRun(es) && RunInRange(s, es, e, key)
    ensures InRange(At(Run(s, es), key))
  {
    forall v, e | InRange(v) && InRangeStep(v, e) ensures InRange(StepAt(v, e)) {
      StepKeepsRange(v, e);
    }
    InvariantHolds(s, es, key, InRangeStep, InRange);
  }

  // --- Grounds -----------------------------------------------------------------------------

  lemma ReconcileOrderGrounds(t: Sys, io: IO, key: Key)
    requires WellFiled(t) && key in ReconcileOrders(t, io) && SavesNonzero(At(t, key))
    ensures OwnedAt(t, key).Some? && DesiredAt(t, key).Some?
    ensures NameOf(key) in t.drainList <==> ReconcileOrders(t, io)[key] == 0
    ensures var w, rec := ReconcileOrders(t, io)[key], OwnedAt(t, key).value;
            w != 0 ==>
              && w == RestoreWeight(rec, DesiredAt(t, key).value)
              && (rec.pid == t.pid || rec.stoppingReload)
              && (InRange(At(t, key)) ==> w > 0)
  {
    hide ReconcileOrders, NameOf, Reconcile, ReconcileAt, ReconcileOrderAt;
    ReconcileIsPointwise(t, io, key);
    assert Lookup(ReconcileOrders(t, io), key).Some?;
    ReconcileOrderIff(At(t, key), KeyIOAt(io, key), ReconcileOrders(t, io)[key]);
  }

  /** A step that ends in a reconcile: a timer, or an apply whose reload succeeds. */
  predicate Reconciles(e: Event) {
    e.Tick? || (e.ApplyConfig? && e.reload.Succeeded?)
  }

  /** The state in which its reconcile starts. */
  function FoundByReconcile(s: Sys, e: Event): Sys
    requires Reconciles(e)
  {
    if e.ApplyConfig? then Applied(s, e.config, e.reload) else s
  }

  /** Only drains and reconciles send commands. */
  lemma OrdersAreReconciled(s: Sys, e: Event)
    requires !e.Drained? && Orders(s, e) != map[]
    ensures Reconciles(e) && Orders(s, e) == ReconcileOrders(FoundByReconcile(s, e), e.io)
  {
  }

  /** What the reconcile of a step finds: the record of before, and ranges if they held. */
  lemma FoundKeepsGrounds(s: Sys, e: Event, key: Key)
    requires WellFiled(s) && FiledEvent(e) && Reconciles(e) && SavesNonzero(At(s, key))
    ensures WellFiled(FoundByReconcile(s, e)) && SavesNonzero(At(FoundByReconcile(s, e), key))
    ensures OwnedAt(FoundByReconcile(s, e), key) == OwnedAt(s, key)
    ensures InRange(At(s, key)) && InRangeStep(At(s, key), EventAt(s, e, key)) ==>
              InRange(At(FoundByReconcile(s, e), key))
  {
    hide NameOf, WellFiled, Applied;
    if e.ApplyConfig? {
      ApplyIsPointwise(s, e.config, e.reload, e.io, key);
      if InRange(At(s, key)) && InRangeStep(At(s, key), EventAt(s, e, key)) {
        AppliedKeepsRange(At(s, key), EventAt(s, e, key));
      }
    }
  }

  /** In every run each weight command has grounds, whatever operators, reloads and failures do. A
      drain zeroes a key it records in the same step. A reconcile writes only keys it owns: zero to
      names still in drainList, and to other names the saved weight or, if the configuration was
      edited, the configured one, never zero, either in the process that the record names or after
      the record was bound to a process that the stopping configuration had started. If the weights
      from outside are in range, what it raises to is positive. */
  lemma EveryOrderHasGrounds(s: Sys, es: seq<Event>, e: Event, key: Key) returns (i: nat)
    requires WellFiled(s) && OwnedAt(s, key) == None && FiledRun(es) && FiledEvent(e)
    requires key in Orders(Run(s, es), e)
    ensures i <= |es|
    ensures e.Drained? ==>
              && Orders(Run(s, es), e)[key] == 0 && NameOf(key) == e.name
              && OwnedAt(Step(Run(s, es), e), key).Some?
              && OwnedAt(Step(Run(s, es), e), key).value.pid == Run(s, es).pid
    ensures !e.Drained? ==>
              && Reconciles(e)
              && var t, w := FoundByReconcile(Run(s, es), e), Orders(Run(s, es), e)[key];
                 && OwnedAt(t, key).Some? && DesiredAt(t, key).Some?
                 && (NameOf(key) in t.drainList <==> w == 0)
                 && (w != 0 ==>
                       && w == RestoreWeight(OwnedAt(t, key).value, DesiredAt(t, key).value)
                       && (RunInRange(s, es, e, key) ==> w > 0)
                       && (OwnedAt(t, key).value.pid == t.pid
                           || (BoundToStopping(At(Run(s, es[..i]), key))
                               && SameSaved(OwnedAt(Run(s, es[..i]), key), OwnedAt(t, key)))))
  {
    hide FoundByReconcile, ReconcileOrders, DrainOrders, Drain, NameOf, Run, InRange, InRangeStep, Applied;
    i := 0;
    var r := Run(s, es);
    RunKeepsFiled(s, es);
    RunSavesNonzero(s, es, key);
    if e.Drained? {
      DrainOrderGrounds(r, e.name, e.io, e.stats, key);
    } else {
      OrdersAreReconciled(r, e);
      FoundKeepsGrounds(r, e, key);
      var t := FoundByReconcile(r, e);
      ReconcileOrderGrounds(t, e.io, key);
      if RunInRange(s, es, e, key) {
        RunKeepsRange(s, es, e, key);
      }
      if OwnedAt(t, key).value.stoppingReload {
        i := FlagHasWitness(s, es, key);
      }
    }
  }

  // ---------------------------------------------------------------------------------------
  // Failures
  // ---------------------------------------------------------------------------------------

  lemma UnverifiedKeepsRecordAt(v: KeyState, io: KeyIO)
    requires ReconcileOrderAt(v, io).Some? && !Verified(io.fault, WeightAt(v), ReconcileOrderAt(v, io).value)
    ensures SameSaved(v.owned, ReconcileAt(v, io).owned)
  {
  }

  /** A reconcile command that failed or could not be verified never loses the record nor the
      weight it saves. */
  lemma UnverifiedReconcileKeepsRecord(s: Sys, io: IO, key: Key)
    requires WellFiled(s) && key in ReconcileOrders(s, io)
    requires !Verified(io.At(key), s.servers[key].weight, ReconcileOrders(s, io)[key])
    ensures SameSaved(OwnedAt(s, key), OwnedAt(Reconcile(s, io), key))
  {
    ReconcileIsPointwise(s, io, key);
    UnverifiedKeepsRecordAt(At(s, key), KeyIOAt(io, key));
  }

  /** A drain, failed or not, leaves every key it commands recorded, and never drops a record or
      replaces a saved weight. */
  lemma DrainKeepsRecords(s: Sys, name: Name, io: IO, stats: Stats, key: Key)
    requires WellFiled(s)
    ensures OwnedAt(s, key).Some? ==> SameSaved(OwnedAt(s, key), OwnedAt(Drain(s, name, io, stats), key))
    ensures key in Orders(s, Drained(name, io, stats)) ==>
              && OwnedAt(Drain(s, name, io, stats), key).Some?
              && (OwnedAt(s, key) == None ==>
                   OwnedAt(Drain(s, name, io, stats), key).value.weight == s.servers[key].weight)
  {
    DrainIsPointwise(s, name, io, stats, key);
  }

  /** A drain that failed, followed by one clean reconcile of the same healthy process under the
      unchanged configuration, leaves no record; the weight is the one before the drain unless
      the zero took effect over a record that had saved another weight. */
  lemma FailedDrainRecovers(v: KeyState, fault: Fault, tick: KeyEvent)
    requires !v.blocked && v.known && !v.draining && KeepsServing(v.desired)
    requires Healthy(v) && v.server.value.weight > 0
    requires v.desired.value.weight ==
             if v.owned.Some? then v.owned.value.initialWeight else v.server.value.initialWeight
    requires v.owned.Some? ==> v.owned.value.weight > 0
    requires CleanTick(tick)
    ensures var end := StepAt(StepAt(v, KeyDrained(fault, false)), tick);
            && end.owned == None && end.server.Some?
            && (end.server.value.weight == v.server.value.weight <==>
                  v.owned.None? || !fault.effect || v.owned.value.weight == v.server.value.weight)
  {
  }

  /** The same for a whole state: the drain is a step of the controller that did not get the
      endpoint listed, and the reconcile is its next timer. */
  lemma FailedDrainIsUndone(s: Sys, name: Name, io: IO, stats: Stats, tick: IO, key: Key)
    requires WellFiled(s) && NameOf(key) == name && DrainProceeds(s, name, io, stats) && !Listed(s, name, io, stats)
    requires !s.blocked && KeepsServing(DesiredAt(s, key))
    requires Healthy(At(s, key)) && s.servers[key].weight > 0
    requires DesiredAt(s, key).value.weight ==
             if OwnedAt(s, key).Some? then OwnedAt(s, key).value.initialWeight else s.servers[key].initialWeight
    requires OwnedAt(s, key).Some? ==> OwnedAt(s, key).value.weight > 0
    requires KeyIOAt(tick, key) == KeyIO(true, NO_FAULT)
    ensures var end := Step(Step(s, Drained(name, io, stats)), Tick(tick));
            && OwnedAt(end, key) == None && key in end.servers
            && (end.servers[key].weight == s.servers[key].weight <==>
                  OwnedAt(s, key).None? || !io.At(key).effect || OwnedAt(s, key).value.weight == s.servers[key].weight)
  {
    hide Step, NameOf, Listed, WeightAfter, Verified, StepAt, OperatorAdmin;
    TwoStepsAt(s, Drained(name, io, stats), Tick(tick), key);
    FailedDrainRecovers(At(s, key), io.At(key), KeyTick(KeyIOAt(tick, key)));
  }

  /** Three steps after the first configuration and the tick, as the key sees them: a drain that
      fails without an effect, an operator's weight 9, a drain that fails after its effect. */
  lemma LostOverrideSteps()
    ensures var first := StepAt(EXAMPLE_SERVING, KeyDrained(Fault(false, true, true), false));
            var raised := StepAt(first, KeyRuntime(Some(ServerState("a", 9, 7, 0, 2))));
            var second := StepAt(raised, KeyDrained(Fault(true, true, true), false));
            var end := StepAt(second, KeyTick(KeyIO(true, NO_FAULT)));
            && !first.draining
            && raised == EXAMPLE_SERVING.(owned := Some(DrainWeight(7, 7, "2", false, false)),
                                          server := Some(ServerState("a", 9, 7, 0, 2)))
            && end.owned == None && end.server == Some(ServerState("a", 7, 7, 0, 2))
  {
  }

  function FailedDrain(fault: Fault): Event {
    Drained("a", IO(true, true, map[EXAMPLE_KEY := fault]), Sessions(true, false))
  }

  lemma FailedDrainAt(s: Sys, fault: Fault)
    requires !At(s, EXAMPLE_KEY).draining
    ensures EventAt(s, FailedDrain(fault), EXAMPLE_KEY) == KeyDrained(fault, false)
  {
    hide NameOf;
    ExampleName();
    ExampleDrainAt(s, FailedDrain(fault).io, FailedDrain(fault).stats);
  }

  lemma OverrideAndTickAt(s: Sys)
    ensures EventAt(s, Runtime(ExampleServers(9)), EXAMPLE_KEY) == KeyRuntime(Some(ServerState("a", 9, 7, 0, 2)))
    ensures EventAt(s, Tick(EXAMPLE_IO), EXAMPLE_KEY) == KeyTick(KeyIO(true, NO_FAULT))
    ensures FiledEvent(Runtime(ExampleServers(9)))
  {
    ExampleName();
  }

  /** A run from the start in which a failed drain loses the weight from before: a drain that
      fails without an effect leaves a record, an operator raises the weight, a second drain fails
      after its effect, and the next clean timer restores what the first drain saved. */
  lemma FailedDrainCanLoseAWeight() returns (s: Sys, es: seq<Event>, key: Key)
    ensures Start(s) && |es| == 5 && FiledRun(es)
    ensures es[3].Drained? && NameOf(key) == es[3].name && es[3].io.At(key).error
    ensures es[4] == Tick(EXAMPLE_IO) && KeyIOAt(EXAMPLE_IO, key) == KeyIO(true, NO_FAULT)
    ensures var before, end := At(Run(s, es[..3]), key), At(Run(s, es), key);
            && Healthy(before) && KeepsServing(before.desired) && !before.blocked && !before.draining
            && OwnedAt(Run(s, es), key) == None && end.server.Some?
            && end.server.value.weight != before.server.value.weight
  {
    hide NameOf, Run, StepAt, EventAt, OperatorAdmin, Start, WellFiled, ExampleServers, ExampleConfig;
    s, key := EXAMPLE_START, EXAMPLE_KEY;
    es := [EXAMPLE_FIRST, FailedDrain(Fault(false, true, true)), Runtime(ExampleServers(9)),
           FailedDrain(Fault(true, true, true)), Tick(EXAMPLE_IO)];
    ExampleName();
    ExampleIsFiled();
    OverrideAndTickAt(s);
    ExampleServes(es);
    LostOverrideSteps();
    FailedDrainAt(Run(s, es[..1]), Fault(false, true, true));
    RunStepAt(s, es, 1, key);
    OverrideAndTickAt(Run(s, es[..2]));
    RunStepAt(s, es, 2, key);
    FailedDrainAt(Run(s, es[..3]), Fault(true, true, true));
    RunStepAt(s, es, 3, key);
    OverrideAndTickAt(Run(s, es[..4]));
    RunStepAt(s, es, 4, key);
    assert es[..5] == es;
  }

  // ---------------------------------------------------------------------------------------
  // Operator choices win
  // ---------------------------------------------------------------------------------------

  /** Somebody else has set the weight during an active drain: it is nonzero after the verified zero
      of this process, or neither zero nor the initial one in another. */
  predicate WeightOverridden(v: KeyState)
    requires v.owned.Some? && v.server.Some?
  {
    && v.server.value.weight != 0
    && if v.owned.value.pid == v.pid then !v.owned.value.retry
       else v.draining && v.server.value.weight != v.server.value.initialWeight
  }

  /** A reconcile that finds the operator or the configuration in charge, or the weight overridden,
      drops ownership without a command, unless a DNS failure makes an active drain wait. */
  lemma OperatorWins(v: KeyState, io: KeyIO)
    requires Acts(v, io)
    requires TakenOver(v.desired, v.server) || WeightOverridden(v)
    ensures ReconcileOrderAt(v, io) == None && ReconcileAt(v, io).server == v.server
    ensures ReconcileAt(v, io).owned == None <==>
            TakenOver(v.desired, v.server) || !v.draining || v.server.value.admin == 0
  {
  }

  predicate NoDrain(v: KeyState, e: KeyEvent) {
    !e.KeyDrained?
  }

  predicate Unowned(v: KeyState) {
    v.owned == None
  }

  /** Without a record the key is left alone, through any run, until a new drain records it. */
  lemma UnownedIsLeftAlone(s: Sys, es: seq<Event>, e: Event, key: Key)
    requires WellFiled(s) && FiledRun(es) && FiledEvent(e) && OwnedAt(s, key) == None
    requires Along(s, es, key, NoDrain)
    requires NoDrain(At(Run(s, es), key), EventAt(Run(s, es), e, key))
    ensures OwnedAt(Run(s, es), key) == None
    ensures key !in Orders(Run(s, es), e)
  {
    hide NameOf, Run, OwnedAfter, Orders, WellFiled;
    InvariantHolds(s, es, key, NoDrain, Unowned);
    RunKeepsFiled(s, es);
    StepIsPointwise(Run(s, es), e, key);
  }

  /** Somebody else has decided about the key, and no DNS failure keeps its drain waiting. */
  predicate GivenUp(v: KeyState) {
    && v.owned.Some?
    && if TakenOver(v.desired, v.server) then true
       else WeightOverridden(v) && (!v.draining || v.server.value.admin == 0)
  }

  lemma ReconcilingStepAt(s: Sys, e: Event, key: Key)
    requires WellFiled(s) && FiledEvent(e) && Reconciles(e)
    ensures WellFiled(Step(s, e))
    ensures At(Step(s, e), key) == ReconcileAt(At(FoundByReconcile(s, e), key), KeyIOAt(e.io, key))
    ensures Lookup(Orders(s, e), key) == ReconcileOrderAt(At(FoundByReconcile(s, e), key), KeyIOAt(e.io, key))
  {
    hide NameOf, WellFiled, Reconcile, ReconcileAt, ReconcileOrders, ReconcileOrderAt, Applied, AppliedAt;
    if e.ApplyConfig? {
      ApplyIsPointwise(s, e.config, e.reload, e.io, key);
    }
    ReconcileIsPointwise(FoundByReconcile(s, e), e.io, key);
  }

  /** Once a reconcile, of the timer or of an apply, has found the operator or the configuration in
      charge, neither it nor any later step of any run touches the key, until a new drain records
      it. */
  lemma OperatorIsLeftAlone(s: Sys, first: Event, es: seq<Event>, e: Event, key: Key)
    requires WellFiled(s) && FiledEvent(first) && FiledRun(es) && FiledEvent(e) && Reconciles(first)
    requires Acts(At(FoundByReconcile(s, first), key), KeyIOAt(first.io, key))
    requires GivenUp(At(FoundByReconcile(s, first), key))
    requires Along(Step(s, first), es, key, NoDrain)
    requires var t := Run(Step(s, first), es); NoDrain(At(t, key), EventAt(t, e, key))
    ensures key !in Orders(s, first)
    ensures Lookup(Step(s, first).servers, key) == Lookup(FoundByReconcile(s, first).servers, key)
    ensures key !in Orders(Run(Step(s, first), es), e)
  {
    hide Step, NameOf, Run, Orders, ReconcileAt, ReconcileOrderAt, OperatorAdmin, FoundByReconcile;
    ReconcilingStepAt(s, first, key);
    OperatorWins(At(FoundByReconcile(s, first), key), KeyIOAt(first.io, key));
    assert Lookup(Orders(s, first), key) == None;
    UnownedIsLeftAlone(Step(s, first), es, e, key);
  }

  // ---------------------------------------------------------------------------------------
  // Stale desired state
  // ---------------------------------------------------------------------------------------

  function LastApply(es: seq<Event>): (last: Option<Event>)
    ensures last.Some? ==> last.value.ApplyConfig? && last.value in es
    ensures last.None? <==> forall i :: 0 <= i < |es| ==> !es[i].ApplyConfig?
  {
    if es == [] then None
    else if es[|es| - 1].ApplyConfig? then Some(es[|es| - 1])
    else LastApply(es[..|es| - 1])
  }

  lemma StepKeepsAttempt(s: Sys, e: Event)
    ensures var t := Step(s, e);
            if e.ApplyConfig? then (t.blocked <==> !e.reload.Succeeded?) && (!t.blocked ==> t.desired == Some(e.config))
            else t.blocked == s.blocked && t.desired == s.desired
  {
    hide KeptWeights, WriteWeights, ReconcileOrders, DrainedRecords, DrainOrders, Listed;
  }

  /** Reconciles run only on the configuration attempted last, and only if its reload succeeded. */
  lemma {:induction false} DesiredIsTheLastAttempt(s: Sys, es: seq<Event>)
    requires !s.blocked
    ensures var t := Run(s, es);
            match LastApply(es)
            case None => !t.blocked && t.desired == s.desired
            case Some(a) => (t.blocked <==> !a.reload.Succeeded?) && (!t.blocked ==> t.desired == Some(a.config))
  {
    hide Step;
    if es != [] {
      var front, last := es[..|es| - 1], es[|es| - 1];
      DesiredIsTheLastAttempt(s, front);
      StepKeepsAttempt(Run(s, front), last);
    }
  }

  predicate FailedApply(e: Event) {
    e.ApplyConfig? && !e.reload.Succeeded?
  }

  /** After a failed apply no timer sends a command or touches a record, whatever else happens,
      until an apply succeeds. */
  lemma {:induction false} SilentUntilApplied(s: Sys, failed: Event, es: seq<Event>, tick: IO)
    requires FailedApply(failed)
    requires forall i :: 0 <= i < |es| && es[i].ApplyConfig? ==> FailedApply(es[i])
    ensures var t := Run(Step(s, failed), es);
            t.blocked && Step(t, Tick(tick)) == t && Orders(t, Tick(tick)) == map[]
  {
    if es != [] {
      SilentUntilApplied(s, failed, es[..|es| - 1], tick);
    }
  }

  // ---------------------------------------------------------------------------------------
  // Reconcile settles
  // ---------------------------------------------------------------------------------------

  lemma DecideSettles(v: KeyState, io: KeyIO, io': KeyIO)
    requires io.answered
    requires ReconcileOrderAt(v, io).Some? ==> Verified(io.fault, WeightAt(v), ReconcileOrderAt(v, io).value)
    ensures ReconcileAt(ReconcileAt(v, io), io') == ReconcileAt(v, io)
    ensures ReconcileOrderAt(ReconcileAt(v, io), io') == None
  {
  }

  lemma SettlesAt(s: Sys, io: IO, io': IO, key: Key)
    requires WellFiled(s) && io.pidOk && io.readOk && !SomeUnverified(s.servers, ReconcileOrders(s, io), io)
    ensures var t := Reconcile(s, io); key !in ReconcileOrders(t, io') && At(Reconcile(t, io'), key) == At(t, key)
  {
    var t := Reconcile(s, io);
    ReconcileIsPointwise(s, io, key);
    ReconcileIsPointwise(t, io', key);
    DecideSettles(At(s, key), KeyIOAt(io, key), KeyIOAt(io', key));
  }

  lemma SameRecords(t: Sys, io: IO, n: Name)
    requires WellFiled(t) && ReconcileRuns(t) && io.pidOk && io.readOk && n in t.weights
    requires forall key :: OwnedAt(Reconcile(t, io), key) == OwnedAt(t, key)
    ensures KeptRecords(t, n, io) == t.weights[n]
  {
    var kept := KeptRecords(t, n, io);
    forall k | k in t.weights[n] ensures k in kept && kept[k] == t.weights[n][k] {
      assert OwnedAt(Reconcile(t, io), k) == OwnedAt(t, k) == Some(t.weights[n][k]);
    }
  }

  lemma SameServers(a: Servers, b: Servers)
    requires forall key :: Lookup(a, key) == Lookup(b, key)
    ensures a == b
  {
    forall k ensures k in a <==> k in b {
      assert Lookup(a, k) == Lookup(b, k);
    }
    forall k | k in a ensures a[k] == b[k] {
      assert Lookup(a, k) == Lookup(b, k);
    }
  }

  lemma SameWeights(t: Sys, io: IO)
    requires forall n | n in t.weights :: NameStays(t, n, io) && KeptRecords(t, n, io) == t.weights[n]
    ensures KeptWeights(t, io) == t.weights
  {
  }

  /** When all commands of a reconcile are verified, a second one with nothing changed in
      between sends no command and changes nothing. */
  lemma ReconcileSettles(s: Sys, io: IO, io': IO)
    requires WellFiled(s) && io.pidOk && io.readOk
    requires !SomeUnverified(s.servers, ReconcileOrders(s, io), io)
    ensures var t := Reconcile(s, io); ReconcileOrders(t, io') == map[] && Reconcile(t, io') == t
  {
    if !ReconcileRuns(s) {
      return;
    }
    var t := Reconcile(s, io);
    forall key ensures key !in ReconcileOrders(t, io') && At(Reconcile(t, io'), key) == At(t, key) {
      SettlesAt(s, io, io', key);
    }
    ReconcileIsPointwise(s, io, "");
    if ReconcileRuns(t) && io'.pidOk && io'.readOk {
      forall n | n in t.weights ensures NameStays(t, n, io') && KeptRecords(t, n, io') == t.weights[n] {
        forall key ensures OwnedAt(Reconcile(t, io'), key) == OwnedAt(t, key) {
          assert At(Reconcile(t, io'), key) == At(t, key);
        }
        SameRecords(t, io', n);
      }
      SameWeights(t, io');
      forall key ensures Lookup(Reconcile(t, io').servers, key) == Lookup(t.servers, key) {
        assert At(Reconcile(t, io'), key) == At(t, key);
      }
      SameServers(Reconcile(t, io').servers, t.servers);
    }
  }
}
