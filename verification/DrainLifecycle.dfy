/**
 What a drain, a stopping configuration and the following running configuration do to one
 weight, over any number of reloads and any socket failures in between.
 */
module DrainLifecycle {
  import opened Prelude
  import opened DrainModel
  import opened DrainRuns

  predicate StoppingConfig(config: Option<DesiredEndpoint>) {
    config == Some(DesiredEndpoint(0, false, true))
  }

  /** A new process whose server exists without an operator's admin bits. */
  predicate CleanProcess(v: KeyState, p: KeyProcess) {
    && p.pid != v.pid
    && (v.owned.Some? ==> p.pid != v.owned.value.pid)
    && p.server.Some?
    && !OperatorAdmin(p.server.value.admin)
  }

  /** A new process as it starts from the configuration. */
  predicate StartsFrom(v: KeyState, config: Option<DesiredEndpoint>, p: KeyProcess) {
    CleanProcess(v, p) && Initialised(config, p.server)
  }

  predicate CleanServer(v: KeyState) {
    v.server.Some? && !OperatorAdmin(v.server.value.admin)
  }

  // ---------------------------------------------------------------------------------------
  // A completed drain survives stopping
  // ---------------------------------------------------------------------------------------

  /** A zeroed key whose record belongs to the current process, or whose process has started at
      the stopping zero and has not been recognised yet. */
  predicate Zeroed(v: KeyState, w: int, initial: int) {
    && v.owned.Some?
    && v.owned.value == DrainWeight(w, initial, v.owned.value.pid, v.owned.value.stoppingReload, false)
    && CleanServer(v)
    && v.server.value.weight == 0
    && (!v.blocked && v.known ==> StoppingConfig(v.desired) || (Bound(v) && KeepsServing(v.desired)))
    && (!Bound(v) ==> v.server.value.initialWeight == 0)
  }

  predicate Bound(v: KeyState) {
    v.owned.Some? && v.owned.value.pid == v.pid
  }

  /** Drain requests, drain removals, health changes and failed applies in any order; stopping
      configurations whose reload replaces the process, or is skipped; timer reconciles, as long
      as the drain is not already complete under a running configuration (then the weight is
      restored at once). The pid, the socket and any command may fail at any time. */
  predicate StoppingStep(v: KeyState, e: KeyEvent) {
    match e
    case KeyDrained(_, _) => true
    case KeyRemoved => true
    case KeyElsewhere => true
    case KeyRuntime(server) => OnlyHealth(v.server, server)
    case KeyTick(_) => v.draining || v.blocked || !v.known || StoppingConfig(v.desired)
    case KeyApply(_, KeyNotReached, _) => true
    case KeyApply(_, KeyFailed(None), _) => true
    case KeyApply(config, KeyFailed(Some(p)), _) => StartsFrom(v, config, p) && StoppingConfig(config)
    case KeyApply(config, KeySucceeded(None), _) => StoppingConfig(config)
    case KeyApply(config, KeySucceeded(Some(p)), _) => StartsFrom(v, config, p) && StoppingConfig(config)
  }

  /** The key as the reconcile of the step finds it, if the step has one that gets an answer. */
  function FoundBy(v: KeyState, e: KeyEvent): Option<KeyState> {
    match e
    case KeyTick(io) => if Acts(v, io) then Some(v) else None
    case KeyApply(config, reload, io) =>
      if reload.KeySucceeded? && Acts(AppliedAt(v, config, reload), io) then Some(AppliedAt(v, config, reload))
      else None
    case _ => None
  }

  /** An answered reconcile, of an apply or of the timer, finds a process that a stopping reload
      has started since the record was last bound, and no DNS failure makes an active drain wait. */
  predicate SeesStoppingReload(v: KeyState, e: KeyEvent) {
    var u := FoundBy(v, e);
    u.Some? && !Bound(u.value) && (u.value.draining ==> u.value.server.Some? && u.value.server.value.admin == 0)
  }

  lemma ReconcileKeepsZeroed(v: KeyState, io: KeyIO, w: int, initial: int)
    requires Zeroed(v, w, initial) && (v.draining || v.blocked || !v.known || StoppingConfig(v.desired))
    ensures Zeroed(ReconcileAt(v, io), w, initial)
    ensures ReconcileAt(v, io).owned.value.stoppingReload <==>
            || v.owned.value.stoppingReload
            || (Acts(v, io) && !Bound(v) && (v.draining ==> v.server.value.admin == 0))
  {
    hide OperatorAdmin, WeightAfter, Verified;
  }

  /** Whatever becomes of the reload, the zero is carried into the reconcile. */
  lemma StoppingApplyKeepsZeroed(v: KeyState, e: KeyEvent, w: int, initial: int)
    requires Zeroed(v, w, initial) && StoppingStep(v, e) && e.KeyApply?
    ensures Zeroed(AppliedAt(v, e.config, e.reload), w, initial)
    ensures AppliedAt(v, e.config, e.reload).owned == v.owned
    ensures e.reload.KeySucceeded? ==> StoppingConfig(AppliedAt(v, e.config, e.reload).desired)
  {
    hide OperatorAdmin;
  }

  /** An answered reconcile after a stopping reload binds the record to the new process: the one
      the apply runs itself, or any later one of the timer. */
  lemma StoppingReloadBinds(v: KeyState, io: KeyIO, w: int, initial: int)
    requires Zeroed(v, w, initial) && StoppingConfig(v.desired) && Acts(v, io)
    requires v.draining ==> v.server.value.admin == 0
    ensures var u := ReconcileAt(v, io);
            Zeroed(u, w, initial) && Bound(u) && (!Bound(v) ==> u.owned.value.stoppingReload)
  {
    hide OperatorAdmin, WeightAfter, Verified;
  }

  lemma StoppingStepKeepsZeroed(v: KeyState, e: KeyEvent, w: int, initial: int)
    requires Zeroed(v, w, initial) && StoppingStep(v, e)
    ensures Zeroed(StepAt(v, e), w, initial)
    ensures StepAt(v, e).owned.value.stoppingReload <==> v.owned.value.stoppingReload || SeesStoppingReload(v, e)
  {
    hide ReconcileAt, AppliedAt, Verified, WeightAfter, OperatorAdmin;
    if e.KeyApply? {
      StoppingApplyKeepsZeroed(v, e, w, initial);
      if e.reload.KeySucceeded? {
        ReconcileKeepsZeroed(AppliedAt(v, e.config, e.reload), e.io, w, initial);
      }
    } else if e.KeyTick? {
      ReconcileKeepsZeroed(v, e.io, w, initial);
    }
  }

  /** Some step of the run sees a stopping reload. */
  ghost predicate StoppingReloadSeen(s: Sys, es: seq<Event>, key: Key) {
    exists i :: 0 <= i < |es| && SeesStoppingReload(At(Run(s, es[..i]), key), EventAt(Run(s, es[..i]), es[i], key))
  }

  lemma SeenNext(s: Sys, es: seq<Event>, key: Key)
    requires es != []
    ensures var n := |es| - 1;
            StoppingReloadSeen(s, es, key) <==>
            || StoppingReloadSeen(s, es[..n], key)
            || SeesStoppingReload(At(Run(s, es[..n]), key), EventAt(Run(s, es[..n]), es[n], key))
  {
    hide SeesStoppingReload, Run, At, EventAt;
    var n := |es| - 1;
    forall i | 0 <= i < n ensures es[..n][..i] == es[..i] && es[..n][i] == es[i] {}
    if StoppingReloadSeen(s, es[..n], key) {
      var i :| 0 <= i < n
          && SeesStoppingReload(At(Run(s, es[..n][..i]), key), EventAt(Run(s, es[..n][..i]), es[..n][i], key));
      assert SeesStoppingReload(At(Run(s, es[..i]), key), EventAt(Run(s, es[..i]), es[i], key));
    }
  }

  /** Through any stopping phase the saved weight stays, and the record knows whether a stopping
      reload was seen. */
  lemma {:induction false} StoppingRun(s: Sys, es: seq<Event>, key: Key, w: int, initial: int)
    requires WellFiled(s) && FiledRun(es) && Along(s, es, key, StoppingStep)
    requires Zeroed(At(s, key), w, initial)
    ensures Zeroed(At(Run(s, es), key), w, initial)
    ensures At(Run(s, es), key).owned.value.stoppingReload <==>
            At(s, key).owned.value.stoppingReload || StoppingReloadSeen(s, es, key)
  {
    hide StepAt, SeesStoppingReload, WellFiled, NameOf, At;
    if es != [] {
      var n := |es| - 1;
      PrefixAlong(s, es, n, key, StoppingStep);
      StoppingRun(s, es[..n], key, w, initial);
      RunStepAt(s, es, n, key);
      assert es[..n + 1] == es;
      StoppingStepKeepsZeroed(At(Run(s, es[..n]), key), EventAt(Run(s, es[..n]), es[n], key), w, initial);
      SeenNext(s, es, key);
    }
  }

  predicate ReplacesProcess(e: KeyEvent) {
    e.KeyApply? && e.reload.KeySucceeded? && e.reload.process.Some?
  }

  /** The running configuration comes back. Its reload replaces the process, or is skipped, with
      the process running that configuration already or known by the record. */
  predicate RunningApply(v: KeyState, e: KeyEvent, initial: int) {
    && e.KeyApply? && e.reload.KeySucceeded?
    && KeepsServing(e.config) && e.config.value.weight == initial
    && match e.reload.process
       case Some(p) => StartsFrom(v, e.config, p)
       case None => Matches(e.config, v.server) || Bound(v)
  }

  /** Restored, or still waiting under the running configuration. */
  predicate Returning(v: KeyState, w: int, initial: int) {
    && v.known && !v.draining
    && KeepsServing(v.desired) && v.desired.value.weight == initial
    && CleanServer(v)
    && match v.owned
       case None => v.server.value.weight == w
       case Some(rec) =>
         && rec == DrainWeight(w, initial, rec.pid, rec.stoppingReload, false)
         && (rec.pid == v.pid ==> v.server.value.weight == 0 || v.server.value.weight == w)
         && (rec.pid != v.pid ==>
               && rec.stoppingReload && v.server.value.initialWeight == initial
               && (v.server.value.weight == initial || v.server.value.weight == w))
  }

  /** The same configured weight again. */
  predicate ServesAsBefore(v: KeyState, config: Option<DesiredEndpoint>) {
    KeepsServing(config) && v.desired.Some? && config.value.weight == v.desired.value.weight
  }

  /** A further running process, while the record is still held and marked. */
  predicate FurtherProcess(v: KeyState, config: Option<DesiredEndpoint>, p: KeyProcess) {
    && v.owned.Some? && v.owned.value.stoppingReload
    && ServesAsBefore(v, config) && StartsFrom(v, config, p)
  }

  /** Drain removals, health changes, timers and applies of the same configured weight, failed or
      not, in any order. Once the record is gone no reload may replace the process, since a runtime
      weight does not outlive it. */
  predicate ReturningStep(v: KeyState, e: KeyEvent) {
    match e
    case KeyDrained(_, _) => false
    case KeyRemoved => true
    case KeyElsewhere => true
    case KeyTick(_) => true
    case KeyRuntime(server) => OnlyHealth(v.server, server)
    case KeyApply(_, KeyNotReached, _) => true
    case KeyApply(_, KeyFailed(None), _) => true
    case KeyApply(config, KeyFailed(Some(p)), _) => FurtherProcess(v, config, p)
    case KeyApply(config, KeySucceeded(None), _) => ServesAsBefore(v, config)
    case KeyApply(config, KeySucceeded(Some(p)), _) => FurtherProcess(v, config, p)
  }

  lemma ReconcileKeepsReturning(v: KeyState, io: KeyIO, w: int, initial: int)
    requires w > 0 && Returning(v, w, initial)
    ensures Returning(ReconcileAt(v, io), w, initial)
  {
    hide OperatorAdmin;
  }

  lemma RunningApplyReturns(v: KeyState, e: KeyEvent, w: int, initial: int)
    requires w > 0 && Zeroed(v, w, initial) && !v.draining && RunningApply(v, e, initial)
    requires ReplacesProcess(e) ==> v.owned.value.stoppingReload
    ensures Returning(StepAt(v, e), w, initial)
  {
    hide ReconcileAt, OperatorAdmin;
    assert Returning(AppliedAt(v, e.config, e.reload), w, initial);
    ReconcileKeepsReturning(AppliedAt(v, e.config, e.reload), e.io, w, initial);
  }

  lemma ReturningStepKeeps(v: KeyState, e: KeyEvent, w: int, initial: int)
    requires w > 0 && Returning(v, w, initial) && ReturningStep(v, e)
    ensures Returning(StepAt(v, e), w, initial)
  {
    hide ReconcileAt, OperatorAdmin;
    if e.KeyApply? {
      assert Returning(AppliedAt(v, e.config, e.reload), w, initial);
      ReconcileKeepsReturning(AppliedAt(v, e.config, e.reload), e.io, w, initial);
    } else if e.KeyTick? {
      ReconcileKeepsReturning(v, e.io, w, initial);
    }
  }

  /** The server is up and the socket works. */
  predicate Healthy(v: KeyState) {
    v.server.Some? && v.server.value.admin == 0 && v.server.value.operational == 2
  }

  predicate CleanTick(e: KeyEvent) {
    e == KeyTick(KeyIO(true, NO_FAULT))
  }

  lemma CleanTickRestores(v: KeyState, e: KeyEvent, w: int, initial: int)
    requires w > 0 && Returning(v, w, initial) && !v.blocked && Healthy(v) && CleanTick(e)
    ensures Returning(StepAt(v, e), w, initial) && StepAt(v, e).owned == None
  {
  }

  /** A key drained at runtime weight `w` gets exactly `w` back after any stopping phase, with
      any number of reloads, once the running configuration is applied again, however many further
      applies of it fail or reload before the endpoint is healthy. In a replaced process this needs
      one answered reconcile, of an apply or of the timer, that has seen a stopping reload before
      it. */
  lemma WeightSurvivesStopping(s: Sys, stop: seq<Event>, run: Event, settle: seq<Event>, last: Event, key: Key,
        w: int, initial: int)
    requires WellFiled(s) && FiledRun(stop) && FiledEvent(run) && FiledRun(settle) && FiledEvent(last)
    requires w > 0 && Zeroed(At(s, key), w, initial)
    requires Along(s, stop, key, StoppingStep)
    requires var t := Run(s, stop);
             && !At(t, key).draining
             && RunningApply(At(t, key), EventAt(t, run, key), initial)
             && (ReplacesProcess(EventAt(t, run, key)) ==> StoppingReloadSeen(s, stop, key))
    requires var u := Step(Run(s, stop), run);
             && Along(u, settle, key, ReturningStep)
             && !At(Run(u, settle), key).blocked && Healthy(At(Run(u, settle), key))
             && CleanTick(EventAt(Run(u, settle), last, key))
    ensures var end := Step(Run(Step(Run(s, stop), run), settle), last);
            OwnedAt(end, key) == None && key in end.servers && end.servers[key].weight == w
  {
    StoppingRun(s, stop, key, w, initial);
    RunKeepsFiled(s, stop);
    var t := Run(s, stop);
    StepIsPointwise(t, run, key);
    RunningApplyReturns(At(t, key), EventAt(t, run, key), w, initial);
    var u := Step(t, run);
    var returning := v => Returning(v, w, initial);
    forall v, e | returning(v) && ReturningStep(v, e) ensures returning(StepAt(v, e)) {
      ReturningStepKeeps(v, e, w, initial);
    }
    InvariantHolds(u, settle, key, ReturningStep, returning);
    RunKeepsFiled(u, settle);
    StepIsPointwise(Run(u, settle), last, key);
    CleanTickRestores(At(Run(u, settle), key), EventAt(Run(u, settle), last, key), w, initial);
  }

  /** The condition is needed: if no reconcile has seen a stopping reload, the record goes with the
      first answered reconcile of the replaced process, and the weight is the configured one. */
  lemma UnseenReloadForgets(v: KeyState, e: KeyEvent, w: int, initial: int)
    requires Zeroed(v, w, initial) && !v.draining && RunningApply(v, e, initial) && ReplacesProcess(e) && e.io.answered
    requires !v.owned.value.stoppingReload
    ensures StepAt(v, e).owned == None && WeightAt(StepAt(v, e)) == initial
  {
    hide OperatorAdmin;
  }

  /** A verified drain of a healthy server establishes the premise. */
  lemma DrainZeroes(v: KeyState, fault: Fault, listed: bool)
    requires v.owned == None && CleanServer(v) && v.server.value.admin == 0 && v.server.value.weight > 0
    requires Verified(fault, v.server.value.weight, 0)
    requires !v.blocked && v.known ==> KeepsServing(v.desired) || StoppingConfig(v.desired)
    ensures Zeroed(StepAt(v, KeyDrained(fault, listed)), v.server.value.weight, v.server.value.initialWeight)
  {
  }

  // ---------------------------------------------------------------------------------------
  // Recovery from every reachable state
  // ---------------------------------------------------------------------------------------

  lemma ExplainedKeyRecovers(v: KeyState, e: KeyEvent)
    requires Explained(v) && !v.blocked && !v.draining && KeepsServing(v.desired)
    requires Healthy(v) && v.server.value.initialWeight > 0 && CleanTick(e)
    ensures StepAt(v, e).owned == None && WeightAt(StepAt(v, e)) > 0
  {
    hide OperatorAdmin;
  }

  /** Wherever a lawful run has led: once its drain is over and the endpoint is meant to serve and
      is healthy, one clean reconcile leaves it with a positive weight and nothing owned. */
  lemma EveryReachableStateRecovers(s: Sys, es: seq<Event>, tick: IO, key: Key)
    requires Start(s) && LawfulRun(s, es, key)
    requires var v := At(Run(s, es), key);
             && !v.blocked && !v.draining && KeepsServing(v.desired)
             && Healthy(v) && v.server.value.initialWeight > 0
    requires KeyIOAt(tick, key) == KeyIO(true, NO_FAULT)
    ensures var end := Step(Run(s, es), Tick(tick));
            OwnedAt(end, key) == None && key in end.servers && end.servers[key].weight > 0
  {
    hide Explained, Run, Step, StepAt, NameOf;
    RunIsExplained(s, es, key);
    RunKeepsFiled(s, es);
    StepIsPointwise(Run(s, es), Tick(tick), key);
    ExplainedKeyRecovers(At(Run(s, es), key), KeyTick(KeyIOAt(tick, key)));
  }

  // ---------------------------------------------------------------------------------------
  // An active drain follows reloads
  // ---------------------------------------------------------------------------------------

  predicate Following(v: KeyState, w: int, initial: int) {
    && v.draining
    && v.owned.Some? && v.owned.value.weight == w && v.owned.value.initialWeight == initial
    && CleanServer(v) && v.server.value.initialWeight > 0
    && (!v.blocked && v.known ==> KeepsServing(v.desired) && v.desired.value.weight == v.server.value.initialWeight)
    && (v.owned.value.pid != v.pid ==> v.server.value.weight == v.server.value.initialWeight)
    && (v.owned.value.pid == v.pid && !v.owned.value.retry ==> v.server.value.weight == 0)
  }

  /** A listed, verified drain of a healthy server that runs the desired configuration establishes
      it, with the weight and the configured weight it found. */
  lemma DrainFollows(v: KeyState, fault: Fault)
    requires v.owned == None && CleanServer(v) && v.server.value.admin == 0
    requires v.server.value.weight > 0 && v.server.value.initialWeight > 0
    requires Verified(fault, v.server.value.weight, 0)
    requires !v.blocked && v.known ==> KeepsServing(v.desired) && v.desired.value.weight == v.server.value.initialWeight
    ensures Following(StepAt(v, KeyDrained(fault, true)), v.server.value.weight, v.server.value.initialWeight)
  {
    hide OperatorAdmin;
  }

  predicate FollowingStep(v: KeyState, e: KeyEvent) {
    match e
    case KeyElsewhere => true
    case KeyTick(_) => true
    case KeyRuntime(server) => OnlyHealth(v.server, server)
    case KeyApply(_, KeyNotReached, _) => true
    case KeyApply(_, KeyFailed(None), _) => true
    case KeyApply(config, KeyFailed(Some(p)), _) => StartsFrom(v, config, p) && KeepsServing(config)
    case KeyApply(config, KeySucceeded(None), _) => KeepsServing(config) && Matches(config, v.server)
    case KeyApply(config, KeySucceeded(Some(p)), _) => StartsFrom(v, config, p) && KeepsServing(config)
    case _ => false
  }

  lemma ReconcileKeepsFollowing(v: KeyState, io: KeyIO, w: int, initial: int)
    requires Following(v, w, initial)
    ensures Following(ReconcileAt(v, io), w, initial)
  {
  }

  lemma FollowingStepKeeps(v: KeyState, e: KeyEvent, w: int, initial: int)
    requires Following(v, w, initial) && FollowingStep(v, e)
    ensures Following(StepAt(v, e), w, initial)
  {
    if e.KeyApply? {
      assert Following(AppliedAt(v, e.config, e.reload), w, initial);
      ReconcileKeepsFollowing(AppliedAt(v, e.config, e.reload), e.io, w, initial);
    } else if e.KeyTick? {
      ReconcileKeepsFollowing(v, e.io, w, initial);
    }
  }

  lemma FollowingCleanTick(v: KeyState, e: KeyEvent, w: int, initial: int)
    requires Following(v, w, initial) && !v.blocked && v.known && Healthy(v) && CleanTick(e)
    ensures var u := StepAt(v, e);
            && Following(u, w, initial)
            && u == v.(owned := u.owned, server := u.server)
            && u.server == Some(v.server.value.(weight := 0))
            && u.owned.value.pid == u.pid && !u.owned.value.retry
  {
  }

  lemma FollowingEnds(v: KeyState, e: KeyEvent, w: int, initial: int)
    requires Following(v, w, initial) && !v.blocked && v.known && Healthy(v) && CleanTick(e) && w > 0
    requires v.owned.value.pid == v.pid && !v.owned.value.retry
    ensures var end := StepAt(StepAt(v, KeyRemoved), e);
            && end.owned == None
            && var back := if v.desired.value.weight != initial then v.desired.value.weight else w;
               end.server == Some(v.server.value.(weight := back))
  {
  }

  /** However many running reloads an active drain goes through, and whatever fails on the way,
      one clean reconcile has the weight at zero with the first saved weight still on record;
      once the drain is removed, one more gives back that weight, or the configured weight if
      the configuration was edited since the snapshot. */
  lemma ActiveDrainFollowsReloads(s: Sys, es: seq<Event>, zero: IO, raise: IO, key: Key, w: int, initial: int)
    requires WellFiled(s) && FiledRun(es) && w > 0
    requires Following(At(s, key), w, initial) && Along(s, es, key, FollowingStep)
    requires var t := Run(s, es); !t.blocked && t.desired.Some? && Healthy(At(t, key))
    requires KeyIOAt(zero, key) == KeyIOAt(raise, key) == KeyIO(true, NO_FAULT)
    ensures var u := Step(Run(s, es), Tick(zero));
            && key in u.servers && u.servers[key].weight == 0
            && OwnedAt(u, key).Some? && OwnedAt(u, key).value.weight == w
            && OwnedAt(u, key).value.pid == u.pid && !OwnedAt(u, key).value.retry
    ensures var t := Run(s, es);
            var end := Step(Step(Step(t, Tick(zero)), Removed(NameOf(key))), Tick(raise));
            && key in end.servers && OwnedAt(end, key) == None
            && DesiredAt(t, key).Some?
            && end.servers[key].weight ==
                 if DesiredAt(t, key).value.weight != initial then DesiredAt(t, key).value.weight else w
  {
    hide WellFiled, NameOf, Run, FiledRun, OperatorAdmin, StepAt, Step;
    var following := v => Following(v, w, initial);
    forall v, e | following(v) && FollowingStep(v, e) ensures following(StepAt(v, e)) {
      FollowingStepKeeps(v, e, w, initial);
    }
    InvariantHolds(s, es, key, FollowingStep, following);
    RunKeepsFiled(s, es);
    var t := Run(s, es);
    var u := Step(t, Tick(zero));
    StepIsPointwise(t, Tick(zero), key);
    FollowingCleanTick(At(t, key), EventAt(t, Tick(zero), key), w, initial);
    var r := Step(u, Removed(NameOf(key)));
    StepIsPointwise(u, Removed(NameOf(key)), key);
    StepIsPointwise(r, Tick(raise), key);
    FollowingEnds(At(u, key), EventAt(r, Tick(raise), key), w, initial);
  }

  // ---------------------------------------------------------------------------------------
  // The end of the drain and the stopping metadata arrive in either order
  // ---------------------------------------------------------------------------------------

  /** The record needs no further drain command and its process is settled. */
  predicate OrderFree(v: KeyState) {
    v.owned.Some? && v.server.Some? ==>
      var rec, sv := v.owned.value, v.server.value;
      if sv.admin != 0 then rec.pid == v.pid || sv.initialWeight != 0
      else !rec.retry || (rec.pid != v.pid && sv.initialWeight != 0)
  }

  /** "Remove from drain, then apply stopping" and "apply stopping, then remove from drain" end
      in the same record and the same server state exactly when the key, as the apply leaves it
      before its own reconcile, is not waiting for a drain command to be repeated. */
  lemma EitherOrder(v: KeyState, config: Option<DesiredEndpoint>, process: Option<KeyProcess>, io: KeyIO)
    requires v.draining && StoppingConfig(config) && io.answered
    requires var u := AppliedAt(v, config, KeySucceeded(process)); CleanServer(u) && WeightAt(u) == 0
    ensures var apply := KeyApply(config, KeySucceeded(process), io);
            StepAt(StepAt(v, KeyRemoved), apply) == StepAt(StepAt(v, apply), KeyRemoved)
            <==> OrderFree(AppliedAt(v, config, KeySucceeded(process)))
  {
  }

  /** For a zeroed, verified drain and a server without admin bits the order never matters. */
  lemma EitherOrderZeroed(v: KeyState, config: Option<DesiredEndpoint>, process: Option<KeyProcess>, io: KeyIO)
    requires v.draining && StoppingConfig(config)
    requires v.owned.Some? && !v.owned.value.retry
    requires v.server.Some? && v.server.value.weight == 0 && v.server.value.admin == 0
    requires process.Some? ==>
               && Initialised(config, process.value.server)
               && process.value.server.Some?
               && process.value.server.value.admin == 0
    ensures var apply := KeyApply(config, KeySucceeded(process), io);
            StepAt(StepAt(v, KeyRemoved), apply) == StepAt(StepAt(v, apply), KeyRemoved)
  {
    if io.answered {
      EitherOrder(v, config, process, io);
    }
  }

  lemma TwoStepsAt(s: Sys, e: Event, e': Event, key: Key)
    requires WellFiled(s) && FiledEvent(e) && FiledEvent(e')
    ensures At(Step(Step(s, e), e'), key) ==
            StepAt(StepAt(At(s, key), EventAt(s, e, key)), EventAt(Step(s, e), e', key))
  {
    StepIsPointwise(s, e, key);
    StepIsPointwise(Step(s, e), e', key);
  }

  lemma EitherOrderOfRun(s: Sys, config: map<Key, DesiredEndpoint>, process: Option<Process>, io: IO, key: Key)
    requires WellFiled(s) && FiledEvent(ApplyConfig(config, Succeeded(process), io))
    requires NameOf(key) in s.drainList && StoppingConfig(Lookup(config, key))
    requires OwnedAt(s, key).Some? && !OwnedAt(s, key).value.retry
    requires key in s.servers && s.servers[key].weight == 0 && s.servers[key].admin == 0
    requires process.Some? ==>
               && key in process.value.servers
               && Initialised(Lookup(config, key), Some(process.value.servers[key]))
               && process.value.servers[key].admin == 0
    ensures var removed, apply := Removed(NameOf(key)), ApplyConfig(config, Succeeded(process), io);
            At(Step(Step(s, removed), apply), key) == At(Step(Step(s, apply), removed), key)
  {
    var removed, apply := Removed(NameOf(key)), ApplyConfig(config, Succeeded(process), io);
    TwoStepsAt(s, removed, apply, key);
    TwoStepsAt(s, apply, removed, key);
    EitherOrderZeroed(At(s, key), Lookup(config, key), KeyProcessAt(process, key), KeyIOAt(io, key));
  }
}
