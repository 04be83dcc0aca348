/**
 What a reconcile and a drain leave of one record, field by field: over the fields of the record,
 of the server, of the desired endpoint and of the command outcome alone
 (provider/haproxy/drain_recovery.go:40-43, 147-315).
 */
module DrainRecords {
  import opened Prelude
  import opened DrainModel

  // ---------------------------------------------------------------------------------------
  // Admin bits
  // ---------------------------------------------------------------------------------------

  /** The bits of an admin state: forced, inherited and configured maintenance, the two drains, the
      maintenance of a failed resolution, and a changed FQDN. */
  const FORCED_MAINT := 0
  const INHERITED_MAINT := 1
  const CONFIGURED_MAINT := 2
  const FORCED_DRAIN := 3
  const INHERITED_DRAIN := 4
  const RESOLUTION_MAINT := 5
  const FQDN_CHANGED := 6

  predicate HasBit(admin: nat, bit: nat) {
    if bit == 0 then admin % 2 == 1 else HasBit(admin / 2, bit - 1)
  }

  lemma SixteenthsOf(n: nat, q: nat, r: nat)
    requires n == 16 * q + r && r < 16
    ensures n / 16 == q && n % 16 == r
  {
  }

  lemma LowestBit(n: nat)
    ensures n % 32 != 0 <==> n % 2 == 1 || n / 2 % 16 != 0
    ensures n / 32 == n / 2 / 16
  {
    var q, r := n / 32, n % 32;
    assert n / 2 == 16 * q + r / 2 && n % 2 == r % 2;
    SixteenthsOf(n / 2, q, r / 2);
  }

  lemma EighthsOf(n: nat, q: nat, r: nat)
    requires n == 8 * q + r && r < 8
    ensures n / 8 == q && n % 8 == r
  {
  }

  lemma SecondBit(n: nat)
    ensures n % 16 != 0 <==> n % 2 == 1 || n / 2 % 8 != 0
    ensures n / 16 == n / 2 / 8
  {
    var q, r := n / 16, n % 16;
    assert n / 2 == 8 * q + r / 2 && n % 2 == r % 2;
    EighthsOf(n / 2, q, r / 2);
  }

  lemma ThirdBit(n: nat)
    ensures n % 8 != 0 <==> n % 2 == 1 || n / 2 % 4 != 0
    ensures n / 8 == n / 2 / 4
  {
    var q, r := n / 8, n % 8;
    assert n / 2 == 4 * q + r / 2 && n % 2 == r % 2;
  }

  lemma LastBits(n: nat)
    ensures n % 4 != 0 <==> n % 2 == 1 || n / 2 % 2 == 1
    ensures n / 4 == n / 2 / 2
  {
  }

  lemma {:induction false} BitsOf(n: nat)
    ensures HasBit(n, 0) <==> n % 2 == 1
    ensures HasBit(n, 1) <==> n / 2 % 2 == 1
    ensures HasBit(n, 2) <==> HasBit(n / 2, 1)
    ensures HasBit(n, 3) <==> HasBit(n / 2, 2)
    ensures HasBit(n, 4) <==> HasBit(n / 2, 3)
    ensures HasBit(n, 5) <==> HasBit(n / 2, 4)
    ensures HasBit(n, 6) <==> HasBit(n / 2, 5)
  {
  }

  lemma SixtyFourthsOf(n: nat)
    ensures n / 64 == n / 2 / 2 / 2 / 2 / 2 / 2
  {
    assert n / 64 == n / 2 / 32 by {
      var q, r := n / 64, n % 64;
      assert n / 2 == 32 * q + r / 2;
    }
    LowestBit(n / 2);
    SecondBit(n / 2 / 2);
    ThirdBit(n / 2 / 2 / 2);
    LastBits(n / 2 / 2 / 2 / 2);
  }

  /** Six bits belong to the operator or the configuration, and a failed resolution does not. */
  lemma OperatorBits(admin: nat)
    ensures OperatorAdmin(admin) <==>
            || HasBit(admin, FORCED_MAINT) || HasBit(admin, INHERITED_MAINT) || HasBit(admin, CONFIGURED_MAINT)
            || HasBit(admin, FORCED_DRAIN) || HasBit(admin, INHERITED_DRAIN) || HasBit(admin, FQDN_CHANGED)
    ensures !OperatorAdmin(32) && HasBit(32, RESOLUTION_MAINT)
  {
    hide HasBit;
    SixtyFourthsOf(admin);
    LowestBit(admin);
    SecondBit(admin / 2);
    ThirdBit(admin / 2 / 2);
    LastBits(admin / 2 / 2 / 2);
    BitsOf(admin);
    BitsOf(admin / 2);
    BitsOf(admin / 2 / 2);
    BitsOf(admin / 2 / 2 / 2);
    BitsOf(admin / 2 / 2 / 2 / 2);
    BitsOf(admin / 2 / 2 / 2 / 2 / 2);
    BitsOf(32);
    BitsOf(16);
    BitsOf(8);
    BitsOf(4);
    BitsOf(2);
  }

  // ---------------------------------------------------------------------------------------
  // What an answered reconcile leaves
  // ---------------------------------------------------------------------------------------

  /** The server or the desired endpoint is gone, or somebody else is in charge. */
  predicate OutOfHands(v: KeyState) {
    || v.server.None? || v.desired.None?
    || v.desired.value.disabled
    || (v.desired.value.weight == 0 && !v.desired.value.temporaryZero)
    || OperatorAdmin(v.server.value.admin)
  }

  /** A controlled server and what is known about it. */
  predicate InHands(v: KeyState) {
    v.owned.Some? && v.server.Some? && v.desired.Some? && !OutOfHands(v)
  }

  predicate OwnProcess(v: KeyState)
    requires v.owned.Some?
  {
    v.owned.value.pid == v.pid
  }

  /** The desired state is the zero of a stopping container. */
  predicate StoppingZero(v: KeyState)
    requires v.desired.Some?
  {
    v.desired.value.weight == 0 && v.desired.value.temporaryZero
  }

  /** The weight to give back: the configured one if it was edited since the record was made. */
  function GiveBack(v: KeyState): int
    requires v.owned.Some? && v.desired.Some?
  {
    if v.desired.value.weight == v.owned.value.initialWeight then v.owned.value.weight else v.desired.value.weight
  }

  /** A running process, started from the desired weight, after one that started at the stopping
      zero; its weight is untouched or already the one to give back. */
  predicate CameBack(v: KeyState)
    requires v.owned.Some? && v.server.Some? && v.desired.Some?
  {
    var sv := v.server.value;
    && v.owned.value.stoppingReload && !OwnProcess(v)
    && sv.weight > 0 && sv.initialWeight == v.desired.value.weight
    && sv.weight in {sv.initialWeight, GiveBack(v)}
  }

  /** The command took effect where it was needed, reported no error and was read back. */
  predicate Confirmed(fault: Fault, before: int, target: int) {
    !fault.error && fault.readback && (fault.effect || before == target)
  }

  /** During a drain: the weight is nonzero in the process of a verified zero, or is neither zero
      nor the initial one in another process. */
  predicate OverriddenWhileDraining(v: KeyState)
    requires InHands(v)
  {
    var rec, sv := v.owned.value, v.server.value;
    sv.admin == 0 && sv.weight != 0 && if OwnProcess(v) then !rec.retry else sv.weight != sv.initialWeight
  }

  /** After a drain, under a stopping configuration: any weight but zero. */
  predicate OverriddenWhileStopping(v: KeyState)
    requires InHands(v)
  {
    StoppingZero(v) && v.server.value.weight != 0
  }

  /** After a drain, under a running configuration: anything but the zero of the record's own process
      and the start of a process that came back. */
  predicate OverriddenWhileRunning(v: KeyState)
    requires InHands(v)
  {
    !StoppingZero(v) && !CameBack(v) && !(OwnProcess(v) && v.server.value.weight == 0)
  }

  /** After a drain, under a running configuration: the healthy server has the weight to give back,
      or has just got it. */
  predicate GivenBack(v: KeyState, fault: Fault)
    requires InHands(v)
  {
    var sv := v.server.value;
    && !StoppingZero(v) && !OverriddenWhileRunning(v)
    && sv.admin == 0 && sv.operational == 2
    && (sv.weight == GiveBack(v) || Confirmed(fault, sv.weight, GiveBack(v)))
  }

  /** Why a record goes. */
  predicate Released(v: KeyState, fault: Fault)
    requires v.owned.Some?
  {
    if OutOfHands(v) then true
    else if v.draining then OverriddenWhileDraining(v)
    else OverriddenWhileStopping(v) || OverriddenWhileRunning(v) || GivenBack(v, fault)
  }

  /** A process that has started at the stopping zero and is recognised now. */
  predicate RecognisedStopping(v: KeyState)
    requires InHands(v)
  {
    && !OwnProcess(v) && StoppingZero(v) && v.server.value.weight == 0 == v.server.value.initialWeight
    && (v.draining ==> v.server.value.admin == 0)
  }

  /** The zero of an active drain is sent again: it was never verified in this process, or another
      process has started at the desired weight. */
  predicate ZeroedAgain(v: KeyState)
    requires InHands(v)
  {
    var rec, sv := v.owned.value, v.server.value;
    && v.draining && sv.admin == 0 && sv.weight != 0
    && if OwnProcess(v) then rec.retry else sv.weight == sv.initialWeight == v.desired.value.weight
  }

  /** The zero that was never verified turns out to be there. */
  predicate ZeroFound(v: KeyState)
    requires InHands(v)
  {
    v.draining && v.server.value.admin == 0 && OwnProcess(v) && v.server.value.weight == 0
  }

  /** The weight of an endpoint out of drain is sent. */
  predicate Raised(v: KeyState)
    requires InHands(v)
  {
    var sv := v.server.value;
    && !v.draining && !StoppingZero(v) && !OverriddenWhileRunning(v)
    && sv.admin == 0 && sv.operational == 2 && sv.weight != GiveBack(v)
  }

  /** The record that is left: none if it is released; otherwise the saved weights stay, the process
      changes if a stopping one is recognised or the zero is sent again, the mark is set if a stopping
      one is recognised, and a retry is owed exactly if the zero was sent and not confirmed, or was
      owed before and nothing has settled it. */
  predicate Leaves(v: KeyState, fault: Fault, after: Option<DrainWeight>)
    requires v.owned.Some?
  {
    if Released(v, fault) then after.None?
    else
      var rec := v.owned.value;
      && after.Some?
      && after.value.weight == rec.weight && after.value.initialWeight == rec.initialWeight
      && after.value.pid == (if RecognisedStopping(v) || ZeroedAgain(v) then v.pid else rec.pid)
      && (after.value.stoppingReload <==> rec.stoppingReload || RecognisedStopping(v))
      && (after.value.retry <==>
            if ZeroedAgain(v) then !Confirmed(fault, v.server.value.weight, 0)
            else rec.retry && !ZeroFound(v) && !(RecognisedStopping(v) && v.draining))
  }

  /** Exactly when an answered reconcile leaves no record, and otherwise which. */
  lemma ReconciledRecord(v: KeyState, io: KeyIO)
    requires Acts(v, io)
    ensures Leaves(v, io.fault, ReconcileAt(v, io).owned)
  {
  }

  /** Exactly what it does to the server. Nothing else about it changes, nor anything but record and
      weight. */
  lemma ReconciledServer(v: KeyState, io: KeyIO)
    requires Acts(v, io)
    ensures var target :=
              if OutOfHands(v) then None
              else if ZeroedAgain(v) then Some(0)
              else if Raised(v) then Some(GiveBack(v)) else None;
            && ReconcileOrderAt(v, io) == target
            && ReconcileAt(v, io).server ==
                 if target.Some? && io.fault.effect then Some(v.server.value.(weight := target.value)) else v.server
    ensures ReconcileAt(v, io) == v.(owned := ReconcileAt(v, io).owned, server := ReconcileAt(v, io).server)
  {
  }

  /** A reconcile that is blocked, knows no configuration, owns nothing or gets no answer does
      nothing. */
  lemma IdleReconcile(v: KeyState, io: KeyIO)
    requires v.blocked || !v.known || v.owned.None? || !io.answered
    ensures ReconcileAt(v, io) == v && ReconcileOrderAt(v, io) == None
  {
  }

  /** When the reconcile of a whole state reaches a key. */
  lemma ReachesKey(s: Sys, io: IO, key: Key)
    ensures Acts(At(s, key), KeyIOAt(io, key)) <==>
            && !s.blocked && s.desired.Some? && io.pidOk && io.readOk
            && NameOf(key) in s.weights && key in s.weights[NameOf(key)]
  {
  }

  /** The same for whole states: what a reconcile leaves of any record. */
  lemma ReconciledRecordOf(s: Sys, io: IO, key: Key)
    requires WellFiled(s) && Acts(At(s, key), KeyIOAt(io, key))
    ensures Leaves(At(s, key), io.At(key), OwnedAt(Reconcile(s, io), key))
  {
    hide Leaves, Reconcile, NameOf, ReconcileAt;
    ReconcileIsPointwise(s, io, key);
    ReconciledRecord(At(s, key), KeyIOAt(io, key));
  }

  /** A name is kept exactly while it drains or still has a record. */
  lemma ReconciledNames(s: Sys, io: IO, name: Name)
    requires WellFiled(s) && ReconcileRuns(s) && io.pidOk && io.readOk
    ensures name in Reconcile(s, io).weights <==>
            && name in s.weights
            && (name in s.drainList || exists key :: NameOf(key) == name && OwnedAt(Reconcile(s, io), key).Some?)
  {
    hide DecisionFor, NameOf, OwnedAfter;
    if name in s.weights {
      var kept := KeptRecords(s, name, io);
      if kept != map[] {
        assert exists key :: key in kept;
        var key :| key in kept;
        assert NameOf(key) == name && OwnedAt(Reconcile(s, io), key) == Some(kept[key]);
      }
      forall key | NameOf(key) == name && OwnedAt(Reconcile(s, io), key).Some? ensures kept != map[] {
        assert key in kept;
      }
    }
  }

  /** Exactly when a reconcile reports an error: it had something to do and could not read the pid or
      the states, or some command it sent was not confirmed. */
  lemma ReconcileErrorIff(s: Sys, io: IO)
    requires WellFiled(s)
    ensures ReconcileFails(s, io) <==>
            && !s.blocked && s.weights != map[] && s.desired.Some?
            && (!io.pidOk || !io.readOk
                || exists key :: UnconfirmedAt(s, io, key))
  {
    hide NameOf, ReconcileOrderAt, Verified;
    assert |s.weights| == 0 <==> s.weights == map[];
    var orders := ReconcileOrders(s, io);
    forall key
      ensures UnconfirmedAt(s, io, key) <==>
              key in orders && key in s.servers && !Verified(io.At(key), s.servers[key].weight, orders[key])
    {
      ReconcileServerAt(s, io, key);
      assert Lookup(orders, key) == ReconcileOrderAt(At(s, key), KeyIOAt(io, key));
      OrderIsKnown(s, io, key);
      if key in s.servers && key in orders {
        ConfirmedIsVerified(io.At(key), s.servers[key].weight, orders[key]);
      }
    }
  }

  predicate UnconfirmedAt(s: Sys, io: IO, key: Key) {
    var order := ReconcileOrderAt(At(s, key), KeyIOAt(io, key));
    order.Some? && key in s.servers && !Confirmed(io.At(key), s.servers[key].weight, order.value)
  }

  lemma OrderIsKnown(s: Sys, io: IO, key: Key)
    ensures key in ReconcileOrders(s, io) ==> key in s.servers
  {
  }

  lemma ConfirmedIsVerified(fault: Fault, before: int, target: int)
    ensures Confirmed(fault, before, target) <==> Verified(fault, before, target)
  {
  }

  // ---------------------------------------------------------------------------------------
  // What a drain leaves
  // ---------------------------------------------------------------------------------------

  /** Which servers a drain zeroes: every enabled one of the endpoint with a weight, whatever backend
      it is in, unless the endpoint drains already or pid, statistics or states cannot be read. */
  predicate Zeroes(s: Sys, name: Name, io: IO, stats: Stats, key: Key) {
    && name != "" && name !in s.drainList && io.pidOk && stats != NoStats && io.readOk
    && key in s.servers && NameOf(key) == name && s.servers[key].admin == 0 && s.servers[key].weight != 0
  }

  /** The record of a server that is zeroed. */
  predicate Recorded(before: Option<DrainWeight>, sv: ServerState, pid: Pid, rec: DrainWeight) {
    && rec.pid == pid
    && rec.weight == (if before.Some? then before.value.weight else sv.weight)
    && rec.initialWeight == (if before.Some? then before.value.initialWeight else sv.initialWeight)
    && (rec.stoppingReload <==> before.Some? && before.value.stoppingReload)
    && (rec.retry <==> before.Some? && before.value.retry)
  }

  /** The commands, the weights and the records of a drain. A record that is there keeps all but its
      process; a new one has the weights found. */
  lemma DrainedKey(s: Sys, name: Name, io: IO, stats: Stats, key: Key)
    requires WellFiled(s)
    ensures var e := Drained(name, io, stats);
            && (key in Orders(s, e) <==> Zeroes(s, name, io, stats, key))
            && (key in Orders(s, e) ==> Orders(s, e)[key] == 0)
    ensures var t := Drain(s, name, io, stats);
            if Zeroes(s, name, io, stats, key) then
              && OwnedAt(t, key).Some? && key in t.servers
              && Recorded(OwnedAt(s, key), s.servers[key], s.pid, OwnedAt(t, key).value)
              && t.servers[key] == s.servers[key].(weight := if io.At(key).effect then 0 else s.servers[key].weight)
            else OwnedAt(t, key) == OwnedAt(s, key) && Lookup(t.servers, key) == Lookup(s.servers, key)
    ensures var t := Drain(s, name, io, stats);
            t.desired == s.desired && t.blocked == s.blocked && t.pid == s.pid
  {
    hide NameOf;
    DrainIsPointwise(s, name, io, stats, key);
    assert At(Drain(s, name, io, stats), key) == StepAt(At(s, key), EventAt(s, Drained(name, io, stats), key));
  }

  /** An apply touches neither records nor the drain list before its reconcile, and takes process
      and servers from the reload. */
  lemma AppliedFields(s: Sys, config: map<Key, DesiredEndpoint>, reload: Reload)
    ensures var t := Applied(s, config, reload);
            && t.weights == s.weights && t.drainList == s.drainList
            && (t.blocked <==> !reload.Succeeded?)
            && t.desired == (if reload.Succeeded? then Some(config) else s.desired)
            && (if reload.NotReached? || reload.process.None? then t.pid == s.pid && t.servers == s.servers
                else t.pid == reload.process.value.pid && t.servers == reload.process.value.servers)
  {
  }
}
