/**
 Values and rules of the drain and weight recovery protocol
 (provider/haproxy/drain_recovery.go and provider/haproxy/haproxy.go).

 One step of the controller is a function `Step` on whole states. What a step does to one
 backend/server key is a function `StepAt` of the small `KeyState` of that key alone;
 `StepIsPointwise` says the two agree, so every theorem about runs is proved on one key.
 */
module DrainModel {
  import opened Prelude

  type Pid = string
  type Key = string   // backend name + "/" + server name
  type Name = string  // server name, the same in every backend the endpoint belongs to

  /** What the controller remembers about a weight it changed. */
  datatype DrainWeight = DrainWeight(weight: int, initialWeight: int, pid: Pid, stoppingReload: bool, retry: bool)

  type Records = map<Key, DrainWeight>

  datatype DesiredEndpoint = DesiredEndpoint(weight: int, disabled: bool, temporaryZero: bool)

  datatype ServerState = ServerState(name: Name, weight: int, initialWeight: int, admin: nat, operational: int)

  type Servers = map<Key, ServerState>

  /** The server name of a key: the text after its last '/'. */
  function NameOf(key: Key): (name: Name)
    ensures '/' !in name
    ensures '/' !in key ==> name == key
  {
    if key == "" then ""
    else if '/' in key[1..] then NameOf(key[1..])
    else if key[0] == '/' then key[1..]
    else key
  }

  /** Bits 0..4 and 6 of the admin state (mask 0x5f): MAINT, DRAIN or a changed FQDN. */
  predicate OperatorAdmin(admin: nat) {
    admin % 32 != 0 || admin / 64 % 2 != 0
  }

  // ---------------------------------------------------------------------------------------
  // Socket outcomes
  // ---------------------------------------------------------------------------------------

  /** One weight command and its readback: did HAProxy change the weight, did the command
      report an error, could the weight be read back. */
  datatype Fault = Fault(effect: bool, error: bool, readback: bool)

  const NO_FAULT := Fault(true, false, true)

  function WeightAfter(f: Fault, before: int, target: int): int {
    if f.effect then target else before
  }

  /** setWeightVerified returns nil. */
  predicate Verified(f: Fault, before: int, target: int) {
    !f.error && f.readback && WeightAfter(f, before, target) == target
  }

  /** Everything the outside decides during one controller step. */
  datatype IO = IO(pidOk: bool, readOk: bool, faults: map<Key, Fault>)
  {
    function At(key: Key): Fault {
      if key in faults then faults[key] else NO_FAULT
    }
  }

  // ---------------------------------------------------------------------------------------
  // What reconcileDrains decides for one owned key
  // ---------------------------------------------------------------------------------------

  datatype Decision =
    | Forget
    | Hold(kept: DrainWeight)
    | Order(pending: DrainWeight, target: int, done: Option<DrainWeight>)

  /** The operator or the configuration has taken the server over. */
  predicate TakenOver(d: Option<DesiredEndpoint>, sv: Option<ServerState>) {
    || sv.None?
    || d.None?
    || d.value.disabled
    || (d.value.weight == 0 && !d.value.temporaryZero)
    || OperatorAdmin(sv.value.admin)
  }

  /** The metadata says the container is stopping. */
  predicate Stopping(d: DesiredEndpoint) {
    d.temporaryZero && d.weight == 0
  }

  function RestoreWeight(rec: DrainWeight, d: DesiredEndpoint): int {
    if d.weight != rec.initialWeight then d.weight else rec.weight
  }

  /** A replacement process that runs the current configuration after a stopping one. */
  predicate RunningReload(rec: DrainWeight, pid: Pid, d: DesiredEndpoint, sv: ServerState) {
    && rec.stoppingReload
    && rec.pid != pid
    && sv.weight > 0
    && sv.initialWeight == d.weight
    && (sv.weight == sv.initialWeight || sv.weight == RestoreWeight(rec, d))
  }

  function DecideDraining(rec: DrainWeight, pid: Pid, d: Option<DesiredEndpoint>, sv: Option<ServerState>): Decision {
    if TakenOver(d, sv) then Forget
    else if sv.value.admin != 0 then Hold(rec)
    else if rec.pid == pid && !rec.retry then
      if sv.value.weight != 0 then Forget else Hold(rec)
    else if rec.pid != pid && Stopping(d.value) && sv.value.initialWeight == 0 && sv.value.weight == 0 then
      Hold(rec.(pid := pid, retry := false, stoppingReload := true))
    else if rec.pid != pid && sv.value.weight == 0 then Hold(rec)
    else if rec.pid != pid && sv.value.weight != sv.value.initialWeight then Forget
    else if rec.pid != pid && sv.value.initialWeight != d.value.weight then Hold(rec)
    else if sv.value.weight == 0 then Hold(rec.(pid := pid, retry := false))
    else Order(rec.(pid := pid, retry := true), 0, Some(rec.(pid := pid, retry := false)))
  }

  function DecideRestore(rec: DrainWeight, pid: Pid, d: DesiredEndpoint, sv: ServerState): Decision {
    var runningReload := RunningReload(rec, pid, d, sv);
    if sv.weight != 0 && !runningReload then Forget
    else if rec.pid != pid && !runningReload then Forget
    else if sv.admin != 0 || sv.operational != 2 then Hold(rec)
    else if sv.weight != RestoreWeight(rec, d) then Order(rec, RestoreWeight(rec, d), None)
    else Forget
  }

  function DecideFinished(rec: DrainWeight, pid: Pid, d: Option<DesiredEndpoint>, sv: Option<ServerState>): Decision {
    if TakenOver(d, sv) then Forget
    else if Stopping(d.value) then
      if sv.value.weight != 0 then Forget
      else if rec.pid != pid && sv.value.initialWeight == 0 then Hold(rec.(pid := pid, stoppingReload := true))
      else Hold(rec)
    else DecideRestore(rec, pid, d.value, sv.value)
  }

  function Decide(draining: bool, rec: DrainWeight, pid: Pid, d: Option<DesiredEndpoint>, sv: Option<ServerState>)
    : (r: Decision)
    ensures r.Order? ==> sv.Some?
  {
    if draining then DecideDraining(rec, pid, d, sv) else DecideFinished(rec, pid, d, sv)
  }

  /** The ownership record after the decision has been carried out. */
  function OwnedAfter(r: Decision, f: Fault, before: int): Option<DrainWeight> {
    match r
    case Forget => None
    case Hold(kept) => Some(kept)
    case Order(pending, target, done) => if Verified(f, before, target) then done else Some(pending)
  }

  /** The server after the decision has been carried out. */
  function ServerAfter(r: Decision, f: Fault, sv: Option<ServerState>): Option<ServerState> {
    if r.Order? && sv.Some? then Some(sv.value.(weight := WeightAfter(f, sv.value.weight, r.target))) else sv
  }

  // ---------------------------------------------------------------------------------------
  // Whole states
  // ---------------------------------------------------------------------------------------

  datatype Sys = Sys(
    weights: map<Name, Records>,
    desired: Option<map<Key, DesiredEndpoint>>,
    drainList: map<Name, Pid>,
    blocked: bool,
    pid: Pid,
    servers: Servers)

  /** Keys are filed under their own server name, and only named endpoints drain. */
  predicate WellFiled(s: Sys) {
    && "" !in s.drainList
    && (forall n, k | n in s.weights && k in s.weights[n] :: NameOf(k) == n)
    && (forall k | k in s.servers :: s.servers[k].name == NameOf(k))
  }

  function Lookup<K, V>(m: map<K, V>, key: K): Option<V> {
    if key in m then Some(m[key]) else None
  }

  function DesiredAt(s: Sys, key: Key): Option<DesiredEndpoint> {
    if s.desired.Some? then Lookup(s.desired.value, key) else None
  }

  function OwnedAt(s: Sys, key: Key): Option<DrainWeight> {
    if NameOf(key) in s.weights then Lookup(s.weights[NameOf(key)], key) else None
  }

  /** The decision for a key filed under `name`. */
  function DecisionFor(s: Sys, name: Name, key: Key): (r: Decision)
    requires name in s.weights && key in s.weights[name]
    ensures r.Order? ==> key in s.servers
  {
    Decide(name in s.drainList, s.weights[name][key], s.pid, DesiredAt(s, key), Lookup(s.servers, key))
  }

  function CurrentWeight(s: Sys, key: Key): int {
    if key in s.servers then s.servers[key].weight else 0
  }

  /** What is left of the records of one name. */
  function KeptRecords(s: Sys, name: Name, io: IO): Records
    requires name in s.weights
  {
    map k | k in s.weights[name] && OwnedAfter(DecisionFor(s, name, k), io.At(k), CurrentWeight(s, k)).Some?
      :: OwnedAfter(DecisionFor(s, name, k), io.At(k), CurrentWeight(s, k)).value
  }

  /** A name whose drain is over goes once it has no record left. */
  predicate NameStays(s: Sys, name: Name, io: IO)
    requires name in s.weights
  {
    name in s.drainList || KeptRecords(s, name, io) != map[]
  }

  function KeptWeights(s: Sys, io: IO): map<Name, Records> {
    map n | n in s.weights && NameStays(s, n, io) :: KeptRecords(s, n, io)
  }

  predicate ReconcileRuns(s: Sys) {
    !s.blocked && |s.weights| != 0 && s.desired.Some?
  }

  /** The weight commands of one reconcile. */
  function ReconcileOrders(s: Sys, io: IO): map<Key, int> {
    if ReconcileRuns(s) && io.pidOk && io.readOk then
      map k | k in s.servers && OrderedAt(s, k) :: DecisionFor(s, NameOf(k), k).target
    else map[]
  }

  predicate OrderedAt(s: Sys, key: Key) {
    NameOf(key) in s.weights && key in s.weights[NameOf(key)] && DecisionFor(s, NameOf(key), key).Order?
  }

  function WriteWeights(servers: Servers, orders: map<Key, int>, io: IO): Servers {
    map k | k in servers ::
      if k in orders then servers[k].(weight := WeightAfter(io.At(k), servers[k].weight, orders[k])) else servers[k]
  }

  /** Some command was not verified. */
  predicate SomeUnverified(servers: Servers, orders: map<Key, int>, io: IO) {
    exists k :: k in orders && k in servers && !Verified(io.At(k), servers[k].weight, orders[k])
  }

  function Reconcile(s: Sys, io: IO): Sys {
    if ReconcileRuns(s) && io.pidOk && io.readOk then
      s.(weights := KeptWeights(s, io),
         servers := WriteWeights(s.servers, ReconcileOrders(s, io), io))
    else s
  }

  /** reconcileDrains returns an error. */
  predicate ReconcileFails(s: Sys, io: IO) {
    ReconcileRuns(s) && (!io.pidOk || !io.readOk || SomeUnverified(s.servers, ReconcileOrders(s, io), io))
  }

  // --- Draining an endpoint ----------------------------------------------------------------

  /** `show stat` for the endpoint: no answer, or whether its current sessions sum to zero,
      and whether an older HAProxy process is still around. */
  datatype Stats = NoStats | Sessions(zero: bool, older: bool)

  predicate Drainable(sv: ServerState, name: Name) {
    sv.name == name && sv.admin == 0 && sv.weight != 0
  }

  function DrainRecord(owned: Option<DrainWeight>, sv: ServerState, pid: Pid): DrainWeight {
    if owned.Some? then owned.value.(pid := pid) else DrainWeight(sv.weight, sv.initialWeight, pid, false, false)
  }

  predicate DrainProceeds(s: Sys, name: Name, io: IO, stats: Stats) {
    name != "" && name !in s.drainList && io.pidOk && stats.Sessions? && io.readOk
  }

  function DrainOrders(s: Sys, name: Name): map<Key, int> {
    map k | k in s.servers && Drainable(s.servers[k], name) :: 0
  }

  function RecordsOf(s: Sys, name: Name): Records {
    if name in s.weights then s.weights[name] else map[]
  }

  function DrainedRecords(s: Sys, name: Name): Records {
    map k | k in RecordsOf(s, name).Keys + DrainOrders(s, name).Keys ::
      if k in DrainOrders(s, name) then DrainRecord(Lookup(RecordsOf(s, name), k), s.servers[k], s.pid)
      else RecordsOf(s, name)[k]
  }

  /** The endpoint enters drainList. */
  predicate Listed(s: Sys, name: Name, io: IO, stats: Stats) {
    && DrainProceeds(s, name, io, stats)
    && !SomeUnverified(s.servers, DrainOrders(s, name), io)
    && (!stats.zero || stats.older)
  }

  function Drain(s: Sys, name: Name, io: IO, stats: Stats): Sys {
    if DrainProceeds(s, name, io, stats) then
      s.(weights := s.weights[name := DrainedRecords(s, name)],
         servers := WriteWeights(s.servers, DrainOrders(s, name), io),
         drainList :=
           if Listed(s, name, io, stats) then s.drainList[name := if stats.zero then "" else s.pid] else s.drainList)
    else s
  }

  function RemoveFromDrain(s: Sys, name: Name): Sys {
    s.(drainList := s.drainList - {name})
  }

  // --- Applying a configuration ------------------------------------------------------------

  datatype Process = Process(pid: Pid, servers: Servers)

  /** How far applyHaproxyConfig gets: an error before the reload command, a reload command
      that reports an error (having replaced the process or not), or a reload command that
      succeeds (having replaced the process, or having found nothing to change). */
  datatype Reload =
    | NotReached
    | Failed(process: Option<Process>)
    | Succeeded(process: Option<Process>)

  function Replace(s: Sys, process: Option<Process>): Sys {
    if process.Some? then s.(pid := process.value.pid, servers := process.value.servers) else s
  }

  /** State when reconcileDrains is called at the end of applyHaproxyConfig. */
  function Applied(s: Sys, config: map<Key, DesiredEndpoint>, reload: Reload): Sys {
    match reload
    case NotReached => s.(blocked := true)
    case Failed(p) => Replace(s, p).(blocked := true)
    case Succeeded(p) => Replace(s, p).(desired := Some(config), blocked := false)
  }

  function Apply(s: Sys, config: map<Key, DesiredEndpoint>, reload: Reload, io: IO): Sys {
    if reload.Succeeded? then Reconcile(Applied(s, config, reload), io) else Applied(s, config, reload)
  }

  // --- Events ------------------------------------------------------------------------------

  datatype Event =
    | Drained(name: Name, io: IO, stats: Stats)          // DrainEndpoint
    | Removed(name: Name)                                // RemoveEndpointFromDrain
    | ApplyConfig(config: map<Key, DesiredEndpoint>, reload: Reload, io: IO)
    | Tick(io: IO)                                       // the five-second timer
    | Runtime(servers: Servers)            // health checks, DNS, the operator

  function Step(s: Sys, e: Event): Sys {
    match e
    case Drained(name, io, stats) => Drain(s, name, io, stats)
    case Removed(name) => RemoveFromDrain(s, name)
    case ApplyConfig(config, reload, io) => Apply(s, config, reload, io)
    case Tick(io) => Reconcile(s, io)
    case Runtime(servers) => s.(servers := servers)
  }

  /** The weight commands of one step. */
  function Orders(s: Sys, e: Event): map<Key, int> {
    match e
    case Drained(name, io, stats) => if DrainProceeds(s, name, io, stats) then DrainOrders(s, name) else map[]
    case ApplyConfig(config, reload, io) =>
      if reload.Succeeded? then ReconcileOrders(Applied(s, config, reload), io) else map[]
    case Tick(io) => ReconcileOrders(s, io)
    case _ => map[]
  }

  /** All steps of a run, in order. */
  function Run(s: Sys, es: seq<Event>): Sys {
    if es == [] then s else Step(Run(s, es[..|es| - 1]), es[|es| - 1])
  }

  // ---------------------------------------------------------------------------------------
  // One key
  // ---------------------------------------------------------------------------------------

  datatype KeyState = KeyState(
    owned: Option<DrainWeight>,
    server: Option<ServerState>,
    known: bool,                        // desired is not nil
    desired: Option<DesiredEndpoint>,
    draining: bool,
    blocked: bool,
    pid: Pid)

  function At(s: Sys, key: Key): KeyState {
    KeyState(OwnedAt(s, key), Lookup(s.servers, key), s.desired.Some?, DesiredAt(s, key),
             NameOf(key) in s.drainList, s.blocked, s.pid)
  }

  datatype KeyIO = KeyIO(answered: bool, fault: Fault)

  datatype KeyProcess = KeyProcess(pid: Pid, server: Option<ServerState>)

  datatype KeyReload =
    | KeyNotReached
    | KeyFailed(process: Option<KeyProcess>)
    | KeySucceeded(process: Option<KeyProcess>)

  datatype KeyEvent =
    | KeyDrained(fault: Fault, listed: bool)
    | KeyRemoved
    | KeyApply(config: Option<DesiredEndpoint>, reload: KeyReload, io: KeyIO)
    | KeyTick(io: KeyIO)
    | KeyRuntime(server: Option<ServerState>)
    | KeyElsewhere

  function KeyIOAt(io: IO, key: Key): KeyIO {
    KeyIO(io.pidOk && io.readOk, io.At(key))
  }

  function KeyProcessAt(p: Option<Process>, key: Key): Option<KeyProcess> {
    if p.Some? then Some(KeyProcess(p.value.pid, Lookup(p.value.servers, key))) else None
  }

  function KeyReloadAt(r: Reload, key: Key): KeyReload {
    match r
    case NotReached => KeyNotReached
    case Failed(p) => KeyFailed(KeyProcessAt(p, key))
    case Succeeded(p) => KeySucceeded(KeyProcessAt(p, key))
  }

  /** What a step looks like from one key. */
  function EventAt(s: Sys, e: Event, key: Key): KeyEvent {
    match e
    case Drained(name, io, stats) =>
      if name == NameOf(key) && DrainProceeds(s, name, io, stats)
      then KeyDrained(io.At(key), Listed(s, name, io, stats))
      else KeyElsewhere
    case Removed(name) => if name == NameOf(key) then KeyRemoved else KeyElsewhere
    case ApplyConfig(config, reload, io) => KeyApply(Lookup(config, key), KeyReloadAt(reload, key), KeyIOAt(io, key))
    case Tick(io) => KeyTick(KeyIOAt(io, key))
    case Runtime(servers) => KeyRuntime(Lookup(servers, key))
  }

  predicate Acts(v: KeyState, io: KeyIO) {
    !v.blocked && v.owned.Some? && v.known && io.answered
  }

  function DecisionAt(v: KeyState): Decision
    requires v.owned.Some?
  {
    Decide(v.draining, v.owned.value, v.pid, v.desired, v.server)
  }

  function WeightAt(v: KeyState): int {
    if v.server.Some? then v.server.value.weight else 0
  }

  function ReconcileAt(v: KeyState, io: KeyIO): KeyState {
    if Acts(v, io) then
      v.(owned := OwnedAfter(DecisionAt(v), io.fault, WeightAt(v)),
         server := ServerAfter(DecisionAt(v), io.fault, v.server))
    else v
  }

  predicate DrainsAt(v: KeyState) {
    v.server.Some? && v.server.value.admin == 0 && v.server.value.weight != 0
  }

  function ReplaceAt(v: KeyState, p: Option<KeyProcess>): KeyState {
    if p.Some? then v.(pid := p.value.pid, server := p.value.server) else v
  }

  function AppliedAt(v: KeyState, config: Option<DesiredEndpoint>, reload: KeyReload): KeyState {
    match reload
    case KeyNotReached => v.(blocked := true)
    case KeyFailed(p) => ReplaceAt(v, p).(blocked := true)
    case KeySucceeded(p) => ReplaceAt(v, p).(known := true, desired := config, blocked := false)
  }

  function DrainAt(v: KeyState, fault: Fault, listed: bool): KeyState {
    var v' := v.(draining := v.draining || listed);
    if DrainsAt(v) then
      v'.(owned := Some(DrainRecord(v.owned, v.server.value, v.pid)),
          server := Some(v.server.value.(weight := WeightAfter(fault, v.server.value.weight, 0))))
    else v'
  }

  function StepAt(v: KeyState, e: KeyEvent): KeyState {
    match e
    case KeyDrained(fault, listed) => DrainAt(v, fault, listed)
    case KeyRemoved => v.(draining := false)
    case KeyApply(config, reload, io) =>
      if reload.KeySucceeded? then ReconcileAt(AppliedAt(v, config, reload), io) else AppliedAt(v, config, reload)
    case KeyTick(io) => ReconcileAt(v, io)
    case KeyRuntime(server) => v.(server := server)
    case KeyElsewhere => v
  }

  /** The weight command a step sends for the key, if any. */
  function OrderAt(v: KeyState, e: KeyEvent): Option<int> {
    match e
    case KeyDrained(_, _) => if DrainsAt(v) then Some(0) else None
    case KeyApply(config, reload, io) =>
      if reload.KeySucceeded? then ReconcileOrderAt(AppliedAt(v, config, reload), io) else None
    case KeyTick(io) => ReconcileOrderAt(v, io)
    case _ => None
  }

  function ReconcileOrderAt(v: KeyState, io: KeyIO): Option<int> {
    if Acts(v, io) && DecisionAt(v).Order? then Some(DecisionAt(v).target) else None
  }

  // ---------------------------------------------------------------------------------------
  // The controller works key by key
  // ---------------------------------------------------------------------------------------

  lemma ReconcileOwnedAt(s: Sys, io: IO, key: Key)
    requires WellFiled(s)
    ensures OwnedAt(Reconcile(s, io), key) == ReconcileAt(At(s, key), KeyIOAt(io, key)).owned
  {
    hide Decide, OwnedAfter, WeightAfter, Verified;
    hide NameOf, ReconcileOrders, WriteWeights;
    var n := NameOf(key);
    if ReconcileRuns(s) && io.pidOk && io.readOk && n in s.weights {
      assert key in KeptRecords(s, n, io) ==> KeptRecords(s, n, io) != map[];
    }
  }

  lemma ReconcileServerAt(s: Sys, io: IO, key: Key)
    ensures Lookup(ReconcileOrders(s, io), key) == ReconcileOrderAt(At(s, key), KeyIOAt(io, key))
    ensures Lookup(Reconcile(s, io).servers, key) == ReconcileAt(At(s, key), KeyIOAt(io, key)).server
  {
    hide Decide, OwnedAfter, WeightAfter, Verified, KeptWeights, NameOf;
  }

  lemma ReconcileIsPointwise(s: Sys, io: IO, key: Key)
    requires WellFiled(s)
    ensures WellFiled(Reconcile(s, io))
    ensures At(Reconcile(s, io), key) == ReconcileAt(At(s, key), KeyIOAt(io, key))
    ensures Lookup(ReconcileOrders(s, io), key) == ReconcileOrderAt(At(s, key), KeyIOAt(io, key))
  {
    hide Decide, OwnedAfter, WeightAfter, Verified, ReconcileOrders, NameOf;
    ReconcileOwnedAt(s, io, key);
    ReconcileServerAt(s, io, key);
  }

  lemma DrainKeepsFiled(s: Sys, name: Name, io: IO, stats: Stats)
    requires WellFiled(s)
    ensures WellFiled(Drain(s, name, io, stats))
  {
    if DrainProceeds(s, name, io, stats) {
      forall k | k in DrainedRecords(s, name) ensures NameOf(k) == name {
        if k in DrainOrders(s, name) {
          assert s.servers[k].name == NameOf(k);
        }
      }
    }
  }

  lemma DrainServerAt(s: Sys, name: Name, io: IO, key: Key)
    requires WellFiled(s)
    ensures Lookup(DrainOrders(s, name), key) == if name == NameOf(key) && DrainsAt(At(s, key)) then Some(0) else None
    ensures Lookup(WriteWeights(s.servers, DrainOrders(s, name), io), key) ==
            if name == NameOf(key) && DrainsAt(At(s, key))
            then Some(s.servers[key].(weight := WeightAfter(io.At(key), s.servers[key].weight, 0)))
            else Lookup(s.servers, key)
  {
  }

  lemma DrainOwnedAt(s: Sys, name: Name, key: Key)
    requires WellFiled(s) && name == NameOf(key)
    ensures Lookup(DrainedRecords(s, name), key) ==
            if DrainsAt(At(s, key)) then Some(DrainRecord(OwnedAt(s, key), s.servers[key], s.pid)) else OwnedAt(s, key)
  {
    DrainServerAt(s, name, IO(true, true, map[]), key);
    assert Lookup(RecordsOf(s, name), key) == OwnedAt(s, key);
  }

  lemma DrainIsPointwise(s: Sys, name: Name, io: IO, stats: Stats, key: Key)
    requires WellFiled(s)
    ensures At(Drain(s, name, io, stats), key) == StepAt(At(s, key), EventAt(s, Drained(name, io, stats), key))
    ensures Lookup(Orders(s, Drained(name, io, stats)), key) ==
            OrderAt(At(s, key), EventAt(s, Drained(name, io, stats), key))
  {
    hide WriteWeights, DrainedRecords, DrainOrders, Listed, NameOf, WeightAfter, DrainRecord, RecordsOf;
    if DrainProceeds(s, name, io, stats) {
      DrainServerAt(s, name, io, key);
      if name == NameOf(key) {
        DrainOwnedAt(s, name, key);
        assert OwnedAt(Drain(s, name, io, stats), key) == Lookup(DrainedRecords(s, name), key);
      } else {
        assert OwnedAt(Drain(s, name, io, stats), key) == OwnedAt(s, key);
      }
    }
  }

  /** Process replacements and outside changes keep server names in their keys. */
  predicate FiledEvent(e: Event) {
    match e
    case ApplyConfig(_, Failed(Some(p)), _) => forall k | k in p.servers :: p.servers[k].name == NameOf(k)
    case ApplyConfig(_, Succeeded(Some(p)), _) => forall k | k in p.servers :: p.servers[k].name == NameOf(k)
    case Runtime(servers) => forall k | k in servers :: servers[k].name == NameOf(k)
    case _ => true
  }

  lemma ReplaceIsPointwise(s: Sys, process: Option<Process>, key: Key)
    requires WellFiled(s)
             && (process.Some? ==> forall k | k in process.value.servers :: process.value.servers[k].name == NameOf(k))
    ensures WellFiled(Replace(s, process))
    ensures At(Replace(s, process), key) == ReplaceAt(At(s, key), KeyProcessAt(process, key))
  {
    hide NameOf;
  }

  lemma ApplyIsPointwise(s: Sys, config: map<Key, DesiredEndpoint>, reload: Reload, io: IO, key: Key)
    requires WellFiled(s) && FiledEvent(ApplyConfig(config, reload, io))
    ensures WellFiled(Applied(s, config, reload))
    ensures At(Applied(s, config, reload), key) == AppliedAt(At(s, key), Lookup(config, key), KeyReloadAt(reload, key))
  {
    hide NameOf, Replace, ReplaceAt, KeyProcessAt;
    if !reload.NotReached? {
      ReplaceIsPointwise(s, reload.process, key);
    }
  }

  lemma StepIsPointwise(s: Sys, e: Event, key: Key)
    requires WellFiled(s) && FiledEvent(e)
    ensures WellFiled(Step(s, e))
    ensures At(Step(s, e), key) == StepAt(At(s, key), EventAt(s, e, key))
    ensures Lookup(Orders(s, e), key) == OrderAt(At(s, key), EventAt(s, e, key))
  {
    hide NameOf, Drain, Reconcile, ReconcileAt, DrainAt, ReconcileOrders, ReconcileOrderAt, DrainOrders, AppliedAt;
    if e.Drained? {
      DrainKeepsFiled(s, e.name, e.io, e.stats);
      DrainIsPointwise(s, e.name, e.io, e.stats, key);
    } else if e.ApplyConfig? {
      ApplyIsPointwise(s, e.config, e.reload, e.io, key);
      if e.reload.Succeeded? {
        ReconcileIsPointwise(Applied(s, e.config, e.reload), e.io, key);
      }
    } else if e.Tick? {
      ReconcileIsPointwise(s, e.io, key);
    }
  }
}
