# Verified model of the load balancer controller

The controller turns Rancher metadata into an HAProxy configuration and, beside it, drains endpoints
at runtime: it sets server weights to zero over the HAProxy socket, remembers which zeros are its own
and in which HAProxy process, follows reloads that replace that process, and later gives the weights
back, unless the operator or the configuration has taken the server over. This project models that
controller and proves what it promises.

## What is modelled

**Drain and weight recovery.** `DrainModel` says what each step of the controller does to the whole
state (ownership records, desired configuration, drain list, recovery block, HAProxy process): a drain,
the end of a drain, an applied configuration with a reload that may fail before or after it replaced the
process, a timer reconcile, and anything that happens at runtime outside the controller. A weight command
can be applied and verified, fail without an effect, or fail after it took effect. `Provider` holds the
controller in its own form: objects that go through maps in any order and update fields step by step.
Each method is proved to take the state exactly to what `DrainModel` says, and to send exactly those
commands. `DrainModel.StepIsPointwise` shows that a step acts on each backend/server key separately; with
it, `DrainRuns`, `DrainLifecycle` and `DrainAuthority` prove theorems about runs of any length.
`DrainRecords` says field by field what a reconcile and a drain leave of a record, and `DrainWaiting` when
an endpoint is listed as draining and when its drain is over.

**From metadata to configuration.** `ServiceEndpoints` expands services, aliases and containers into
endpoints, and `EndpointFields` says which and with what fields. `RuleMerge` runs the port-rule loop and
proves it a group-by; `RuleMergeProperties` says what the groups guarantee, `RouteFields` what backends
and frontends take from which rule, `BackendNames` which backends share a name, and `HostRoutes` which host
patterns HAProxy then serves. `CustomSections`, `ServerLines` and `CustomConfig` parse the custom
configuration text, override defaults and print all configuration texts; `CustomLines` and `CustomText`
say of the text itself what stands where and what is printed for it. `Desired` reads weights back from the
printed server lines. `ServerStates` parses the table of `show servers state` (HAProxy 3.4 management
guide), and `StateLines` says which tables are accepted.
`EndToEnd` composes them: a container that is stopping is configured, printed and read back at weight
zero, and no later step raises it. `Text` and `Sorting` hold the Go string functions and orderings used.

**Task queue.** `TaskQueue` is the worker queue as a system of atomic steps of any number of goroutines,
with an inductive invariant, and as an object whose methods are those steps.

## Assumptions about the environment

- Backend and server names contain no `/`, so that a key has one server name (`WellFiled`, `FiledEvent`).
- A weight command changes the weight of its key or nothing.
- A run starts with the controller, owning nothing, beside a process whose servers are at their initial
  weights (`Start`). Only the theorems about lawful runs need it.
- Configured weights are in 0..256 (`ValidConfig`); only the theorems about lawful runs need it, and
  `EveryOrderHasGrounds` where it says that a raise is positive.
- A reload that replaces the process starts every server at the weight of the attempted configuration
  (`Initialised`), also when the reload command then reports an error.
- A run is lawful as one key sees it (`LawfulRun`); anything may happen to other keys.
- A reload that the script skips as unchanged leaves a process that already runs the attempted
  configuration, or the configuration keeps the endpoint serving (`LawfulAt`). `NoOrphanZero` needs this;
  see the first finding.
- "No operator action" in `LawfulAt` means that health checks and DNS failures may change admin and
  operational state, but no weight and no operator admin bit. All theorems of `DrainAuthority` and
  `EndToEnd` about runs, the provenance of commands among them, allow any runtime change.
- The lifecycle theorems assume that a replacement process has a process ID that neither its predecessor
  nor the record has (`CleanProcess`).
- Characters stand for the bytes of ASCII text; case folding is exact when one side is ASCII, which holds
  for every comparison with a keyword or protocol. The hash that names endpoints is an arbitrary function.

## Findings

- `DrainRuns.SkippedReloadCanOrphanZero`: provider/haproxy/scripts/haproxy_reload copies the new file over
  the current one before `haproxy -c` checks it. If that check fails, a retry of the same configuration is
  skipped as unchanged and reported as a success, while the old process still runs. If the new
  configuration disables the endpoint or sets it to zero, the record of an owned zero is dropped although
  the running process has a positive initial weight. `SkippedReloadKeepsExplanation` says exactly when.
- `DrainAuthority.FailedDrainCanLoseAWeight`: a failed drain over an older record can end at the weight that
  record saved, not at the weight before the failed drain. `FailedDrainRecovers` says exactly when.
- `RuleMerge.WildcardAndExactHostCollapse`: rules for `host`, `*host` and `host*` of one port and path
  share one backend, and the first rule's comparator decides. `SameKeyIff` says exactly which rules share.
- `EndToEnd.EarlierLiveOfferWins`: merging goes by address, so when an earlier rule of the same backend finds
  something live at the address of a stopping container, the backend keeps the live endpoint and its weight.
  `BackendAt` and `StoppingThereIff` say exactly when.
- `HostRoutes.PatternServedIff`: a wildcard host works only as a single star at an end of at least three
  characters, and not with SNI, where the star is dropped and the rest compared as exact text. Any other
  star is compared literally.
- `BackendNames.DistinctKeysShareAName`: hosts or paths that differ only in the characters between their
  words get one backend name, hence the same runtime keys; this is why the theorems on desired weights ask
  for a unique key. `SameNameIff` and `SharedNameIff` say exactly when.
- `ServerLines.MiscasedSectionIsLost`: the lines under a header such as `GLOBAL` or `Defaults` are neither
  merged with the section meant nor printed. `CustomSections.SectionIsPrintedIff` says exactly which sections
  are printed outside frontends and backends; the server lines of a backend that is not configured are not.
- `CustomText.HeaderOfServersAddsText`: custom server lines are filed under the name of their section with
  `_$IP` at the end, and so is the text under a header of that very name; it gets onto the server lines as
  well. `CustomLines.OnlyServerLines` says exactly when.
- `ServerLines.CustomTextOverridesDefaultWeight`: the weight 1 is not printed, so a custom `weight` text on
  the server line wins over it. `WeightRoundTrip` says exactly when the weight survives, and
  `EndToEnd.OwnWeightIsDesired` which weight is read back.
- `ServerLines.BackendsShareTheFirstCookie`: an unnamed stickiness cookie is named after the first named
  backend of a sticky frontend and then shared by all backends after it, in this and in later frontends.

## Model

| member | source | states |
|---|---|---|
| DrainModel.NameOf | provider/haproxy/drain_recovery.go:101-102 | the server name of a key has no `/`, and a text without `/` is its own name |
| DrainModel.ReconcileIsPointwise | provider/haproxy/drain_recovery.go:175-315 | a reconcile's record, server, and command for a key depend on that key alone, whatever order the maps are ranged in |
| DrainModel.DrainIsPointwise | provider/haproxy/drain_recovery.go:149-173 | the same for a drain |
| DrainModel.DrainKeepsFiled | provider/haproxy/drain_recovery.go:149-173 | a drain files new records under the server name of their key |
| DrainModel.ApplyIsPointwise | provider/haproxy/haproxy.go:149-202 | the same for the reload and the desired state of an apply |
| DrainModel.StepIsPointwise | provider/haproxy/haproxy.go:149-245 | every controller step keeps the state well filed and acts key by key, command included |
| DrainRuns.InvariantHolds | provider/haproxy/haproxy.go:540-558 | a property of one key kept by every allowed step holds after any run |
| DrainRuns.ReconcileKeepsExplained | provider/haproxy/drain_recovery.go:175-315 | a reconcile with any command outcome leaves every zero explained |
| DrainRuns.AppliedKeepsExplained | provider/haproxy/haproxy.go:149-202 | so does an apply that fails or succeeds, with or without a new process |
| DrainRuns.NoOrphanZero | provider/haproxy/drain_recovery.go:147-315 | in every run that is lawful for the key, whatever happens to other keys, a zero runtime weight is the running process's configured zero or is recorded for this very process with a positive saved weight |
| DrainRuns.NoOrphanZeroWhileServing | provider/haproxy/drain_recovery.go:147-315 | if every applied configuration keeps the endpoint present, enabled and positive, every zero is so recorded |
| DrainRuns.SkippedReloadKeepsExplanation | provider/haproxy/scripts/haproxy_reload:71-85 | after a skipped reload an owned zero stays explained if and only if the reconcile gets no answer or the new configuration does not take the server over |
| DrainRuns.SkippedReloadCanOrphanZero | provider/haproxy/scripts/haproxy_reload:58-69 | a run from the start (a configuration, a drain, a failed apply, the same apply again) that ends with an orphan zero, lawful up to the skipped reload |
| DrainLifecycle.StoppingReloadBinds | provider/haproxy/drain_recovery.go:215-224 | an answered reconcile after a stopping reload, of an apply or of the timer, binds the record to the new process and keeps the saved weight |
| DrainLifecycle.StoppingRun | provider/haproxy/drain_recovery.go:260-274 | through any stopping phase, with failures of pid, socket and commands at any time, the saved weight stays, and the record is marked if and only if some answered reconcile saw a stopping reload |
| DrainLifecycle.WeightSurvivesStopping | provider/haproxy/drain_recovery.go:260-308 | drained at weight w, any number of stopping reloads of which any answered reconcile has seen one, the running configuration again with any further failed or repeated applies of it, a clean reconcile when healthy: the weight is exactly w and nothing is owned |
| DrainLifecycle.UnseenReloadForgets | provider/haproxy/drain_recovery.go:290-296 | if no reconcile has seen a stopping reload, the first answered one of the running process drops the record and leaves the configured weight |
| DrainLifecycle.EveryReachableStateRecovers | provider/haproxy/drain_recovery.go:253-309 | after any lawful run, once the drain is over and the endpoint is configured to serve and healthy, one clean timer reconcile leaves a positive weight and no record |
| DrainLifecycle.DrainZeroes | provider/haproxy/drain_recovery.go:157-168 | a verified drain of a healthy server establishes the premise of `WeightSurvivesStopping` with the weight it found |
| DrainLifecycle.DrainFollows | provider/haproxy/drain_recovery.go:157-168 | a listed, verified drain of a healthy server establishes the premise of `ActiveDrainFollowsReloads` with the weights it found |
| DrainLifecycle.ActiveDrainFollowsReloads | provider/haproxy/drain_recovery.go:195-251 | across any number of running reloads and failures an active drain is zero again after one clean reconcile with the first saved weight kept; after removal the next one restores that weight, or the edited configured weight |
| DrainLifecycle.EitherOrder | provider/haproxy/drain_recovery.go:215-224 | end of drain and stopping apply commute if and only if the key is not waiting for its drain command to be repeated |
| DrainLifecycle.EitherOrderZeroed | provider/haproxy/drain_recovery.go:265-274 | for a verified zero and a server without admin bits they always commute |
| DrainLifecycle.EitherOrderOfRun | provider/haproxy/haproxy.go:418-425 | the same for the two orders of steps of a whole state |
| DrainAuthority.ReconcileOrderIff | provider/haproxy/drain_recovery.go:195-308 | exactly when a reconcile sends a weight command for a key, and with which weight |
| DrainAuthority.FlagHasWitness | provider/haproxy/drain_recovery.go:219-222 | a record marked as seen in a stopping process was bound to such a process at some earlier point of the run, with the same saved weight |
| DrainAuthority.EveryOrderHasGrounds | provider/haproxy/drain_recovery.go:149-308 | in every run from a state that does not own the key, whatever operators, reloads and failures do, each command goes to an owned key: zero only to drained names, anything else only to others, never zero, the saved or the edited weight, in the recorded process or after a stopping process was seen; positive if weights from outside are in range |
| DrainAuthority.UnverifiedReconcileKeepsRecord | provider/haproxy/drain_recovery.go:243-246 | a failed or unverified command of a reconcile never loses the record or its saved weight |
| DrainAuthority.DrainKeepsRecords | provider/haproxy/drain_recovery.go:147-171 | a drain, failed or not, records every key it commands and replaces no saved weight |
| DrainAuthority.FailedDrainRecovers | provider/haproxy/haproxy.go:387-394 | after a failed drain one clean reconcile leaves no record, and the weight from before if and only if there was no older record, the zero had no effect, or that record saved the same weight |
| DrainAuthority.FailedDrainIsUndone | provider/haproxy/haproxy.go:387-408 | the same for a drain step of a whole state that did not get the endpoint listed |
| DrainAuthority.FailedDrainCanLoseAWeight | provider/haproxy/haproxy.go:387-394 | a run from the start in which a failed drain ends at an older saved weight, not at the weight from before |
| DrainAuthority.OperatorWins | provider/haproxy/drain_recovery.go:202-232 | operator admin bits, a disabled or zero configuration, a nonzero weight after the verified zero, or in a replacement process a weight neither zero nor its initial one: no command, and ownership is dropped unless a DNS failure makes an active drain wait |
| DrainAuthority.UnownedIsLeftAlone | provider/haproxy/drain_recovery.go:14-16 | without a record no step of any run touches the key until a drain records it |
| DrainAuthority.OperatorIsLeftAlone | provider/haproxy/drain_recovery.go:253-259 | once a reconcile, of the timer or of an apply, has found the operator or the configuration in charge, neither it nor any later step of a run without a new drain of the key sends a command for it |
| DrainAuthority.LastApply | provider/haproxy/haproxy.go:149-202 | the last attempted apply of a run, if there is one |
| DrainAuthority.DesiredIsTheLastAttempt | provider/haproxy/haproxy.go:152-201 | recovery is blocked if and only if the last apply failed; otherwise the desired state is that of the last attempt |
| DrainAuthority.SilentUntilApplied | provider/haproxy/drain_recovery.go:176-178 | after a failed apply no timer reconcile sends or changes anything until an apply succeeds |
| DrainAuthority.ReconcileSettles | provider/haproxy/drain_recovery.go:189-314 | after a reconcile whose commands are all verified a second one sends nothing and changes nothing |
| DrainRecords.OperatorBits | provider/haproxy/drain_recovery.go:40-43 | bit by bit which admin states are the operator's: all maintenance and drain bits, forced and inherited, and a changed FQDN, but not a failed resolution |
| DrainRecords.ReconciledRecordOf | provider/haproxy/drain_recovery.go:195-309 | exactly when an answered reconcile leaves no record of a key, and otherwise its process, saved weights, mark and retry, in terms of the fields of record, server, desired endpoint and command outcome |
| DrainRecords.ReconciledServer | provider/haproxy/drain_recovery.go:195-308 | exactly which weight it sends and what becomes of the server |
| DrainRecords.ReconciledNames | provider/haproxy/drain_recovery.go:310-312 | a name is kept exactly while it drains or has a record left |
| DrainRecords.ReconcileErrorIff | provider/haproxy/drain_recovery.go:175-194 | a reconcile fails exactly if it has something to do and cannot read pid or states, or a command it sends is not confirmed |
| DrainRecords.DrainedKey | provider/haproxy/drain_recovery.go:149-173 | exactly which servers a drain zeroes, and the record of each: a new one with the weights found, or the old one in this process |
| DrainRecords.AppliedFields | provider/haproxy/haproxy.go:149-201 | what an apply has changed before its reconcile, for each way the reload can end |
| DrainWaiting.ReadCurrentStats | provider/haproxy/haproxy.go:321-353 | the sum of the current sessions of an endpoint, or an error without a line of it or with a malformed count |
| DrainWaiting.TotalIsZeroIff | provider/haproxy/haproxy.go:334-350 | the sum is known exactly if every count is a number or empty, and without negative counts it is zero exactly if all are |
| DrainWaiting.ListedIff | provider/haproxy/haproxy.go:375-416 | a named endpoint, everything answered and confirmed, is left unlisted if and only if it has no sessions and there is no older process; otherwise it is listed under the current process, or under none if it has no sessions |
| DrainWaiting.ListedIsNotDrained | provider/haproxy/haproxy.go:247-305 | an endpoint just listed is not reported drained on the same statistics |
| DrainWaiting.DrainedLeavesNothing | provider/haproxy/haproxy.go:247-319 | an endpoint reported drained was listed, and has no sessions in the process it was listed under, or that process is gone, or nothing is left at all |
| DrainWaiting.DrainEnds | provider/haproxy/haproxy.go:247-319 | once there are no sessions and no other process, every listed endpoint is reported drained |
| Provider.Haproxy.SetWeight | provider/haproxy/drain_recovery.go:119-130 | the command reaches HAProxy, changes at most this key, and is refused for an unknown server |
| Provider.Haproxy.SetWeightVerified | provider/haproxy/drain_recovery.go:132-145 | succeeds exactly if the server is known, the command reported no error and the readback shows the weight |
| Provider.DrainMgr.ReapplyDrain | provider/haproxy/drain_recovery.go:199-250 | one record of an active drain: record, server, command and error as decided |
| Provider.DrainMgr.ZeroAgain | provider/haproxy/drain_recovery.go:237-249 | the record is marked for retry before the zero is sent and cleared only after it is verified |
| Provider.DrainMgr.RecoverWeight | provider/haproxy/drain_recovery.go:253-309 | one record of a finished drain, likewise |
| Provider.DrainMgr.RestoreWeight | provider/haproxy/drain_recovery.go:275-308 | the restoring part: the record goes only after the verified readback |
| Provider.DrainMgr.ReconcileName | provider/haproxy/drain_recovery.go:194-313 | all records of one name in any order; the name goes with its last record unless it is draining |
| Provider.DrainMgr.ReconcileNames | provider/haproxy/drain_recovery.go:193-314 | all names in any order: records, servers, the bag of commands and the error |
| Provider.DrainMgr.DrainServer | provider/haproxy/drain_recovery.go:161-170 | the record is saved, or rebound to the process, before the zero is sent |
| Provider.DrainMgr.DrainEndpoint | provider/haproxy/drain_recovery.go:149-173 | all servers of the endpoint in any order |
| Provider.DrainMgr.AddEndpointForDrain | provider/haproxy/haproxy.go:375-416 | the whole drain step, when the endpoint is listed, and when the caller has to wait |
| Provider.DrainMgr.RemoveEndpointFromDrain | provider/haproxy/haproxy.go:418-425 | the name leaves the drain list and nothing else changes |
| Provider.DrainMgr.IsEndpointUpForDrain | provider/haproxy/haproxy.go:427-436 | whether a name is listed, and under which process |
| Provider.Provider.IsEndpointDrained | provider/haproxy/haproxy.go:247-305 | answers as `DrainWaiting.IsDrained` says of the entry, the current pid and what could be asked |
| Provider.DrainMgr.SetDesired | provider/haproxy/drain_recovery.go:45-69 | the desired state becomes what the configuration says |
| Provider.Provider.ReconcileDrains | provider/haproxy/drain_recovery.go:175-315 | takes the state to `Reconcile` of it, sends exactly its commands, and fails exactly if it should |
| Provider.Provider.Tick | provider/haproxy/haproxy.go:549-556 | one turn of the timer is the timer step |
| Provider.Provider.DrainEndpoint | provider/haproxy/haproxy.go:229-239 | a drain request is the drain step on the statistics found; the caller has to wait exactly if the endpoint is listed afterwards |
| Provider.Provider.RemoveEndpointFromDrain | provider/haproxy/haproxy.go:241-245 | the end of a drain is the removal step |
| Provider.Provider.RunReload | provider/haproxy/haproxy.go:196-198 | the reload command may replace the process whether or not it reports an error |
| Provider.Provider.ApplyHaproxyConfig | provider/haproxy/haproxy.go:149-202 | blocks recovery, reloads, sets the desired state, unblocks and reconciles, in this order; each failure leaves the state of that point |
| Text.FieldsOfConcat | provider/haproxy/drain_recovery.go:51 | white space separates the words of two texts |
| Text.FieldsOfJoin | provider/haproxy/drain_recovery.go:86 | words joined by blanks are read back as the same words |
| Text.AtoiOfItoa | provider/haproxy/drain_recovery.go:57-59 | every 64-bit integer is read back from its decimal text |
| Text.AtoiIff | provider/haproxy/drain_recovery.go:94-97 | a text is read as a 64-bit number exactly if it is the number's decimal digits after any zeros, with a sign as the number allows |
| Text.DigitsAre | provider/haproxy/haproxy_config_util.go:237 | a number is printed as its decimal digits |
| Text.TrimSpaceIs | provider/haproxy/haproxy_config_util.go:97 | trimming cuts white space off both ends, and nothing else |
| Text.FoldIs | provider/haproxy/haproxy_config_util.go:87 | letters are compared up to case, other ASCII characters exactly |
| Desired.ReadEndpoint | provider/haproxy/drain_recovery.go:50-61 | the word loop reads the last valid weight, any `disabled`, and the stopping mark |
| Desired.DesiredOfLine | provider/haproxy/drain_recovery.go:50-61 | the weight of a line is the number after the last "weight" that a number follows, and 1 if there is none; it is disabled exactly if that word occurs |
| Desired.ReadDesired | provider/haproxy/drain_recovery.go:46-65 | later endpoints overwrite earlier ones with the same key |
| Desired.DesiredHasPlace | provider/haproxy/drain_recovery.go:47-63 | every desired entry is what the last endpoint with that key says, in the order of frontends, backends and endpoints |
| Desired.UniqueKeyDesired | provider/haproxy/drain_recovery.go:47-63 | an endpoint whose key is unique is desired as its own server line says |
| ServerStates.RowOfIff | provider/haproxy/drain_recovery.go:94-102 | a row is accepted as a state under a key if and only if backend and server are named, the key joins them, and the four fields denote the state's numbers, all in range |
| ServerStates.ReadLine | provider/haproxy/drain_recovery.go:78-103 | one line of the answer: heading, blank, row or error |
| ServerStates.ReadServerStates | provider/haproxy/drain_recovery.go:71-117 | the loops compute the table, or fail on a missing heading, a missing column, a wrong column count or a bad field |
| ServerStates.ParsedStatesValid | provider/haproxy/drain_recovery.go:98-100 | any successful parse yields weights in 0..256 and operational states in 0..3 |
| ServerStates.TableRoundTrip | provider/haproxy/drain_recovery.go:71-117 | any servers printed as a table, with columns and rows in any order, any other columns and any blank lines at the end, are read back unchanged |
| StateLines.RowSaysIff | provider/haproxy/drain_recovery.go:86-102 | what one row says under its columns, the last of each name, on the words of both lines |
| StateLines.AcceptedIff | provider/haproxy/drain_recovery.go:78-116 | an answer is accepted if and only if it has a heading, the last one names all six columns, and every other line below a heading is blank or a row with one value for each column and six good fields |
| StateLines.StatesAreLastRows | provider/haproxy/drain_recovery.go:78-103 | and then each server has the state of the last row for its key, and there are no others |
| ServerStates.NameOfKey | provider/haproxy/drain_recovery.go:101-102 | the name of a backend/server key is the server name, whatever the backend is called |
| Sorting.Sort | controller/rancher/rancher.go:695-697 | a sorted permutation, ascending or descending by key |
| Sorting.SortedIsUnique | provider/haproxy/haproxy_config_util.go:276-278 | sorting strings has one result |
| Sorting.InOrderIff | controller/rancher/rancher.go:695-697 | the order is by the first character that differs, a prefix first, or the other way round |
| ServiceEndpoints.ContainerEndpoint | controller/rancher/rancher.go:763-781 | an endpoint exactly for running, starting and stopping containers; a stopping one is marked and has weight zero |
| ServiceEndpoints.RegularServiceEndpoints | controller/rancher/rancher.go:742-761 | the local live endpoints, or with "prefer-local" the remote ones when there are no local ones |
| ServiceEndpoints.RegularEndpointOrigin | controller/rancher/rancher.go:742-761 | every endpoint is a live container's; a remote one is used only as the preference allows |
| EndpointFields.ContainerEndpointIs | controller/rancher/rancher.go:763-781 | the fields of a container's endpoint, which states have one, and when it is only a contingency |
| EndpointFields.RegularAre | controller/rancher/rancher.go:742-761 | a regular service has one endpoint for each container that is used, in their order: those alive and not remote, or all if "prefer-local" finds none of these |
| EndpointFields.ExternalAre | controller/rancher/rancher.go:719-740 | an external service has one endpoint for each address and one for its host name |
| EndpointFields.FailsIff | controller/rancher/rancher.go:681-717 | expanding a service fails if and only if some chain of links leads to one whose lookup fails |
| EndpointFields.FoundIff | controller/rancher/rancher.go:681-717 | otherwise an endpoint is found if and only if some chain of links leads to a service that has it as its own |
| EndpointFields.CountsAdd | controller/rancher/rancher.go:700-717 | it is found once for each link it is found under |
| ServiceEndpoints.AnyLinkFirst | controller/rancher/rancher.go:702-715 | the endpoints of an alias are the same whichever link is taken first |
| ServiceEndpoints.GetServiceEndpoints | controller/rancher/rancher.go:681-698 | unless the links reached form a cycle: the multiset sum of all leaf endpoints sorted by descending IP, or an error exactly if some lookup fails |
| ServiceEndpoints.GetAliasServiceEndpoints | controller/rancher/rancher.go:700-717 | the same sum for the links of one alias, in any order |
| RuleMerge.SameKeyIff | controller/rancher/rancher.go:378-379 | two rules share a backend exactly if their ports agree and their hosts and paths agree once joined by `_`; hosts without `_` must agree themselves |
| RuleMerge.WildcardAndExactHostCollapse | controller/rancher/rancher.go:368-379 | a wildcard host, with its star at either end, and the exact host of the same text share a backend though their comparators differ |
| RuleMerge.WeighAll | controller/rancher/rancher.go:410-417 | all endpoints of a first rule get its weight unless stopping |
| RuleMerge.AddEndpoints | controller/rancher/rancher.go:381-390 | a later rule adds only new IPs, with its weight unless stopping |
| RuleMerge.MergeRule | controller/rancher/rancher.go:379-420 | one eligible rule changes the backend of its key and the frontend of its port only |
| RuleMerge.NextRule | controller/rancher/rancher.go:308-421 | one round of the loop extends the group-by, skips the rule or fails |
| RuleMerge.MergeRules | controller/rancher/rancher.go:305-421 | the loop computes the group-by: one frontend per port with an eligible rule, one backend per rendered key, fields of the first rule of each group; it fails exactly if a target cannot be looked up |
| RouteFields.RouteIs | controller/rancher/rancher.go:360-376 | what a rule compares: its own path and the host its pattern leaves for HTTP, HTTPS and SNI, nothing otherwise |
| RouteFields.PathsApart | controller/rancher/rancher.go:378-379 | rules of one port and hostname share a backend if and only if their paths are the same |
| RouteFields.PortsApart | controller/rancher/rancher.go:360-379 | rules of other protocols share a backend if and only if their ports are the same |
| RouteFields.KeysAre | controller/rancher/rancher.go:308-421 | there is a backend for exactly the keys of the rules with a port and endpoints |
| RouteFields.BackendFields | controller/rancher/rancher.go:391-408 | path, host text, comparator, port, protocol, priority, health check and name of a backend are those of the first rule of its key |
| RouteFields.FrontendFields | controller/rancher/rancher.go:309-322 | there is a frontend for exactly the ports of such rules, with number and protocol of the first, listing exactly the keys of all |
| RouteFields.ServiceFields | controller/rancher/rancher.go:423-428 | a frontend carries its own backends and nothing else |
| RuleMergeProperties.GroupIPs | controller/rancher/rancher.go:381-417 | the IPs of a backend are exactly those offered by the rules of its group |
| RuleMergeProperties.EachEndpointComesFrom | controller/rancher/rancher.go:381-417 | each endpoint comes from the first rule that offers its IP and carries that rule's weight, or its own if stopping |
| RuleMergeProperties.LaterIPsAppearOnce | controller/rancher/rancher.go:381-390 | the endpoints of the first rule stay in front, and every IP added later appears once |
| RuleMergeProperties.GroupAt | controller/rancher/rancher.go:381-417 | exactly what the merged rules of one backend have at an address, in terms of the first rule that offers it |
| RuleMergeProperties.BackendHasOneFrontend | controller/rancher/rancher.go:378-409 | each backend is listed once, by the frontend of its own port and by no other |
| RuleMergeProperties.ListedBackendExists | controller/rancher/rancher.go:408-409 | a frontend lists only backends that exist |
| RuleMergeProperties.Assemble | controller/rancher/rancher.go:423-428 | each frontend appears once with its own backends |
| RuleMergeProperties.GroupByIsComplete | controller/rancher/rancher.go:408-420 | after the rule loop every listed backend exists |
| BackendNames.NameKeepsLetters | config/config.go:178-185 | a formulated backend name keeps the letters and digits of its key in order |
| BackendNames.NameShape | config/config.go:178-185 | it has single underscores between them, and one at an end exactly if the key has another character there |
| BackendNames.SameNameIff | config/config.go:178-185 | two keys get the same name if and only if they have the same runs of letters and digits in the same order and agree on whether they start and end in another character |
| BackendNames.SeparatorsAreForgotten | config/config.go:178-185 | keys that differ in one such character get the same name |
| BackendNames.SharedNameIff | controller/rancher/rancher.go:392-396 | two eligible rules that name no backend get the same backend name if and only if their ports agree and their hosts and paths have the same words and the same end |
| BackendNames.DistinctKeysShareAName | controller/rancher/rancher.go:378-396 | two rules with different rendered keys and one backend name |
| HostRoutes.SupportedIsServed | provider/haproxy/config/haproxy_template.cfg:30-44 | for a supported pattern the acl accepts exactly the hosts the pattern stands for |
| HostRoutes.UnsupportedIsNotServed | provider/haproxy/config/haproxy_template.cfg:30-44 | every other pattern stands for some host that its acl refuses |
| HostRoutes.PatternServedIff | controller/rancher/rancher.go:360-376 | a rule is served for exactly the hosts its pattern stands for if and only if it has no star, or one at an end of at least three characters without SNI, or a colon |
| CustomSections.BodyIsNoSectionName | provider/haproxy/haproxy_config_util.go:107-131 | the case-insensitive section test of the override loop never holds for a line that reaches it |
| CustomSections.ReadKind | provider/haproxy/haproxy_config_util.go:101-127 | the tests on one line: blank, server line, header or body |
| CustomSections.DropOverridden | provider/haproxy/haproxy_config_util.go:130-134 | exactly the defaults whose words start the line are dropped, in any order |
| CustomSections.ReadLines | provider/haproxy/haproxy_config_util.go:95-135 | after the line loop every text is filed under the section of the last header before it, and exactly the defaults that no line overrides are left |
| CustomSections.DefaultSurvivesIff | provider/haproxy/haproxy_config_util.go:128-134 | a default survives if and only if no body line of a section named exactly so starts with its words |
| CustomSections.PrintDefaults | provider/haproxy/haproxy_config_util.go:138-144 | the text of the surviving defaults does not depend on map order |
| CustomSections.AppendDefaults | provider/haproxy/haproxy_config_util.go:137-145 | every section with defaults gets them as its last text |
| CustomSections.PrintGlobal | provider/haproxy/haproxy_config_util.go:243-267 | the text outside frontends and backends does not depend on map order |
| CustomSections.SectionIsPrintedIff | provider/haproxy/haproxy_config_util.go:243-267 | the text outside frontends and backends depends on a section other than "global" and "defaults" if and only if it is one of the extra sections |
| CustomSections.MiscasedSectionIsDropped | provider/haproxy/haproxy_config_util.go:85-127 | a header equal to "global", "defaults" or "backend" only up to case opens a section of its own that this text does not depend on |
| CustomSections.UnusedServerLinesAreDropped | provider/haproxy/haproxy_config_util.go:257-259 | nor does it depend on the server lines of a backend |
| CustomLines.KindIs | provider/haproxy/haproxy_config_util.go:95-127 | each line is taken for what it is: blank, parameters for servers, a section header in any letter case, or text |
| CustomLines.HeaderOpens | provider/haproxy/haproxy_config_util.go:120-125 | a header opens the section of its word and, after one blank, the rest of the line |
| CustomLines.StandsIff | provider/haproxy/haproxy_config_util.go:94-127 | a line stands in the section that the header closest to it opens |
| CustomLines.FiledIs | provider/haproxy/haproxy_config_util.go:107-127 | the texts filed under a name are the text lines of that section, and under the name of a section's servers what follows "server $IP" in it, in the order of the text |
| CustomLines.OverriddenIff | provider/haproxy/haproxy_config_util.go:130-134 | a default is overridden exactly by a text line of its section that starts with its words |
| CustomLines.OnlyServerLines | provider/haproxy/haproxy_config_util.go:107-119 | the servers of a section get its server lines and nothing else if and only if there is no text under a header that ends in `_$IP` |
| CustomLines.OnlyTextLines | provider/haproxy/haproxy_config_util.go:127 | under any other name there are only text lines |
| CustomText.SplitLinesIs | provider/haproxy/haproxy_config_util.go:95 | the lines of a text have no line end and joined by line ends are the text |
| CustomText.DefaultTextIs | provider/haproxy/haproxy_config_util.go:137-145 | the text of defaults has one line for each, with the words of directive and value, sorted |
| CustomText.ServerLineIs | provider/haproxy/haproxy_config_util.go:208-239 | from the text to the output: a printed server line starts with the words of its backend's server lines in order, followed by check, resolvers, cookie and weight |
| CustomText.HeaderOfServersAddsText | provider/haproxy/haproxy_config_util.go:120-127 | text under a header such as `backend foo_$IP` gets onto the server lines of `foo` |
| CustomText.BackendIs | provider/haproxy/haproxy_config_util.go:174-206 | a printed backend has the text lines of its section and of "backend", what is left of the defaults, its check timeout and request and its cookie, one per line |
| CustomText.FrontendIs | provider/haproxy/haproxy_config_util.go:155-165 | a printed frontend has the text lines of its section but for "accept-proxy", which sets the mark |
| CustomText.GlobalIs | provider/haproxy/haproxy_config_util.go:243-267 | the rest of the output: "global" and "defaults" with what is left of their defaults, then exactly the sections that nothing else uses, sorted |
| CustomText.PolicyIs | provider/haproxy/haproxy_config_util.go:149-191 | the policy afterwards is the given one with the given cookie or the first name |
| ServerLines.UnusedSectionIsNotPrinted | provider/haproxy/haproxy_config_util.go:148-241 | texts of frontends, backends and servers do not depend on a section that none of them asks for |
| ServerLines.MiscasedSectionIsLost | provider/haproxy/haproxy_config_util.go:94-267 | the lines under a header equal to "global" or "defaults" only up to case have no part in any produced text |
| ServerLines.WeightRoundTrip | provider/haproxy/haproxy_config_util.go:236-238 | after any custom text the weight read back is the endpoint's if and only if it is in 0..256 and not 1, or the text says the same |
| ServerLines.ServerLineWords | provider/haproxy/haproxy_config_util.go:208-238 | a printed server line is read as the custom words, the health check with its own port, interval and thresholds, the resolvers of a host name, the cookie and the weight |
| ServerLines.CustomTextOverridesDefaultWeight | provider/haproxy/haproxy_config_util.go:236-238 | with weight 1 a custom weight is read instead |
| ServerLines.PolicyAfterIs | provider/haproxy/haproxy_config_util.go:149-154 | after any frontends the shared policy has the given cookie, or the first name of any backend of a sticky frontend so far |
| ServerLines.BackendsShareTheFirstCookie | provider/haproxy/haproxy_config_util.go:187-206 | every backend of every sticky frontend prints the given cookie, or the first name of all backends of sticky frontends up to itself |
| ServerLines.BackendTextIs | provider/haproxy/haproxy_config_util.go:174-206 | a backend prints its custom lines, its check timeout and request and its cookie, one line each |
| ServerLines.BackendLinesRead | provider/haproxy/haproxy_config_util.go:177-206 | these lines are read as the timeout and request of its own health check and the cookie |
| ServerLines.CookieLineRead | provider/haproxy/haproxy_config_util.go:192-204 | the cookie line is read as the cookie, the mode, exactly the options that are set and the domain |
| CustomConfig.DefaultConfig | provider/haproxy/haproxy_config_util.go:11-54 | defaults exist for section keywords only |
| CustomConfig.BuildBackend | provider/haproxy/haproxy_config_util.go:168-240 | the texts of one backend and its server lines, and the cookie it may name |
| CustomConfig.ReadFrontendValues | provider/haproxy/haproxy_config_util.go:156-163 | "accept-proxy" lines are taken out and set the flag |
| CustomConfig.BuildFrontend | provider/haproxy/haproxy_config_util.go:148-241 | the texts of one frontend |
| CustomConfig.BuildCustomConfig | provider/haproxy/haproxy_config_util.go:94-270 | parser, defaults, frontends and remaining sections together |
| CustomConfig.BuildIsDeterministic | provider/haproxy/haproxy_config_util.go:94-270 | whatever order maps are ranged in, all produced texts are the same |
| CustomConfig.BuiltEndpoint | provider/haproxy/haproxy_config_util.go:208-239 | names, weights and stopping marks pass through, and each server line ends in its weight text |
| CustomConfig.BuiltPlace | provider/haproxy/haproxy_config_util.go:148-241 | every frontend, backend and endpoint of the input has its place in the output, and there are no others |
| TaskQueue.EveryRunIsConsistent | utils/utils.go:24-98 | in every run keys appended are keys synced followed by keys queued, the queue has no duplicates and equals `pending`, no wakeup is lost, and a stop ends appending |
| TaskQueue.ShutdownEndsAppending | utils/utils.go:87-98 | after a Shutdown no run appends a key; what waits stays, and the first stop owes a token |
| TaskQueue.EnqueueIsOwedASync | utils/utils.go:59-80 | every Enqueue before a stop, coalesced or not, has a place that no sync has reached; a later sync is for it |
| TaskQueue.SecondEnqueueCoalesces | utils/utils.go:69-72 | a second Enqueue of a waiting key changes nothing |
| TaskQueue.QueueDrains | utils/utils.go:38-57 | without new work the worker rests after a bounded number of steps, and has then synced every key in order unless it was stopped |
| TaskQueue.Tasks.PopLocked | utils/utils.go:24-34 | the locked part of pop is the pop step |
| TaskQueue.Tasks.EnqueueLocked | utils/utils.go:60-75 | the locked part of Enqueue is the enqueue step and says whether a token is due |
| TaskQueue.Tasks.OfferToken | utils/utils.go:76-79 | the non-blocking send fills the wake channel |
| TaskQueue.Tasks.Enqueue | utils/utils.go:59-80 | an undisturbed Enqueue leaves the key waiting and, if it was appended, a token |
| TaskQueue.Tasks.ShutdownLocked | utils/utils.go:88-92 | the first Shutdown stops appending and owes a token |
| TaskQueue.Tasks.Select | utils/utils.go:46-55 | the two branches of select are the stop and the wake step |
| EndToEnd.LeavesStopAt | controller/rancher/rancher.go:681-781 | if everything at an address is stopping wherever the links of a service lead, every leaf endpoint there is marked and has weight zero, however deep the links go |
| EndToEnd.FirstOfferDecides | controller/rancher/rancher.go:380-418 | each endpoint of a backend is one of the first rule that offers its address to that backend, at that rule's weight or, if stopping, its own |
| EndToEnd.MergedStopsAt | controller/rancher/rancher.go:380-418 | if what the first rule that offers an address to a backend finds there is stopping, merging rules of any weights leaves the address marked and at zero in that backend, whatever other rules and backends have there |
| EndToEnd.LiveFirstStaysLive | controller/rancher/rancher.go:380-418 | if the first offer is live, so is the address in that backend, at the weight of that rule, whatever later rules find there |
| EndToEnd.BackendAt | controller/rancher/rancher.go:380-418 | exactly which endpoints a backend has at an address: those of the first rule that offers it, all of them if that rule founds the backend and otherwise the first, at that rule's weight unless stopping |
| EndToEnd.StoppingThereIff | controller/rancher/rancher.go:380-418 | a backend has only stopping endpoints at an address if and only if those it takes from the first offer are stopping |
| EndToEnd.EarlierLiveOfferWins | controller/rancher/rancher.go:380-390 | two rules of one backend, to a running and to a stopping container at one address, after which the backend has only the running one, at its weight |
| EndToEnd.MergedKeepsAddress | controller/rancher/rancher.go:380-418 | and does not lose it: the backend of every rule that offers such an address has it |
| EndToEnd.BackendIsPlaced | controller/rancher/rancher.go:408-431 | every backend of the group-by has a place in the configuration, under the frontend of its port |
| EndToEnd.BuildConfigFromMetadata | controller/rancher/rancher.go:305-446 | an error exactly if a target cannot be looked up; otherwise the frontends of the group-by, each once, with exactly its backends, up to order, with the request's stickiness policy and all texts filled in |
| EndToEnd.StoppingIsDesiredAtZero | provider/haproxy/haproxy_config_util.go:236-238 | whatever the custom text says, a stopping endpoint with a unique key is read back as a temporary zero |
| EndToEnd.OwnWeightIsDesired | provider/haproxy/haproxy_config_util.go:236-238 | a unique key is read back at its endpoint's weight in 0..256 if that is printed, otherwise at what the custom words give last, or 1; so always, 1 included, if the custom words give none |
| EndToEnd.NeverRaised | provider/haproxy/drain_recovery.go:260-274 | from the apply of a temporary zero on, through any run without another successful apply, every command for the key is a zero |
| EndToEnd.StoppingAddressIsMarked | controller/rancher/rancher.go:380-431 | every server of the printed configuration at an address that is stopping for its backend is marked and at weight zero |
| EndToEnd.StoppingAddressIsPlaced | controller/rancher/rancher.go:380-431 | for every eligible rule that offers an address that is stopping for its backend, the printed configuration has a server at it under the rule's port, marked and at weight zero |
| EndToEnd.StoppingPlaceStaysAtZero | provider/haproxy/drain_recovery.go:45-69 | wherever the printed configuration has a server marked as stopping, at weight zero and under a unique key, it is read back at zero and no step raises it until a later successful apply |
| EndToEnd.StoppingContainerStaysAtZero | controller/rancher/rancher.go:380-415 | the whole way: for any rules and custom text and every eligible rule that offers an address that is stopping for its backend, there is such a server, and if its key is unique no step raises it until a later successful apply |

## Left out

- The socket, the pid file, certificates, templates, the reload script's own steps and all logging: input and output. Kept are the outcome of a command, whether the pid and the states could be read, and the process a reload leaves behind.
- Provider.Haproxy.ReadServerStates: returns the servers themselves; that the printed table is parsed back to them is proved apart, in `ServerStates`.
- ServerStates.TableRoundTrip: cells are single words without `/` or `#` in names, and no cell is `#`; the parser itself is modelled on all lines.
- CustomConfig.BuildBackend: that the backend text is made of the lines in `ServerLines.BackendTextIs` needs some custom or default line in section "backend", which `AppendDefaults` always supplies.
- CustomText.BackendIs: is for tables of defaults that name the section "backend", as the one in the source does.
- CustomConfig.DefaultConfig: the table of defaults is data; its contract says only which sections have defaults.
- HostRoutes.PatternServedIff: for request hosts without a port, taken as already folded to one case; paths are not modelled.
- Sorting.Sort: the sort library is modelled by its contract, with an insertion sort in its place.
- EndToEnd.BuildConfigFromMetadata: the sorts of backends and frontends are not modelled, and neither are certificates; `BackendServices.Less` puts an exact host with a path before itself, so its result is only some permutation; `Arranged` and everything proved from it hold of any.
- ServiceEndpoints.GetServiceEndpoints: when the links it reaches form no cycle; on a cycle the code recurses without end.
- DrainModel.NameOf: recovers from the key the name that the code keeps in a field; this is why server names must be free of `/`.
- TaskQueue.Tasks.Select: `stopOnce` is one atomic step, so a goroutine that waits for another one inside it is not modelled, nor is the unused period of Run.
- DrainWaiting.ReadCurrentStats: starts from the cells of `show stat` by column and sums them without 64-bit wrap-around; splitting that table into cells is not modelled, nor are the process lookups that say whether an older or a listed process exists.
- `write` of the provider, which drops frontends of unknown protocols and repeated backend names before the template: a reload is described by the configuration that `setDesired` reads.
- Update in place of configuration objects: endpoints, backends and the stickiness policy are values here, and the sharing of the policy between frontends is modelled by threading it through.
- The event handler that asks for drains and replies, target selectors, health-check conversion, the DNS client of the metadata and the worker pools.
- Real time: the five-second timer, drain timeouts and backoff are steps that may come at any moment.
- The wait of `ApplyConfig` for the end of the start-up stage, and the texts of errors.
- `AddEndpointForDrain` is called with its pid read just before; both happen under one lock and are one step here.
