# ProximaVPN: verified models of the node agent's configuration engine and of the fleet's derived state

A control plane publishes *generations*: an Xray configuration, its digest, and a list of
VLESS users. A node agent takes each generation, checks that its per-device egress is safe
to serve, materializes local passwords, and then either edits the running Xray over gRPC or
restarts it, rolling back only to a backup the newest policy still authorizes. This project
models that engine as it is written and proves what it is for. Next to it stand the smaller
mechanisms whose results must agree with something else: the per-device token bucket, port
ranges and entry ports, the forwarding-policy fingerprint, plan route isolation, the ports of
direct chains, and the fleet-wide eviction of a credential.

`dafny verify dfyconfig.toml` checks everything (Dafny 4.11).

## How to read it

| files | what they model |
|---|---|
| `DeviceConfig`, `DeviceCheck`, `Router`, `SourceRoutes` | the decoded configuration, the static checker `parseDeviceConfig`, Xray's first-match router, and the checker's soundness against it |
| `Acceptance`, `ClaimLog`, `RuleScan`, `ClientCheck`, `CheckIsExact` | what the checker accepts and finds, written out from the configuration, and the proof that it accepts and finds exactly that |
| `DeviceEgress`, `EgressGuarantees`, `RestoreGuard` | the object that holds local passwords, installs credentials and guards rollbacks |
| `SourceExample`, `EgressExamples` | an accepted configuration with one source-qualified device, and the calls on it in which a promise fails |
| `Topology`, `StructureKept`, `XrayProcess`, `LiveTopology`, `LiveEqualsRestart`, `LoadedLogins`, `UserSync` | what may be edited live, the running process and its RPCs (each of which may fail without effect), the edit, its comparison with a restart, and the logins of what runs |
| `Agent`, `AgentSafety`, `AgentLoop` | reconciliation, rollback, supervision and binary updates: the transition predicates, what every run keeps, and the imperative sequences proved to follow the predicates |
| `AgentExamples`, `LiveSession` | concrete runs of the node |
| `LocalBandwidth`, `BandwidthBounds` | the token bucket and its bounds |
| `Sorting`, `Ports`, `TextFields`, `PortText`, `EntryPorts`, `ChainBatch`, `RouteBatch` | port ranges and their text form, entry-port claims, the creation of relay chains one by one and in a batch |
| `Fingerprint`, `PlanRoutes`, `DirectChain`, `DirectChainTriggers`, `Eviction` | derived state on the control plane |
| `Base`, `Text` | failure types, set facts, and the string helpers of the Go standard library that the parsers rely on |

Code that updates objects in place is a class here, with methods proved against functions or
predicates on a snapshot; code that computes is a function. Disk, signals, RPC outcomes and
randomness are arbitrary values chosen inside the methods. A digest's hash is represented by
the configuration it is the hash of. Strings are byte strings.

## What was found

* The checker is sound (`Router.AcceptedIsSafe`), provided only blackholes bear a blackhole's
  tag, as with the unique tags Xray demands; `Router.SharedDenyTagIsAccepted` is an accepted
  configuration that shows why.
* A live edit is not always a restart. `ReplaceRoutingRules` gives a session rule the tag
  `session-<token>` (`node-agent/internal/xray/outbound.go:214-216`), which a restart does not,
  and the RPC cannot send further keys of a device outbound. `LiveEqualsRestart.LiveIsRestart`
  gives the exact condition for every running process, edited before or not. A session whose
  live addition fails it is `LiveSession.SessionDiffersFromRestart`; its live removal restores
  the restarted process (`RemovalRestores`).
* The client's own check refuses a source port on an IPv4 host (`outbound.go:271` refuses every
  IPv4 address) and a session token that is not in lower case, and nothing else the agent can
  express (`LiveEqualsRestart.SendsExactly`). So a generation that changes a list with such a
  rule needs a restart; `LiveSession.Ipv4PortNeverGoesLive` is an accepted one.
* The first `setCredentials` call of a generation only revokes exactly when every tag it keeps
  is admitted already, with that password, session token and source (`RevokesFirst`). It does
  not when a kept tag moves to another source, even from a state in sync
  (`EgressExamples.RebindAdmitsFirst`), nor after a call that drew a password or changed a token
  and then failed (`RetryAdmitsFirst`, `RetokenedAdmitsFirst`). `WhenInSync` and
  `WhenInSyncAfterRefusal` say exactly which calls leave a state in sync. (The control plane
  derives a tag's key from its address or session; the checker does not ask for that.)
* The checker accepts multicast, broadcast and unspecified sources, which the egress server
  never takes, so such a generation always fails (`InstallableExactly`, `NeverInstalled`).
* "Restarts are blocked" implies "Xray is stopped" exactly when some SIGTERM of the sequence
  could be delivered (`AgentSafety.BlockedRunsExactlyWhenUnsignalled`, with a run in
  `AgentExamples.BlockedCanRun`): `Stop` gives up when signalling fails
  (`node-agent/internal/xray/runner.go:161-166`) and callers ignore that.
* The wait `Permit` answers is exact by the bucket's own clock. A caller whose reading is behind
  that clock may be refused again after it (`BandwidthBounds.RetryCanBeTooEarly`);
  `RetryByTheCallersClock` says exactly when. That takes an injected clock: the agent reads
  `time.Now` under the mutex, which never goes back.
* `sameRules` confuses lists whose names contain NUL (`LiveTopology.SameRulesConfusesNul`). On
  other names it is equality but for one case: a rule without users, or inbounds, passes for
  one with the empty name alone (`SameRulesExactly`, `SameRulesConfusesEmptyName`).
* The comment at `pkg/nodeprov/nodeprov.go:148-149` promises the relay range for forwarding
  roles; the code, and lines 128-132, leave it out. The model follows the code.
* A direct chain keeps the right port through registrations too, although they change
  `nodes.port`; any other change of it would not (`DirectChain.BarePortChange`).
* An administrator's timed session termination overwrites the ban of a pending eviction
  (`api-server/internal/handlers/admin_stats.go:464-467`), and can let it lapse while the eviction
  is pending (`Eviction.TerminationEndsABan`); `Eviction.TerminationCanEndABan` says exactly
  which terminations break the promise.

## Model

| member | source | states |
|---|---|---|
| DeviceConfig.ParseLocalDeviceTag | node-agent/cmd/device_egress.go:328-347 | a valid tag has the device prefix and an id of 1 to 255 bytes |
| DeviceConfig.DeviceTagParts | node-agent/cmd/device_egress.go:328-347 | a valid tag is its parts put together again, and has a source key exactly when it contains a tilde |
| DeviceConfig.TagExactly | node-agent/cmd/device_egress.go:328-347 | the valid tags are exactly the prefix, an id of 1 to 255 bytes without a tilde, and perhaps a tilde and 16 to 64 hex digits |
| DeviceConfig.UnicastExactly | node-agent/internal/deviceegress/server.go:223-273 | the unicast addresses in numbers |
| DeviceCheck.LimitTagExactly | pkg/speedtier/speedtier.go:68-79 | a limit tag is its prefix and a positive number |
| DeviceCheck.ParseDeviceConfig | node-agent/cmd/device_egress.go:67-324 | the nested loops compute the specification `Parse`, error for error |
| DeviceCheck.FindDevices | node-agent/cmd/device_egress.go:78-106 | the declared device outbounds, or the first malformed or repeated one |
| DeviceCheck.ScanRules | node-agent/cmd/device_egress.go:198-290 | one client's pass over the rules, with the sources it claims |
| DeviceCheck.CheckInbound | node-agent/cmd/device_egress.go:145-303 | all clients of one inbound, controlled or not |
| CheckIsExact.ParseAcceptsExactly | node-agent/cmd/device_egress.go:67-324 | main result: a configuration is accepted if and only if its declarations are well formed and distinct, every client is in order on its inbound (direct: its first rule is its own; by source: its rules claim disjoint sources for each of its outbounds and end in a deny; unserved: denied where the inbound is controlled), all claims agree, every declared device is served, and the rates are valid |
| CheckIsExact.IdentitiesExactly | node-agent/cmd/device_egress.go:160-167 | the identities are those of all clients of all inbounds, VLESS or not |
| CheckIsExact.RatesExactly | node-agent/cmd/device_egress.go:299-321 | the devices served, and no others, have a rate: the table's, or else the strictest tier of the inbounds that list them |
| CheckIsExact.BindingsExactly | node-agent/cmd/device_egress.go:232-280 | the sources, ports and session tokens are those the clients' rules claim |
| Router.FirstMatch | node-agent/cmd/device_egress.go:267-269 | the router's meaning of a rule list: the matching rule before which none matches |
| Router.ClaimIsMatch | node-agent/cmd/device_egress.go:246-263 | an accepted source rule matches exactly the connections from its address and port |
| Router.ScanRoutes | node-agent/cmd/device_egress.go:198-292 | where an accepted scan sends every connection of its client |
| Router.DeniedRoutes | node-agent/cmd/device_egress.go:352-403 | an explicitly denied client's first match is a deny |
| Router.AcceptedRoutes | node-agent/cmd/device_egress.go:145-303 | the route of every VLESS client on a controlled inbound, by kind of client |
| Router.DevicesAreOutbounds | node-agent/cmd/device_egress.go:78-106 | the device map lists exactly the declared outbounds, each well formed and once |
| Router.AcceptedIsSafe | node-agent/cmd/device_egress.go:145-303 | main result: under an accepted configuration in which only blackholes bear a blackhole's tag, every connection of such a client is matched, and ends in a blackhole or in a device outbound carrying that very client |
| Router.SharedDenyTagIsAccepted | node-agent/cmd/device_egress.go:137-144 | that condition is needed: an accepted configuration sends every connection of a denied client to a tag that a Freedom outbound bears too |
| Router.LimitedIsVlessOnly | node-agent/cmd/device_egress.go:178-180 | a speed-limited inbound of an accepted configuration has VLESS clients only |
| SourceRoutes.ScanDisjoint | node-agent/cmd/device_egress.go:246-280 | accepted source rules of one client claim pairwise disjoint sources, and bind each tag to its rule's address |
| SourceRoutes.OrderIsIrrelevant | node-agent/cmd/device_egress.go:264-272 | any permutation of such rules has the same target for every connection |
| SourceRoutes.WholeRoute | node-agent/cmd/device_egress.go:226-229 | routing the whole list is routing the source rules with the deny as last resort |
| SourceRoutes.ReorderedRoutesAlike | node-agent/cmd/device_egress.go:246-276 | main result: reordering an accepted client's source rules never changes where a connection goes |
| SourceRoutes.OneAddressPerTag | node-agent/cmd/device_egress.go:273-276 | across clients and inbounds two source rules with one tag name one address |
| DeviceEgress.DeviceEgress.SetCredentials | node-agent/internal/deviceegress/server.go:223-273 | the egress server takes a whole credential list, which then names no user, password, source or token it refuses and no login twice, or changes nothing |
| DeviceEgress.DeviceEgress.Close | node-agent/cmd/device_egress.go:435-444 | a refusal leaves nothing authorized, no rate known, and asks for an empty credential list |
| DeviceEgress.DeviceEgress.Generate | node-agent/cmd/device_egress.go:479-511 | every declared device keeps its password or gets a new one, and its outbound is rewritten with it |
| DeviceEgress.DeviceEgress.Admit | node-agent/cmd/device_egress.go:457-519 | rates first, then revocation, then generation, then admission, with the state left by every failure |
| DeviceEgress.DeviceEgress.TransformConfig | node-agent/cmd/device_egress.go:431-520 | the call follows `TransformStep` from the old to the new state |
| DeviceEgress.DeviceEgress.CanRestore | node-agent/cmd/device_egress.go:522-558 | accepts exactly a backup that parses under an authorized generation, with a subset of its identities, a submap of its rates and its very device tags |
| RestoreGuard.RestorableExactly | node-agent/cmd/device_egress.go:522-558 | main result: while a generation is authorized, a backup may be restored if and only if it is acceptable, lists no client the generation does not list, serves no device at another rate, and declares the same outbounds |
| RestoreGuard.NoClientReturnsLater | node-agent/cmd/device_egress.go:522-558 | nor does a client come back along a chain of rollbacks |
| DeviceEgress.MaterializeOne | node-agent/cmd/device_egress.go:499-510 | giving one device its password rewrites that device's outbound and no other |
| EgressGuarantees.DevicesAreRated | node-agent/cmd/device_egress.go:299-321 | every declared device of an accepted configuration has a known rate |
| EgressGuarantees.AdmittedSecrets | node-agent/cmd/device_egress.go:457-519 | after success every declared tag has its credential, with the password it had or the one drawn for it |
| EgressGuarantees.InstalledIsMaterialized | node-agent/cmd/device_egress.go:431-520 | main result: the admitted credentials are one per declared tag, equal to the login written into that tag's outbound, rated, and unchanged for surviving tags |
| EgressGuarantees.CredentialsAreDistinct | node-agent/cmd/device_egress.go:479-516 | with a random source that never repeats, credentials and tags are in bijection |
| EgressGuarantees.InstallableExactly | node-agent/internal/deviceegress/server.go:223-273 | an open server takes the credentials of an accepted configuration if and only if every bound source is a unicast address and no device has one password twice |
| EgressGuarantees.RevokesFirst | node-agent/cmd/device_egress.go:470-478 | main result: the first setCredentials call names exactly the remembered tags still declared, and only takes away if and only if each is admitted already with its password, token and new source; from a state in sync, if and only if no kept tag changes its source |
| EgressGuarantees.WhenInSync | node-agent/cmd/device_egress.go:470-519 | exactly when a call leaves a state in which every remembered password and token is admitted, for each of its outcomes |
| EgressGuarantees.WhenInSyncAfterRefusal | node-agent/cmd/device_egress.go:435-454 | exactly when a refused generation does: nothing was remembered, or the server refused to be emptied and was in sync |
| EgressGuarantees.CallsKeepNames | node-agent/cmd/device_egress.go:431-520 | in every state that calls lead to, each admitted login bears the id of its tag's device |
| SourceExample.OneParses | node-agent/cmd/device_egress.go:198-290 | the checker accepts a device declared behind one address, port and session, and binds its tag to them |
| EgressExamples.RebindAdmitsFirst | node-agent/cmd/device_egress.go:470-478 | after a first generation is installed, one that moves the tag to another source offers a login never admitted, though the state is in sync |
| EgressExamples.RetryAdmitsFirst | node-agent/cmd/device_egress.go:512-519 | so does the retry of a generation whose second list was refused |
| EgressExamples.RetokenedAdmitsFirst | node-agent/cmd/device_egress.go:492-519 | so does the retry of one that gave an admitted tag a session token and was refused, though the tag's password is admitted |
| EgressExamples.NeverInstalled | node-agent/internal/deviceegress/server.go:223-273 | a device bound to a source that is no unicast address is accepted by the checker and installed by no call |
| EgressExamples.SourcesExist | node-agent/cmd/device_egress.go:246-263 | concrete accepted configurations for these runs |
| EgressExamples.SessionsExist | node-agent/cmd/device_egress.go:230-245 | and with a session token |
| EgressGuarantees.EveryOutcome | node-agent/cmd/device_egress.go:457-519 | whatever comes of a generation that parsed, it is authorized with its rates and tags, and devices are reported only after success |
| EgressGuarantees.DroppedTagsAreForgotten | node-agent/cmd/device_egress.go:461-469 | no secret of a dropped tag is remembered, and every kept one is |
| EgressGuarantees.DroppedTagsAreRevoked | node-agent/cmd/device_egress.go:470-519 | the server admits no dropped tag, unless it refused the first list |
| EgressGuarantees.RuntimeIsConfig | node-agent/cmd/device_egress.go:479-519 | the runtime configuration is the generation without its rate table, changed in device outbounds only |
| EgressGuarantees.RefusedClosesAll | node-agent/cmd/device_egress.go:434-454 | a parse or readiness failure authorizes nothing and makes every restore fail |
| EgressGuarantees.RollbacksOnlyShrink | node-agent/cmd/device_egress.go:522-558 | main result: along any chain of rollbacks the admitted identities, known rates and managed tags only shrink |
| Topology.StripDeviceTopology | pkg/devicebandwidth/topology.go:115-163 | the in-place filter computes the configuration without rates, device outbounds and device rules |
| Topology.StructuralRulesConcat | pkg/devicebandwidth/topology.go:115-163 | stripping is a filter: it distributes over concatenation |
| Topology.InsertedRuleIsStructural | pkg/devicebandwidth/topology.go:23-109 | inserting a rule anywhere keeps the structure if and only if it is a device rule |
| Topology.DeviceRuleTouchesOneUser | pkg/devicebandwidth/topology.go:23-109 | a rule that may change without a restart concerns one user only and leads to that user's device or to the deny |
| StructureKept.DeviceRuleExactly | pkg/devicebandwidth/topology.go:23-109 | main result: the live-managed rules are exactly the deny and the unconditional route of one device and its routes from one exact host |
| StructureKept.SameStructureExactly | node-agent/cmd/device_egress.go:566-608 | main result: two configurations have the same local structure if and only if they agree on all but rates, device outbounds, device rules and VLESS clients, in particular on every client of another protocol |
| StructureKept.SameStructureLoads | node-agent/cmd/device_egress.go:566-608 | then a start loads the same structure from both |
| XrayProcess.VlessUsersOfConfig | node-agent/cmd/main.go:452-488 | the users a start admits, later clients winning |
| XrayProcess.VlessUsersExactly | node-agent/cmd/main.go:452-488 | a start admits under a key the last VLESS client that has it, with its id, flow and level, and nobody else |
| XrayProcess.XrayProcess.AddSOCKSOutbound | node-agent/internal/xray/outbound.go:236-246 | one RPC: its effect or none, recorded with the process it found |
| XrayProcess.XrayProcess.RemoveOutbound | node-agent/internal/xray/outbound.go:248-256 | one RPC: its effect or none |
| XrayProcess.XrayProcess.ReplaceRoutingRules | node-agent/internal/xray/outbound.go:262-299 | the whole rule list as sent, or nothing; refused unless every rule passes the client's own check |
| XrayProcess.XrayProcess.AddVLESSUser | node-agent/internal/xray/handler.go:139-159 | one RPC: the user is added on a free email, or nothing happens |
| XrayProcess.XrayProcess.RemoveVLESSUser | node-agent/internal/xray/handler.go:163-180 | one RPC: the user is removed, or nothing happens |
| LiveTopology.ParseLiveTopology | node-agent/cmd/live_topology.go:43-164 | the live-managed topology of a runtime configuration, or none when a rule or outbound cannot be edited live |
| LiveTopology.TopologyExactly | node-agent/cmd/live_topology.go:43-164 | main result: exactly which configurations can be edited live |
| LiveTopology.JoinIsInjective | node-agent/cmd/live_topology.go:173-175 | joining with NUL tells lists of non-empty NUL-free names apart |
| LiveTopology.JoinExactly | node-agent/cmd/live_topology.go:173-175 | NUL-free lists join alike if and only if they are equal, or one is empty and the other holds the empty name alone |
| LiveTopology.SameRulesExactly | node-agent/cmd/live_topology.go:167-181 | on NUL-free names sameRules holds if and only if the lists agree rule by rule up to that confusion |
| LiveTopology.SameRulesIsEquality | node-agent/cmd/live_topology.go:167-181 | on names that are not empty either it is equality of rule lists |
| LiveTopology.SameRulesConfusesNul | node-agent/cmd/live_topology.go:173-175 | with a NUL it is not: two different lists that compare alike |
| LiveTopology.SameRulesConfusesEmptyName | node-agent/cmd/live_topology.go:173-175 | nor with an empty name: a rule for every user compares like one for the user "" |
| LiveTopology.AddNewOutbounds | node-agent/cmd/live_topology.go:210-225 | no tag already present is added, and nothing dangles, whatever fails |
| LiveTopology.SwapRules | node-agent/cmd/live_topology.go:226-231 | the list is swapped only when it differs |
| LiveTopology.RemoveOldOutbounds | node-agent/cmd/live_topology.go:232-240 | nothing a rule still leads to is removed, whatever fails |
| LiveTopology.TracksHaveNoDangling | node-agent/cmd/live_topology.go:196-242 | a running process has a rule without its device outbound if and only if its topology has |
| LiveTopology.SyncDeviceTopology | node-agent/cmd/live_topology.go:196-242 | main result: at every call, also after failures, no running rule names a missing device outbound and no call is unsafe; success is the complete edit, and failure means no client, a configuration that cannot be edited, a changed outbound, or a last call that did not land |
| LiveEqualsRestart.LoadTracks | node-agent/cmd/live_topology.go:43-164 | a freshly started process has the topology parsed from its configuration |
| LiveEqualsRestart.SyncTracks | node-agent/cmd/live_topology.go:196-242 | a complete edit of a process with prev's topology gives one with next's |
| LiveEqualsRestart.LiveIsRestart | node-agent/cmd/live_topology.go:190-242 | main result: the edited process, whatever edits it had before, has exactly the outbounds and ordered rules of a restart if and only if nothing needs a start |
| LiveEqualsRestart.FromALoadedProcess | node-agent/cmd/live_topology.go:190-242 | for a process as loaded that condition is one on the change alone |
| LiveEqualsRestart.SendsExactly | node-agent/internal/xray/outbound.go:262-299 | the client accepts an expressible rule if and only if it has no source port on an IPv4 host and its session token is in lower case |
| LiveEqualsRestart.EditCanComplete | node-agent/cmd/live_topology.go:196-242 | a live edit can be completed if and only if both topologies can be edited, no kept outbound changes, and the rule list stays or can be sent |
| LiveEqualsRestart.Ipv4PortRulesNeedARestart | node-agent/internal/xray/outbound.go:262-299 | a list with an IPv4 source-port rule is never swapped in live: a completed edit kept the list it found |
| LoadedLogins.StartLogsIn | node-agent/cmd/device_egress.go:499-510 | a start loads one device outbound for every declared device and no other, with the device's login and password |
| LoadedLogins.TrackingLogsIn | node-agent/cmd/live_topology.go:196-242 | so does every process that runs that topology after live edits |
| UserSync.WantedExactly | node-agent/cmd/main.go:1156-1168 | a digest wants under a key its last entry with that inbound and email, with its uuid, flow and level, and nobody else |
| UserSync.DigestUsersMatchConfig | node-agent/cmd/main.go:1094-1106 | true exactly when the digest's users are those of the configuration |
| UserSync.NodeState.SetUsersIfGen | node-agent/cmd/main.go:540-549 | the user set is recorded only for the process generation it was applied to |
| UserSync.RemovingChanged | node-agent/cmd/main.go:1207-1214 | removing a changed user is one unit of its distance of two |
| UserSync.NoDistance | node-agent/cmd/main.go:1172-1239 | the distance in RPCs is zero exactly when the sets agree |
| UserSync.SyncUsers | node-agent/cmd/main.go:1172-1239 | main result: state and process agree after every outcome; each RPC that landed, and no other, is one unit of progress; no email is added twice; success means exactly the digest's users at one RPC per unit |
| AgentLoop.XrayRunner.Stop | node-agent/internal/xray/runner.go:149-190 | stops the process gracefully or by killing it, or fails to signal and leaves it running |
| AgentLoop.XrayRunner.Restart | node-agent/internal/xray/runner.go:192-198 | a start is only tried after a stop without error |
| AgentLoop.XrayRunner.WriteConfig | node-agent/internal/xray/runner.go:246-284 | transform, back up, write: what each failure leaves |
| AgentLoop.XrayRunner.RestoreConfig | node-agent/internal/xray/runner.go:336-364 | consults the guard, then transforms and writes the backup |
| AgentLoop.RollbackConfig | node-agent/cmd/main.go:1110-1137 | follows `RolledBack`: blocked and stopped first, a restore whenever there is a backup, a restart whenever it was restored, unblocked only then |
| AgentLoop.TryLive | node-agent/cmd/main.go:1065-1081 | the incremental path: topology, then users, with the state a failure leaves; it is given up only when the topology cannot be edited or an RPC failed |
| AgentLoop.SwitchConfig | node-agent/cmd/main.go:1065-1091 | follows `Switched` and asks the runner for exactly `SwitchAttempts`: write, live edit or restart, rollback |
| AgentLoop.Reconcile | node-agent/cmd/main.go:1040-1050 | follows `Reconciled` for an unchanged configuration, and makes no RPC when its users already run |
| AgentLoop.ApplyConfigDigest | node-agent/cmd/main.go:1034-1092 | one reconciliation follows `Applied`, and makes no RPC for an unchanged configuration whose users already run |
| AgentLoop.Supervise | node-agent/cmd/main.go:790-832 | one supervisor tick follows `Supervised`; a start is tried exactly when Xray is dead, nothing is blocked and the backoff has passed |
| AgentLoop.UpdateXray | node-agent/cmd/main.go:897-944 | one binary update follows `Updated`; nothing is tried while blocked, and a start always follows a clean stop |
| AgentSafety.SwitchKeeps | node-agent/cmd/main.go:1065-1091 | a reconciliation keeps the invariant whatever fails on the way |
| AgentSafety.StepKeeps | node-agent/cmd/main.go:1034-1137 | so does every sequence, and the death of the process |
| AgentSafety.UsersAreKnown | node-agent/cmd/main.go:1034-1092 | a node that is not blocked knows the users its process runs, as every reconciliation needs it |
| AgentSafety.BootIsSafe | node-agent/cmd/main.go:242-262 | the first written and started configuration satisfies it |
| AgentSafety.ServesAdmitted | node-agent/cmd/device_egress.go:431-520 | between sequences each running device outbound logs in with the very user name and password the egress admits for its tag, and the egress admits no other |
| AgentSafety.RunsAreSafe | node-agent/cmd/main.go:1034-1137 | main result: between sequences Xray is stopped, or serves the generation last handed over, or a backup accepted under it, and the local egress admits exactly the logins of the device outbounds Xray runs; while blocked shaping is not reported and Xray is stopped unless a Stop could not signal it |
| AgentSafety.BlockedRunsExactlyWhenUnsignalled | node-agent/cmd/main.go:1070-1087 | exactly when a blocked node still runs Xray |
| AgentSafety.LiveOnlyWhen | node-agent/cmd/main.go:1060-1081 | the live path is only taken when nothing is blocked and the control plane calls both structures the same and the users different |
| AgentSafety.SwitchEndsSomewhere | node-agent/cmd/main.go:1065-1137 | a switch ends blocked, on the new configuration, or on the one served before |
| AgentSafety.ServedClientsAreCurrent | node-agent/cmd/main.go:1034-1137 | every client of the served configuration, whatever its protocol, is a client of the generation last handed over |
| AgentSafety.LiveSwitchIsRestart | node-agent/cmd/main.go:1065-1081 | main result: the incremental path ends with the structure, users, device outbounds and ordered rules of a restart on the new configuration, and, whatever was edited live before, with exactly the restarted process if and only if it runs and nothing needs a start |
| AgentSafety.LiveEditStartsWell | node-agent/cmd/main.go:1065-1081 | every live edit of a run meets the premise of SyncDeviceTopology's step-by-step guarantee, if each rule for a device outbound names one its configuration has |
| AgentExamples.LiveSwitchHappens | node-agent/cmd/main.go:1065-1081 | such a switch exists: the last client of a served configuration is removed live |
| AgentExamples.BlockedCanRun | node-agent/cmd/main.go:1070-1087 | a node that is blocked and still runs Xray |
| LiveSession.SessionDiffersFromRestart | node-agent/internal/xray/outbound.go:196-234 | a session is added live to the end, and the running rule list is not the one a restart loads |
| LiveSession.SessionNeedsAStart | node-agent/internal/xray/outbound.go:214-216 | that change is one that needs a start |
| LiveSession.RemovalRestores | node-agent/cmd/main.go:1065-1081 | from the process that differs, the live removal of the session ends with exactly the restarted process |
| LiveSession.Ipv4PortNeverGoesLive | node-agent/internal/xray/outbound.go:262-299 | an accepted, expressible generation that no live edit of any process completes |
| AgentSafety.UnchangedConfigTouchesNothing | node-agent/cmd/main.go:1040-1050 | in a reachable state an unchanged configuration changes no process and no user |
| LocalBandwidth.TokenBucket.Take | node-agent/cmd/local_bandwidth.go:97-107 | refill, spend or wait, on the bucket's own fields |
| LocalBandwidth.LocalLimiter.SetRates | node-agent/cmd/local_bandwidth.go:41-63 | the new table, with the buckets of devices that keep their rate |
| LocalBandwidth.LocalLimiter.Permit | node-agent/cmd/local_bandwidth.go:69-108 | the answer and the whole new state |
| BandwidthBounds.SameRateNeverRefills | node-agent/cmd/local_bandwidth.go:53-61 | a bucket survives SetRates, untouched, exactly when its device keeps its rate |
| BandwidthBounds.BytesAreCovered | node-agent/cmd/local_bandwidth.go:69-108 | the bytes counted are those of all requests answered Allowed; for a device with a limit its bucket covers them |
| BandwidthBounds.FailsClosed | node-agent/cmd/local_bandwidth.go:74-96 | main result: after any run a request is denied if and only if no table is in force or it lacks the device; a rate of 0 or less allows it without a bucket, and a positive one runs the bucket that answers |
| BandwidthBounds.UnknownGetsNothing | node-agent/cmd/local_bandwidth.go:75-79 | a device that no table in force has gets no byte through in any window |
| BandwidthBounds.RateInForce | node-agent/cmd/local_bandwidth.go:41-63 | the rates known are those of the last table given |
| BandwidthBounds.RunPays | node-agent/cmd/local_bandwidth.go:41-108 | over any steady run the bucket pays for every byte |
| BandwidthBounds.WindowBound | node-agent/cmd/local_bandwidth.go:41-108 | main result: bytes allowed in a window are at most one burst plus rate times the advance of the bucket's clock, for arbitrary clock readings |
| BandwidthBounds.LevelsStay | node-agent/cmd/local_bandwidth.go:41-108 | whatever rates are set and whatever is asked for, every bucket stays between empty and its burst |
| BandwidthBounds.EveryWindowIsBounded | node-agent/cmd/local_bandwidth.go:41-108 | main result: so the bound holds, in numbers, for every window at one rate of every run of a new limiter |
| BandwidthBounds.LaterAttempt | node-agent/cmd/local_bandwidth.go:97-105 | exactly when a later attempt of the same size succeeds |
| BandwidthBounds.RefusalIsTight | node-agent/cmd/local_bandwidth.go:89-107 | main result: whatever the clock reads, a refusal spends nothing, its wait is at most 263 ms and exact to the millisecond by the bucket's clock |
| BandwidthBounds.RetryByTheCallersClock | node-agent/cmd/local_bandwidth.go:89-107 | exactly when a retry counted from the caller's own reading is allowed |
| BandwidthBounds.RetryCanBeTooEarly | node-agent/cmd/local_bandwidth.go:89-107 | a run in which a retry after the answered wait is refused |
| BandwidthBounds.FitsExactlyTheBurst | node-agent/cmd/local_bandwidth.go:93-105 | a full bucket grants a size exactly when it does not exceed the burst |
| Ports.Merge | pkg/nodeprov/nodeprov.go:201-227 | the loop that extends the last range computes `Merged` |
| Ports.MergedIsGapped | pkg/nodeprov/nodeprov.go:201-227 | main result: sorted ranges with a gap between neighbours, covering exactly the same ports, no more of them than there were specs |
| Ports.GappedIsCanonical | pkg/nodeprov/nodeprov.go:201-227 | two gapped lists that cover the same ports are equal |
| Ports.MergedIsCanonical | pkg/nodeprov/nodeprov.go:201-227 | main result: two inputs merge alike if and only if they cover the same ports, and no list covering them is shorter |
| Ports.ResolvePorts | pkg/nodeprov/nodeprov.go:151-178 | succeeds exactly for known roles and presets and valid ports, and opens exactly the service port, the tier range and the preset's additions, in merged form; the reason of each refusal |
| PortText.FormatPorts | pkg/nodeprov/nodeprov.go:230-236 | the loop computes the comma-separated text |
| PortText.ParsePorts | pkg/nodeprov/nodeprov.go:239-270 | the loop computes the specs of the fields, or the first error |
| PortText.FieldRoundTrip | pkg/nodeprov/nodeprov.go:107-112 | a printed spec reads back as itself if valid, and is refused if not |
| PortText.ParseUndoesFormat | pkg/nodeprov/nodeprov.go:229-270 | main result: parsing what was formatted gives the merged list, and fails if and only if some spec is invalid |
| PortText.BlanksDoNotMatter | pkg/nodeprov/nodeprov.go:239-270 | main result: blanks around the text and around fields, and empty fields, make no difference |
| PortText.BoundBlanks | pkg/nodeprov/nodeprov.go:253-262 | nor do blanks around the dash of a range |
| EntryPorts.ConflictFreeIffIndexes | api-server/internal/database/schema.go:985-990 | main result: no two claims conflict if and only if both partial unique indexes hold |
| EntryPorts.GrantableExactly | pkg/nodeprov/relay.go:70-84 | which ports may be granted, in numbers |
| EntryPorts.AllocateEntryPort | pkg/nodeprov/relay.go:65-104 | a requested port exactly if it may be granted, with the reason if not; else the least free relay port |
| EntryPorts.AutomaticAllocation | pkg/nodeprov/relay.go:86-104 | main result: automatic allocation fails exactly when every relay port is blocked, hence never below 1000 claims |
| ChainBatch.ReserveExplicit | api-server/internal/handlers/admin_node_chain_batch.go:226-238 | explicit ports are reserved first, each against the fleet and the requests before it; the first failure and its kind |
| ChainBatch.ReserveAutomatic | api-server/internal/handlers/admin_node_chain_batch.go:239-249 | the other routes get, in order and in place, the least port free of all that |
| ChainBatch.ReservedIsPlaced | api-server/internal/handlers/admin_node_chain_batch.go:218-249 | main result: explicit ports stay as requested and all ports are free of the fleet's claims and of each other |
| ChainBatch.ReallocationAgrees | api-server/internal/handlers/admin_node_chain_create.go:216-231 | main result: allocating again when the row is written gives the very port reserved |
| ChainBatch.NodeChains.ClaimedEntryPorts | api-server/internal/handlers/admin_node_chain_ports.go:16-32 | the claims of the table, in any order |
| ChainBatch.RowIsSound | api-server/internal/handlers/admin_node_chain_create.go:155-212 | a chain that is created leads from a registered forwarding node with its managed hostname to a registered node that terminates tunnels, on the exit port asked for or else the one the exit listens on |
| ChainBatch.NodesExactly | api-server/internal/handlers/admin_node_chain_create.go:157-212 | exactly which nodes, host and exit port are accepted |
| ChainBatch.NodeChains.CheckNodes | api-server/internal/handlers/admin_node_chain_create.go:157-212 | the refusals of the nodes, host and exit port, in the code's order |
| ChainBatch.NodeChains.CreateNodeChain | api-server/internal/handlers/admin_node_chain_create.go:155-251 | one relay chain is created exactly when its nodes are accepted and its port can be allocated, with the row the request asks for, and the indexes hold |
| ChainBatch.NodeChains.Batch | api-server/internal/handlers/admin_node_chain_batch.go:218-256 | all routes are created with their reserved ports, or none is and the answer names the first port, exhausted range or node that stopped it; a preview answers the same and changes nothing |
| Fingerprint.PolicyCanonical | pkg/nodeprov/fingerprint.go:19-45 | sorts copies only: neither the rule slices nor the address slices inside them change |
| Fingerprint.SameFormIsSamePolicy | pkg/nodeprov/fingerprint.go:11-45 | main result: with one rule per key the canonical forms agree if and only if roles agree and rules are permutations, exit rules up to the order of their addresses |
| Fingerprint.FormIsUnique | pkg/nodeprov/relay.go:140-181 | a policy has a single canonical form if and only if no two different rules share a key |
| PlanRoutes.IsolatedOwns | api-server/internal/handlers/admin_plan_routes.go:82-113 | isolation gives a plan its own copy of its group and changes nobody's access |
| PlanRoutes.IsolatesExactly | api-server/internal/handlers/admin_plan_routes.go:82-113 | a plan gets another group if and only if its group is shared or a relay pool |
| PlanRoutes.SetRoutesIsExact | api-server/internal/handlers/admin_plan_routes.go:219-241 | main result: the plan gets exactly the selected chains and their exits, other plans and relay pools keep theirs |
| PlanRoutes.FoundAll | api-server/internal/handlers/admin_plan_routes.go:199-218 | counting the rows found tells exactly whether every selected route exists |
| PlanRoutes.BatchReachesOnlyItsPlans | api-server/internal/handlers/admin_node_chain_batch.go:206-272 | main result: new chains and exits reach exactly the listed plans and the plans of explicit groups; relay pools keep their members |
| PlanRoutes.PlanTables.IsolatePlanRouteGroup | api-server/internal/handlers/admin_plan_routes.go:82-113 | the inserts and the update compute `Isolated` |
| PlanRoutes.PlanTables.SetRoutes | api-server/internal/handlers/admin_plan_routes.go:170-250 | replaces one plan's routes, or fails for exactly the stated reason and changes nothing |
| PlanRoutes.PassesExactly | api-server/internal/handlers/admin_node_chain_batch.go:186-205 | exactly which groups and plans pass |
| PlanRoutes.PlanTables.CheckBatch | api-server/internal/handlers/admin_node_chain_batch.go:186-205 | accepts exactly requests with known, distinct plans and groups and no relay pool; the reason of a refusal |
| PlanRoutes.PlanTables.IsolatePlans | api-server/internal/handlers/admin_node_chain_batch.go:206-214 | each listed plan gets a group of its own, one after the other |
| RouteBatch.RouteHandler.Batch | api-server/internal/handlers/admin_node_chain_batch.go:170-294 | main result: the whole handler: all routes are created and reach exactly the plans meant, or nothing changes and the refusal is the first in the handler's order; a preview changes nothing; ports and access stay two views of one table |
| DirectChain.OldestListens | api-server/internal/database/schema_direct_chain_port.go:20-22 | whichever inbound is oldest by creation time and id, the node listens on its port |
| DirectChain.InboundsAreSynced | api-server/internal/database/schema_direct_chain_port.go:51-79 | after a statement on any number of inbounds the row triggers leave every direct chain in step |
| DirectChain.RegisteredIsSynced | api-server/internal/handlers/node_agent.go:161-219 | a registration changes nodes.port, leaves one direct chain, and keeps it in step |
| DirectChain.RunsStaySynced | api-server/internal/database/schema_direct_chain_port.go:17-79 | main result: in every state reached from tables in step each direct chain has the port its exit listens on |
| DirectChain.RepairSyncs | api-server/internal/database/schema_direct_chain_port.go:81-87 | the repair of older rows brings any tables in step |
| DirectChain.RepairedRunsStaySynced | api-server/internal/database/schema_direct_chain_port.go:17-87 | so from any repaired tables every reachable state is in step |
| DirectChain.BarePortChange | api-server/internal/database/schema_direct_chain_port.go:47-50 | exactly when changing nodes.port alone would break that |
| DirectChainTriggers.Tables.NodeListeningPort | api-server/internal/database/schema_direct_chain_port.go:17-25 | the query computes `ListeningPort` |
| DirectChainTriggers.Tables.WriteChains | api-server/internal/database/schema_direct_chain_port.go:28-41 | rows pass the BEFORE trigger one by one, whatever the writer sent |
| DirectChainTriggers.Tables.SyncDirectChainExitPort | api-server/internal/database/schema_direct_chain_port.go:51-62 | rewrites exactly the direct chains of one node |
| DirectChainTriggers.Tables.AfterStatement | api-server/internal/database/schema_direct_chain_port.go:63-79 | the row triggers of a statement, in any order, resync all nodes touched |
| DirectChainTriggers.Tables.DeleteNode | api-server/internal/database/schema_direct_chain_port.go:43-58 | deleting a node cascades, and its inbounds' triggers change no chain |
| DirectChainTriggers.Tables.Register | api-server/internal/handlers/node_agent.go:161-219 | the registration transaction computes `Registered` |
| Eviction.RunsStayTrue | api-server/internal/database/schema_uuid_eviction.go:12-32 | main result: in every reachable state an eviction is confirmed if and only if every required node acknowledged that very epoch; and no ban ends early if every termination of the run is harmless |
| Eviction.AcksComeFromCalls | api-server/internal/database/schema_uuid_eviction.go:37-65 | an acknowledgment is only written for the node's own call with that epoch |
| Eviction.ConfirmedWasAcknowledged | api-server/internal/database/schema_uuid_eviction.go:37-78 | behind every confirmation stands a call by each required node |
| Eviction.LastRequiredCallConfirms | api-server/internal/database/schema_uuid_eviction.go:67-76 | main result: whatever calls come in whatever order, the eviction ends up confirmed exactly when the required nodes are among the callers |
| Eviction.CallOrderIsIrrelevant | api-server/internal/database/schema_uuid_eviction.go:40-78 | reordered or repeated calls leave the same acknowledgments and statuses |
| Eviction.NoOpCalls | api-server/internal/database/schema_uuid_eviction.go:50-63 | a call changes nothing exactly when it is stale, from a node not required, or a repeat |
| Eviction.CompletionIsEarned | api-server/internal/scheduler/uuid_eviction.go:78-98 | a row only disappears after confirmation and cooldown |
| Eviction.CompletionExactly | api-server/internal/scheduler/uuid_eviction.go:80-98 | a completion ends exactly the confirmed evictions whose ban is over, and sets the end of the ban of the others confirmed |
| Eviction.CompletionClears | api-server/internal/scheduler/uuid_eviction.go:91-98 | the acknowledgments go with the row, and no others |
| Eviction.BeginsExactly | api-server/internal/scheduler/uuid_eviction.go:20-76 | exactly when an eviction begins, and all that it changes |
| Eviction.OneAtATime | api-server/internal/scheduler/uuid_eviction.go:33-50 | in every run a user has at most one pending eviction |
| Eviction.RetiredIsBanned | api-server/internal/handlers/user_device.go:250-256 | retiring a device bans it for good and touches no eviction |
| Eviction.BanStaysKept | api-server/internal/scheduler/uuid_eviction.go:20-98 | a step keeps every ban if and only if it is no termination that shortens one |
| Eviction.TerminationCanEndABan | api-server/internal/handlers/admin_stats.go:464-467 | exactly which timed terminations keep the promise: of a device without an eviction, or of a confirmed one for at least the rest of its cooldown |
| Eviction.TerminationEndsABan | api-server/internal/handlers/admin_stats.go:464-467 | a run in which the ban of a pending eviction is cut to a time |
| Eviction.EvictionTables.BeginEviction | api-server/internal/scheduler/uuid_eviction.go:20-76 | checks, ban, removal of old acknowledgments, new pending epoch, in the code's order |
| Eviction.EvictionTables.AcknowledgeEviction | api-server/internal/database/schema_uuid_eviction.go:40-78 | the transaction and its two errors |
| Eviction.EvictionTables.CompleteEvictions | api-server/internal/scheduler/uuid_eviction.go:80-98 | starts cooldowns and deletes the evictions that are over |
| Eviction.EvictionTables.TerminateSession | api-server/internal/handlers/admin_stats.go:464-467 | sets the end of the ban, whatever it was |
| Eviction.EvictionTables.InsertDevice | api-server/internal/handlers/user_device.go:154-160 | a new device gets its owner, and no other row changes |
| Sorting.SortedForgetsOrder | pkg/nodeprov/relay.go:140-147 | a library sort is a sorted rearrangement; where the order tells elements apart it forgets the arrangement and nothing else |
| Text.AtoiItoa | pkg/nodeprov/nodeprov.go:254-262 | printing an int and reading it back gives it again if it fits 64 bits, and fails if not |
| Text.AtoiForgives | pkg/nodeprov/nodeprov.go:254-262 | reading forgives a plus sign and leading zeros |
| Text.ExactPortExactly | node-agent/cmd/device_egress.go:253-259 | a text is an exact port if and only if it is that number printed |
| TextFields.SplitJoin | pkg/nodeprov/nodeprov.go:246-250 | splitting undoes joining when no part contains the separator |

## Left out

- JSON: configurations are datatypes. Documents that do not decode are not modelled (the code rejects them), nor are unknown keys beyond one opaque `extra` text per object; balancers count only.
- Xray itself: a user condition is exact membership (no `regexp:` or `domain:` forms), outbounds are found by unique tag, and their order does not matter. VLESS clients have the keys id, email, flow and level.
- Hashes are represented by what they are the hash of, and the identity string with NUL separators is a tuple; random passwords are arbitrary 64-digit texts, and where distinctness is claimed it is a stated hypothesis.
- Loops over Go maps run in arbitrary order, and sorted loops over tags are modelled that way too.
- BandwidthBounds.WindowBound: exact reals; the rounding of float64 is not modelled.
- AgentSafety.RunsAreSafe: sequences are atomic, as processMu makes them; published names are assumed non-empty and NUL-free; context cancellation only skips a sequence.
- Eviction.RunsStayTrue: nodes are never deleted while an eviction is open (the cascade would drop their acknowledgments), and generated epochs are new.
- DirectChain.RunsStaySynced: statements that change an inbound's creation time without naming node, port or enabled fire no trigger and are not among the statements; the code has none.
- RouteBatch.RouteHandler.Batch: the shape of a request (UUIDs, text lengths, port numbers, distinct entry and exit, at most 100 routes) is validated before; row locks and database failures are not modelled, and chains are granted after all are created rather than one by one, which no refusal can tell apart.
- gRPC, process control, nftables, tc, ACME, downloads, file backup, HTTP handlers, SQL text, Redis and the wall clock are parameters or arbitrary outcomes.
- The relay and exit rules on the node, the egress server's sessions, Hysteria2 and WireGuard, payments, promotions, support, the web panel and the scripts: not modelled; they would add plumbing or easy members.
