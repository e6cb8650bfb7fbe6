# wanfw in Dafny

wanfw is a level-triggered reconciler: it turns desired-state documents into Docker networks, volumes and containers, under grants
and approvals, and keeps a certificate for the exposed names renewed. This project models the parts of it that are hard to get
right and proves what they promise.

- **Reconcile pipeline.** VALIDATE, GATE, EXECUTE and the collection part of OBSERVE over an in-memory Docker (`DockerClient`,
  `ExecuteStage`, `ObserveStage`, `Pipeline`, `StateStore`), and the document loader and stage loop around them (`ReconcileRun`).
  Proved: crash convergence and quiescence of EXECUTE (`Convergence`, `Quiescence`, `ExecuteProperties`), what a successful pass
  leaves behind (`ExecuteOutcome`), approval safety of whole runs interleaved with operators, conservation under garbage collection
  over any history of complete, failed and cut-off runs (`Provenance`, `GcConservation`), whose volumes are whose
  (`VolumeOwnership`), and convergence of whole runs (`RunConvergence`).
- **Engine.** The single-flight, coalescing trigger loop as a state machine (`Engine`): no lost wakeup.
- **Authority.** Path globs against their meaning on segments, the plan validator, and the canonical projection whose hash keys an
  approval (`ScopeMatcher`, `ValidatePlan`, `CanonicalJson`, `Projection`).
- **Allocators and stores.** 32-bit CIDR arithmetic, the IPAM allocator, the generation store for certificates under crashes (`Cidr`,
  `Ipam`, `CertStore`).
- **Time and protocol.** Renewal decisions over any sequence of runs, and the ACME DNS-01 flow against an arbitrary server (`Renewal`,
  `Acme`).
- **Codecs and framing.** DER, the signing request, raw ECDSA signatures, NDJSON, JSON-RPC, the race that settles a plugin
  invocation (`Der`, `Csr`, `Jws`, `Ndjson`, `JsonRpc`, `ChildRunner`).
- **Graph and chain.** Three-colour cycle detection and the audit hash chain (`Resolve`, `AuditLog`).

Digests, signatures, `JSON.parse`, `Number`, clocks, random identifiers and everything the network answers are parameters; a
theorem says so where it needs a digest to be injective or a parser to read back what was written. Asynchronous code is cut at its
`await`s into atomic steps. Times are integer milliseconds. `dafny verify dfyconfig.toml` checks the whole project.

Where the code does not keep a stronger promise, the model follows the code, a lemma shows an input that fails, and another says
exactly when the promise holds:

- a plan may override `wanfw.confighash` (`OverriddenLabelNeverSettles`, `SecondExecuteQuiet`);
- a plan may override `wanfw.managed` and `wanfw.service`, and then a desired container is collected by every run, or one outlives its
  service (`RelabelledIsRemadeForever`, `OutlivesItsService`, `ContainerFate`);
- canonical JSON loses members called `__proto__`, so an audit entry may gain one unseen (`ProtoMemberUnseen`, `CanonicalTextIdentifies`,
  `PassesForExactly`, `LogsAgreeWithoutProto`); approvals are not affected (`ApprovalHashCanonical`);
- the audit check does not ask for signatures or for a length (`SignaturesRemovable`, `CutAccepted`, `PassesForExactly`);
- service ids of which one is a prefix of the other share volumes, and removing the one deletes data of the other; a run cut off in
  its collection then ends elsewhere (`RelatedIdsLoseData`, `SharedExactly`, `OwnVolumesStay`, `OrdinaryRunsConverge`);
- a services directory that cannot be read counts as an empty one (`UnreadableDirectoryCollectsAll`, `LoadPassesExactly`);
- the proxy is attached to networks of parked services (`ParkedServiceStopsTheProxy`, `ValidatedPlanVerdict`);
- a trigger from inside the synchronous start of a run starts a second one, and an exception from `onOutcome` wedges the engine
  and loses triggers (`SingleFlight`, `ThrowWedges`, `LostExactly`);
- overlapping IPAM ranges overwrite each other's live rows (`OverlapOverwrites`, `OverwriteExactly`, `DisjointRangesNeverOverwrite`);
- a renewal that succeeds without storing the names is repeated at once (`EmptySuccessRepeats`, `DueAfterSuccess`);
- a JSON-RPC reply whose `error` cannot be read drops its call without settling it (`ForgottenExactly`, `SettledByClose`);
- DER lengths and arcs of 2^32 or more, and names outside Latin-1, do not survive (`LengthRoundTrip`, `OidRoundTrip`,
  `RequestRoundTrip`).

## Model

| member | source | states |
|---|---|---|
| `DockerClients.EnsureNetworkStep` | `packages/orchestrator/src/execute/ensure.ts:17-40` | one call makes the new Docker view, the journal detail and the sequence of intermediate views what the step `EnsureNetwork` says, whatever the client held before |
| `DockerClients.EnsureVolumeStep` | `packages/orchestrator/src/execute/ensure.ts:42-62` | the same for a volume: an existing volume is left alone, a new one carries the service and opt-in labels |
| `DockerClients.EnsureContainerStep` | `packages/orchestrator/src/execute/ensure.ts:75-130` | the same for a container: kept, started, or removed, created and started when its hash label differs; every Docker call in between is recorded |
| `DockerClients.CreateAndStart` | `packages/orchestrator/src/execute/ensure.ts:96-130` | create then start: the two intermediate views and the final one |
| `DockerClients.ConnectStep` | `packages/orchestrator/src/execute/ensure.ts:142-152` | attaching to a network: unchanged if attached, failed if the network is missing (the real client's error), otherwise exactly one more attachment |
| `DockerClients.DockerClient.CreateContainer` | `packages/orchestrator/src/execute/fake-docker-client.ts:45-49` | the new container, under a fresh id, and nothing else |
| `DockerClients.DockerClient.ConnectNetwork` | `packages/orchestrator/src/execute/docker-client.ts:256-261` | attaches only to a network that exists; otherwise fails and changes nothing |
| `ExecuteStage.PlanStepsWellFormed` | `packages/orchestrator/src/reconciler/execute-stage.ts:70-155` | the steps of any plan with distinct service ids touch each container in one place: ensured once, connected only afterwards |
| `ExecuteStage.ConnectAll` | `packages/orchestrator/src/reconciler/execute-stage.ts:100-109` | the connect loop is the connect steps of the container, and stops at the first failure |
| `ExecuteStage.ExecuteService` | `packages/orchestrator/src/reconciler/execute-stage.ts:76-109` | the body of the service loop is the service's step list: network, named volumes, container, attachments |
| `ExecuteStage.ExecuteProxy` | `packages/orchestrator/src/reconciler/execute-stage.ts:112-170` | the proxy part is the proxy's step list, including the reload that is always journaled as changed |
| `ExecuteStage.ExecuteServices` | `packages/orchestrator/src/reconciler/execute-stage.ts:70-109` | the loop over services is the concatenation of their steps, cut at the first failure |
| `Convergence.ResumeFromCrashPoint` | `packages/orchestrator/src/execute/ensure.ts:17-152` | a pass started from any point at which an earlier pass stopped, even inside a step, ends in the view of the uninterrupted pass with the same verdict |
| `Convergence.CrashConvergence` | `packages/orchestrator/src/reconciler/execute-stage.ts:70-155` | the same for the view after any single Docker call of any pass from any starting world |
| `Convergence.RepeatedCrashConvergence` | `packages/orchestrator/src/reconciler/execute-stage.ts:70-155` | the same for any number of passes, each cut off after any of its calls |
| `ExecuteProperties.ExecuteConverges` | `packages/orchestrator/src/reconciler/execute-stage.ts:48-181` | crash convergence of EXECUTE for every plan with distinct ids, every gate, every start and any sequence of interruptions |
| `Quiescence.SecondPassQuiet` | `packages/orchestrator/src/execute/ensure.ts:75-152` | a second pass always succeeds and changes no view; it journals nothing as changed exactly when every ensured container ends up with the hash of its spec |
| `Quiescence.PassVerdict` | `packages/orchestrator/src/execute/ensure.ts:142-152` | a pass succeeds exactly when every connect finds its network, stated on the starting world and the step list alone |
| `ExecuteProperties.SecondExecuteQuiet` | `packages/orchestrator/src/execute/ensure.ts:118-124` | after a successful EXECUTE the next one is quiet exactly when no executed service overrides the `wanfw.confighash` label with another value (or was already so labelled) |
| `ExecuteProperties.ValidatedPlanVerdict` | `packages/orchestrator/src/reconciler/execute-stage.ts:112-170` | a plan whose services attach only to their own networks succeeds exactly when the reload does and the proxy finds the network of every parked service |
| `ExecuteProperties.ParkedServiceStopsTheProxy` | `packages/orchestrator/src/reconciler/execute-stage.ts:118-121` | a plan with one parked service and an empty Docker fails, because the proxy is attached to a network nobody made |
| `Pipeline.ValidateStage` | `packages/orchestrator/src/reconciler/validate-stage.ts:25-64` | passes exactly when every service binds a plugin whose live grants cover its plan, and then classifies exactly the planned services, each with its tier and projection hash |
| `Pipeline.AlwaysExplained` | `packages/orchestrator/src/reconciler/gate-stage.ts:98-146` | invariant of every interleaving of stages with trust, untrust, approve and revoke: the verdicts a run holds are those of its own VALIDATE and GATE moments |
| `Pipeline.ApprovalIsForThisPlan` | `packages/orchestrator/src/reconciler/gate-stage.ts:27-40` | with an injective hash, the approved plan and the executed plan have the same service and the same powers |
| `Engine.ReconcileEngine.TriggerRun` | `packages/orchestrator/src/reconciler/engine.ts:44-58` | a trigger starts a run when no promise is set, otherwise sets the rerun flag |
| `Engine.ReconcileEngine.AfterRun` | `packages/orchestrator/src/reconciler/engine.ts:51-56` | the loop condition: another run if one was asked for, otherwise idle |
| `Engine.SingleFlight` | `packages/orchestrator/src/reconciler/engine.ts:44-58` | at most one run is ever in flight exactly when nothing triggers from inside the synchronous first part of a run |
| `Engine.TriggersCoalesce` | `packages/orchestrator/src/reconciler/engine.ts:50-56` | any number of triggers during one run cause exactly one further run, started when it ends; none cause none and leave the engine idle |
| `Engine.RunsBoundedByTriggers` | `packages/orchestrator/src/reconciler/engine.ts:44-62` | runs, plus the one pending, never outnumber triggers |
| `Resolve.CycleDetector.Visit` | `packages/orchestrator/src/dependency-resolution/resolve.ts:170-187` | the three-colour visit terminates, keeps the path and colour invariants, and returns only simple cycles |
| `Resolve.DetectCycle` | `packages/orchestrator/src/dependency-resolution/resolve.ts:153-196` | any list returned is a simple cycle of the dependency graph with equal ends, and none is returned exactly when the graph has no cycle at all |
| `Resolve.NoCycleWhenAllFinished` | `packages/orchestrator/src/dependency-resolution/resolve.ts:170-187` | when every node is black, the finishing order is topological, so no cycle exists |
| `Resolve.WalkGoesBack` | `packages/orchestrator/src/dependency-resolution/resolve.ts:170-187` | every walk from a finished node steps strictly back in the finishing order |
| `Resolve.GraphEdges` | `packages/orchestrator/src/dependency-resolution/resolve.ts:153-162` | the graph built has an edge exactly where a plugin depends on another by id or through a bound role |
| `ScopeMatcher.GlobRefinement` | `packages/orchestrator/src/host-api/scope-matcher.ts:11-37` | the string-level matcher holds exactly when both paths are absolute without `.` or `..` segments and the pattern's segments equal the path's, or are a prefix of them for a trailing `/*` |
| `ValidatePlan.ValidateMounts` | `packages/orchestrator/src/validate/validate-plan.ts:61-82` | reports exactly the mounts no grant covers, and powerful exactly when some mount is a bind mount |
| `ValidatePlan.ValidateContainerSpec` | `packages/orchestrator/src/validate/validate-plan.ts:51-173` | accepts exactly the plans covered field by field, where coverage is told without the matchers the code uses; reports exactly the offences, tiers and hashes a plan without looking at the grants |
| `ValidatePlan.AcceptanceMonotone` | `packages/orchestrator/src/validate/validate-plan.ts:33-35` | more grants never reject a plan that fewer accepted |
| `ValidatePlan.NoGrantsNoPlan` | `packages/orchestrator/src/validate/validate-plan.ts:51-60` | without a grant to pull images no plan is accepted |
| `StateStores.StateStore.ListGrants` | `packages/orchestrator/src/state-store/store.ts:148-153` | the live grants of a plugin, in order |
| `StateStores.StateStore.RecordTrustAndGrants` | `packages/orchestrator/src/trust/trust-flow.ts:48-71` | trusting writes one live trust row and appends one live grant row per capability, leaving every other row |
| `StateStores.StateStore.UntrustPlugin` | `packages/orchestrator/src/trust/trust-flow.ts:144-156` | untrusting revokes every live trust record and grant of the plugin, or fails on one that is not trusted |
| `StateStores.GrantsAlwaysNeedTrust` | `packages/orchestrator/src/trust/trust-flow.ts:48-71` | after any operations every live grant belongs to a trusted plugin |
| `StateStores.UntrustedHasNoGrants` | `packages/orchestrator/src/trust/trust-flow.ts:144-156` | after untrust, whatever happens short of a new trust, the plugin has no live grant |
| `StateStores.UntrustedPlanRejected` | `packages/orchestrator/src/trust/trust-flow.ts:144-156` | so no plan of an untrusted plugin is accepted until it is trusted again |
| `CanonicalJson.StringifyInjective` | `packages/core-schemas/src/canonical-json.ts:31-33` | two JSON values have the same text exactly when they are equal |
| `Projection.ProjectionTextCanonical` | `packages/core-schemas/src/projection.ts:37-72` | two projections have the same canonical text exactly when they agree on the scalars and on the multisets of mounts, devices, capabilities and ports |
| `Projection.ApprovalHashCanonical` | `packages/core-schemas/src/projection.ts:54-77` | with an injective hash two plans share an approval exactly when they agree on service, image, host network, privilege and those multisets |
| `Projection.HarmlessEditKeepsHash` | `packages/orchestrator/src/reconciler/gate-stage.ts:27-40` | reordering, and any change of labels, networks or baseline fields, keeps the approval, for any hash |
| `CertStore.ListGenerations` | `packages/orchestrator/src/certs/store.ts:96-104` | the generation numbers in ascending order, each once |
| `CertStore.CertVolume.StoreCert` | `packages/orchestrator/src/certs/store.ts:115-138` | performs exactly the effects of a store, in order: write, rename, point, prune |
| `CertStore.CertVolume.RollbackCert` | `packages/orchestrator/src/certs/store.ts:150-158` | points to the greatest generation below the current one, or fails and changes nothing |
| `CertStore.CertVolume.CurrentCert` | `packages/orchestrator/src/certs/store.ts:141-147` | returns the complete generation `current` names, or nothing exactly when it names none |
| `CertStore.CutStoreSafe` | `packages/orchestrator/src/certs/store.ts:115-138` | a store cut after any effect leaves `current` naming a complete retained generation |
| `CertStore.CurrentAlwaysComplete` | `packages/orchestrator/src/certs/store.ts:80-158` | the same after any sequence of finished or cut stores and rollbacks |
| `CertStore.NeverReused` | `packages/orchestrator/src/certs/store.ts:115-138` | over any such sequence generation numbers only grow and a number never gets other contents |
| `CertStore.FinishedStore` | `packages/orchestrator/src/certs/store.ts:115-138` | a finished store is current, holds the certificate, key and metadata it was given, is numbered 1 or one above the newest, and exactly the newest three generations remain, unchanged |
| `CertStore.RollbackDescends` | `packages/orchestrator/src/certs/store.ts:150-158` | a rollback strictly descends to the next older generation and fails exactly at the oldest |
| `CertStore.RollbacksRunOut` | `packages/orchestrator/src/certs/store.ts:150-158` | exactly as many rollbacks succeed in a row as there are older generations |
| `Cidr.IpRoundTrip` | `packages/orchestrator/src/ipam/cidr.ts:9-25` | `ipToInt` undoes `intToIp` on every number below 2^32 |
| `Cidr.IpTextRoundTrip` | `packages/orchestrator/src/ipam/cidr.ts:9-25` | `intToIp` undoes `ipToInt` on every dotted address |
| `Cidr.CidrBlock` | `packages/orchestrator/src/ipam/cidr.ts:27-46` | network and broadcast are the bounds of the aligned block of the prefix's size, for every prefix from 0 to 32 |
| `Cidr.HostsInCidr` | `packages/orchestrator/src/ipam/cidr.ts:48-58` | the loop returns the addresses of the host list, or fails exactly when the CIDR or the excluded address is malformed |
| `Cidr.HostCount` | `packages/orchestrator/src/ipam/cidr.ts:48-58` | there is a list exactly when range and excluded address parse; for prefixes up to 30 it is strictly increasing, exactly the addresses strictly inside the block but the excluded one, 2^(32-p) - 2 of them less one if it lies inside; for longer prefixes it is empty |
| `Cidr.InCidrSharesPrefix` | `packages/orchestrator/src/ipam/cidr.ts:60-64` | an address is in a CIDR exactly when it shares the prefix |
| `Ipam.IpamStore.AllocateIp` | `packages/orchestrator/src/state-store/store.ts:296-330` | the transaction: the owner's live address, or the first free host, or the exact error |
| `Ipam.IpamStore.ReleaseIp` | `packages/orchestrator/src/state-store/store.ts:333-337` | marks one live row released and nothing else |
| `Ipam.IpamStore.SetIpamRange` | `packages/orchestrator/src/state-store/store.ts:261-268` | replaces one range and leaves every allocation |
| `Ipam.FreshIsLowestFree` | `packages/orchestrator/src/state-store/store.ts:308-330` | a fresh address is the lowest free host of the current CIDR, and exhaustion is raised exactly when every host has a live row of the range |
| `Ipam.RunsAreOrderly` | `packages/orchestrator/src/state-store/store.ts:261-337` | over any operations on one range no live row is overwritten and a non-empty owner has at most one live address |
| `Ipam.RepeatedCallsAgree` | `packages/orchestrator/src/state-store/store.ts:296-306` | until it is released, every later call of the owner returns the same address and changes nothing, whatever happened in between, also to the CIDR |
| `Ipam.OverwriteExactly` | `packages/orchestrator/src/state-store/store.ts:308-330` | with several ranges a live row is overwritten exactly when the first free host is a live row of another range |
| `Renewal.JitterMs` | `packages/orchestrator/src/renewal/scheduler.ts:51-55` | the loop that truncates at every step gives the polynomial hash truncated once |
| `Renewal.RenewalStage.Run` | `packages/orchestrator/src/reconciler/renewal-stage.ts:41-121` | one run: invocation, new renewal state and trigger on every path; the framework is degraded exactly when names are required and there is no certificate or one older than 83 days |
| `Renewal.FailuresAreSpaced` | `packages/orchestrator/src/renewal/scheduler.ts:57-65` | however often the stage runs and whatever it finds, n >= 4 consecutive failed attempts span at least 17 + 24(n - 4) hours |
| `Renewal.ReissueInterval` | `packages/orchestrator/src/renewal/scheduler.ts:82-101` | over any runs, an attempt for the names already stored comes at least 60 days after they were stored |
| `Renewal.EscalatesOnlyBeforeFirstIssue` | `packages/orchestrator/src/renewal/scheduler.ts:104-108` | if every attempt issues the required names and runs are at most a day apart, the framework is degraded in the first run and never again |
| `Renewal.DueAfterSuccess` | `packages/orchestrator/src/renewal/scheduler.ts:82-101` | after a success the next run attempts again exactly if the names were not stored, or the stored certificate is 60 days old and the jittered day is over |
| `Renewal.EmptySuccessRepeats` | `packages/orchestrator/src/renewal/scheduler.ts:85-88` | a success that stores nothing is repeated at once |
| `Acme.Flow.SignedPost` | `plugins/cert-letsencrypt-dns01/src/acme-client.ts:57-75` | one signed request, sent only with the nonce of the latest response; accepted exactly if it answers with a nonce and a status below 400 |
| `Acme.Flow.Authorize` | `plugins/cert-letsencrypt-dns01/src/cert-ensure.ts:130-177` | one authorization: on every path a published record is withdrawn before it ends; it goes on only if the server reported the authorization valid, and stops only after a fault |
| `Acme.Flow.CertEnsure` | `plugins/cert-letsencrypt-dns01/src/cert-ensure.ts:117-198` | for any answers, failures and delays: nonces threaded, records tidy and those the challenges ask for, the asked challenge declared ready only once its record was seen, at most one store, as the last call and only after every authorization and the order were reported valid; and it succeeds unless something went wrong: a call threw, an answer lacked what is read next, an authorization or the order was refused, or ten minutes passed in vain |
| `Acme.NonceOfPreviousResponse` | `plugins/cert-letsencrypt-dns01/src/acme-client.ts:57-75` | section 6.5 of RFC 8555 on whole runs: every signed request carries the nonce of the response immediately before it |
| `Acme.CleanedUp` | `plugins/cert-letsencrypt-dns01/src/cert-ensure.ts:155-176` | every record that was published is withdrawn by the very next DNS call of the run, and there is one |
| `Acme.DeletesMatch` | `plugins/cert-letsencrypt-dns01/src/cert-ensure.ts:172-176` | nothing else is ever withdrawn |
| `Der.EncodeLength` | `plugins/cert-letsencrypt-dns01/src/der.ts:11-20` | the loop with its 32-bit shift gives the length octets |
| `Der.LengthRoundTrip` | `plugins/cert-letsencrypt-dns01/src/der.ts:11-20` | a strict decoder reads a length back exactly when it is below 2^32 |
| `Der.LengthUnique` | `plugins/cert-letsencrypt-dns01/src/der.ts:11-20` | and what it reads was written in the only minimal way |
| `Der.TlvRoundTrip` | `plugins/cert-letsencrypt-dns01/src/der.ts:22-24` | tag, content and the bytes that follow are recovered exactly when the content is shorter than 2^32 octets |
| `Der.TlvUnique` | `plugins/cert-letsencrypt-dns01/src/der.ts:22-24` | an accepted element has no other encoding |
| `Der.EncodeOid` | `plugins/cert-letsencrypt-dns01/src/der.ts:35-56` | the loops give the octets of the identifier, with the 32-bit shift and the one-octet head |
| `Der.OidRoundTrip` | `plugins/cert-letsencrypt-dns01/src/der.ts:35-56` | all arcs are recovered exactly when the first two fit one octet below 128 in the standard way and the others 32 bits |
| `Csr.RequestRoundTrip` | `plugins/cert-letsencrypt-dns01/src/csr.ts:23-39` | the exact ordered names and the key are recovered from the request info exactly when it is shorter than 2^32 octets and every code unit of a name fits an octet |
| `Csr.CsrRoundTrip` | `plugins/cert-letsencrypt-dns01/src/csr.ts:42-53` | the whole request carries the key, the names and a signature over the very info it carries |
| `Jws.DerToRawEcdsaSignature` | `plugins/cert-letsencrypt-dns01/src/jws.ts:82-104` | the offset walk with its stripping and padding loops equals the conversion, also on malformed input |
| `Jws.RawSignatureExact` | `plugins/cert-letsencrypt-dns01/src/jws.ts:82-104` | a signature with a one-octet length converts to 64 octets exactly when both components fit 256 bits, and then the halves are the components |
| `Jws.P256Signature` | `plugins/cert-letsencrypt-dns01/src/jws.ts:82-104` | every pair of components below 2^256 converts to 64 octets whose halves have their values |
| `Ndjson.NdjsonReader.OnData` | `packages/pluginhost/src/ndjson.ts:20-33` | one chunk: emits the lines it completes, keeps the rest |
| `Ndjson.ChunkingInvisible` | `packages/pluginhost/src/ndjson.ts:20-33` | however the stream is cut, the reader emits what splitting the whole stream gives, in order and once each |
| `Ndjson.SentIsReceived` | `packages/pluginhost/src/ndjson.ts:36-38` | messages arrive exactly as written, whatever the chunks |
| `JsonRpc.JsonRpcConnection.MakeCall` | `packages/pluginhost/src/jsonrpc.ts:68-77` | a call on an open connection sends its request and waits under its identifier, on a closed one fails at once and sends nothing |
| `JsonRpc.JsonRpcConnection.HandleRequest` | `packages/pluginhost/src/jsonrpc.ts:84-96` | an unknown method is answered with -32601 and starts nothing, a known one is being handled and nothing is sent |
| `JsonRpc.JsonRpcConnection.HandleResponse` | `packages/pluginhost/src/jsonrpc.ts:119-128` | a response settles the one call it belongs to, with the result or the rejection it carries, or nothing |
| `JsonRpc.JsonRpcConnection.HandleClose` | `packages/pluginhost/src/jsonrpc.ts:130-136` | the loop rejects every pending call once and none else |
| `JsonRpc.CallLife` | `packages/pluginhost/src/jsonrpc.ts:68-136` | whatever else goes on, each call settles at most once, and only by a reply with its identifier or by the close |
| `JsonRpc.CallStarts` | `packages/pluginhost/src/jsonrpc.ts:68-77` | where a new call's life begins |
| `JsonRpc.NothingPendingOnceClosed` | `packages/pluginhost/src/jsonrpc.ts:130-136` | a closed connection has no pending call and none that waits |
| `JsonRpc.ForgottenExactly` | `packages/pluginhost/src/jsonrpc.ts:119-128` | a waiting call is dropped unsettled exactly when a reply with an unreadable error or a call under the same identifier reaches it while it waits |
| `JsonRpc.SettledByClose` | `packages/pluginhost/src/jsonrpc.ts:130-136` | short of that, every call is settled exactly once by the time of the close |
| `JsonRpc.RequestsConserved` | `packages/pluginhost/src/jsonrpc.ts:84-110` | every incoming request is either being handled or answered once under its own identifier |
| `ChildRunner.TailOfAll` | `packages/pluginhost/src/child-runner.ts:149-154` | cutting after every chunk keeps the last 4096 characters of the whole standard error |
| `ChildRunner.ResolvesOnce` | `packages/pluginhost/src/child-runner.ts:165-212` | whatever comes in any order, the invocation resolves exactly once, with the value or the code and message of the first deciding event and the standard error before it; until then its timer is armed |
| `ChildRunner.Invocation.OnTimer` | `packages/pluginhost/src/child-runner.ts:167-176` | the timer kills the child and resolves with `timeout`, unless settled |
| `ChildRunner.Invocation.OnReturn` | `packages/pluginhost/src/child-runner.ts:178-186` | a reply disarms the timer, kills the child and resolves with its value, unless settled |
| `ChildRunner.Invocation.OnReject` | `packages/pluginhost/src/child-runner.ts:187-193` | the same with `invoke_error` for a failed call |
| `ChildRunner.Invocation.OnExit` | `packages/pluginhost/src/child-runner.ts:195-204` | an exit resolves with `nonzero_exit` without a kill, unless settled |
| `ChildRunner.Invocation.OnError` | `packages/pluginhost/src/child-runner.ts:206-211` | the same with `spawn_error` for a spawn error |
| `AuditLogs.AuditLog.Append` | `packages/orchestrator/src/audit-log.ts:82-101` | one more line with the next number, the hash of the entry before and, for a checkpoint, a signature |
| `AuditLogs.AuditLog.constructor` | `packages/orchestrator/src/audit-log.ts:62-80` | a new process takes up the number and hash of the last entry of the file |
| `AuditLogs.ReadAll` | `packages/orchestrator/src/audit-log.ts:118-140` | the entries of the file; blank and unparseable lines are passed over |
| `AuditLogs.AuditLog.Verify` | `packages/orchestrator/src/audit-log.ts:143-171` | the verdict on the entries of the file: valid with the count, or the first entry at fault and why |
| `AuditLogs.VerifyExactly` | `packages/orchestrator/src/audit-log.ts:143-171` | accepted exactly when every entry carries the hash of the one before, its own hash and no bad signature |
| `AuditLogs.RestartsInvisible` | `packages/orchestrator/src/audit-log.ts:62-101` | after any appends and restarts the file is the log of the inputs and the process knows its last number and hash |
| `AuditLogs.AlwaysVerifies` | `packages/orchestrator/src/audit-log.ts:143-171` | under one key `verify` is then valid with the exact count |
| `AuditLogs.EntryRecordsInput` | `packages/orchestrator/src/audit-log.ts:82-101` | the i-th entry records the i-th input under its number and is signed exactly if it is a hundredth or of one of the thirteen security-relevant kinds |
| `DockerClients.DockerClient.CreateNetwork` | `packages/orchestrator/src/execute/fake-docker-client.ts:24-29` | the new network, under a fresh id, and nothing else |
| `DockerClients.DockerClient.CreateVolume` | `packages/orchestrator/src/execute/fake-docker-client.ts:35-39` | the new volume and nothing else |
| `DockerClients.DockerClient.RemoveContainer` | `packages/orchestrator/src/execute/fake-docker-client.ts:51-55` | the container with the id goes, and nothing else |
| `DockerClients.DockerClient.StartContainer` | `packages/orchestrator/src/execute/fake-docker-client.ts:57-61` | the container with the id runs, and nothing else changes |
| `DockerClients.DockerClient.RemoveNetwork` | `packages/orchestrator/src/execute/fake-docker-client.ts:88-92` | the network with the id goes, and nothing else |
| `DockerClients.DockerClient.RemoveVolume` | `packages/orchestrator/src/execute/fake-docker-client.ts:94-96` | the volume goes, and nothing else |
| `ValidatePlan.ValidateImage` | `packages/orchestrator/src/validate/validate-plan.ts:56-59` | reports the image exactly when no grant lists `*`, the image itself, or a `base/*` with `base/` before it |
| `ValidatePlan.ValidateDevices` | `packages/orchestrator/src/validate/validate-plan.ts:84-97` | reports exactly the devices outside /dev or covered by no grant |
| `ValidatePlan.ValidateHostNetwork` | `packages/orchestrator/src/validate/validate-plan.ts:99-104` | reports host networking exactly when it is asked for without the grant |
| `ValidatePlan.ValidatePrivileged` | `packages/orchestrator/src/validate/validate-plan.ts:106-111` | the same for the privileged flag |
| `ValidatePlan.ValidateCapabilities` | `packages/orchestrator/src/validate/validate-plan.ts:113-118` | reports exactly the capabilities no grant lists |
| `ValidatePlan.ValidatePorts` | `packages/orchestrator/src/validate/validate-plan.ts:120-125` | reports the ports exactly when no single grant lists every one of them |
| `ValidatePlan.ValidateNetworks` | `packages/orchestrator/src/validate/validate-plan.ts:127-137` | reports exactly the networks that are not the service's own |
| `StateStores.StateStore.ApprovedNow` | `packages/orchestrator/src/state-store/store.ts:184-187` | true exactly when the hash has a live approval |
| `StateStores.StateStore.InsertApproval` | `packages/orchestrator/src/state-store/store.ts:163-176` | makes one approval live and changes nothing else |
| `StateStores.StateStore.Revoke` | `packages/orchestrator/src/state-store/store.ts:196-200` | ends one approval and changes nothing else |
| `Engine.ReconcileEngine.AssignRunningPromise` | `packages/orchestrator/src/reconciler/engine.ts:50-57` | the promise is set only when the first run has suspended |
| `CertStore.CertVolume.WriteGeneration` | `packages/orchestrator/src/certs/store.ts:119-129` | the effects up to the flip of `current`, in order |
| `CertStore.CertVolume.PruneThese` | `packages/orchestrator/src/certs/store.ts:131-135` | one removal a generation, in order |
| `CertStore.Previous` | `packages/orchestrator/src/certs/store.ts:153-154` | the greatest generation below the current one, if any |
| `Acme.Flow.LoadOrCreateAccountKey` | `plugins/cert-letsencrypt-dns01/src/cert-ensure.ts:56-62` | touches neither records nor the store nor the server, and fails only if a call throws or a stored key cannot be read |
| `Acme.Flow.PlaceOrder` | `plugins/cert-letsencrypt-dns01/src/cert-ensure.ts:118-126` | directory, nonce, account and order, each asked for where the answer before says; succeeds only with an accepted order that lists its authorizations, and fails only after a fault |
| `Acme.Flow.Validate` | `plugins/cert-letsencrypt-dns01/src/cert-ensure.ts:156-171` | between publishing and withdrawing: the record stays the published one, success means the server reported the authorization valid, and failure that something went wrong |
| `Acme.Flow.AuthorizeAll` | `plugins/cert-letsencrypt-dns01/src/cert-ensure.ts:130-177` | goes on only if every authorization was reported valid, and stops only after a fault |
| `Der.EncodeArc` | `plugins/cert-letsencrypt-dns01/src/der.ts:43-51` | the inner loop gives the base-128 octets of one arc |
| `Jws.ReadInt` | `plugins/cert-letsencrypt-dns01/src/jws.ts:86-100` | one INTEGER fitted to the wanted length, and where the next one starts |
| `JsonRpc.JsonRpcConnection.FinishRequest` | `packages/pluginhost/src/jsonrpc.ts:97-109` | a handler that succeeds is answered with its result, one that fails with -32000 |
| `JsonRpc.RejectAll` | `packages/pluginhost/src/jsonrpc.ts:132-134` | every pending promise gets one more settlement, and no other |
| `ChildRunner.Invocation.OnStderr` | `packages/pluginhost/src/child-runner.ts:151-154` | keeps the last 4096 characters |
| `AuditLogs.VerifyEntries` | `packages/orchestrator/src/audit-log.ts:147-170` | the verification loop stops at the first fault |
| `ExecuteStage.ExecuteGated` | `packages/orchestrator/src/reconciler/execute-stage.ts:70-75` | one turn of the loop: a parked service is only journaled; the calls added to the history are exactly those of the service's gated steps |
| `ExecuteStage.ExecuteStorage` | `packages/orchestrator/src/reconciler/execute-stage.ts:80-87` | network and named volumes of a service are its storage steps, which never fail |
| `ExecuteStage.ExecuteVolumes` | `packages/orchestrator/src/reconciler/execute-stage.ts:84-87` | the loop over the named volumes is their steps, in order |
| `ExecuteStage.Execute` | `packages/orchestrator/src/reconciler/execute-stage.ts:51-181` | the whole stage equals the fold of its step list: final view, success, the journaled step results up to a failure, and the view after every single Docker call |
| `Pipeline.GateStage` | `packages/orchestrator/src/reconciler/gate-stage.ts:98-146` | a service gets a gate entry exactly when it is powerful, tier1 or everything is gated, and it is approved exactly when its own projection hash has a live approval; the whole snapshot is the one the run machine's Gate step leaves |
| `Pipeline.TouchedExactly` | `packages/orchestrator/src/reconciler/execute-stage.ts:70-75` | the run machine passes over a service exactly when EXECUTE finds it parked in GATE's snapshot |
| `Pipeline.ParkedMakesNoCall` | `packages/orchestrator/src/reconciler/execute-stage.ts:70-75` | a parked service makes no Docker call |
| `Pipeline.ApprovalSafety` | `packages/orchestrator/src/reconciler/execute-stage.ts:70-75` | whenever EXECUTE makes a Docker call for a service, VALIDATE of the same run accepted its plan under the grants live at that moment, which were exactly those the operators had trusted its plugin with and not untrusted; and if the plan is powerful, tier1 or everything is gated, the last the operators had said of its exact hash before GATE was to approve it |
| `Pipeline.ParkedExactly` | `packages/orchestrator/src/reconciler/execute-stage.ts:70-75` | EXECUTE finds a service parked exactly when it was powerful, tier1 or everything was gated, and its hash had no live approval when GATE ran |
| `ReconcileRun.LoadFiles` | `packages/orchestrator/src/desired-state/loader.ts:123-135` | the loop over one directory: the ids that load, the errors in order, or an exception at the first document whose validation throws |
| `ReconcileRun.LoadDesiredState` | `packages/orchestrator/src/desired-state/loader.ts:114-138` | the loaded state of the framework document and both directories; a directory that cannot be read lists nothing |
| `ReconcileRun.LoadPassesExactly` | `packages/orchestrator/src/reconciler/core-stages.ts:59-73` | LOAD passes exactly when the framework document, if any, and every listed document load |
| `ReconcileRun.RunLoad` | `packages/orchestrator/src/reconciler/core-stages.ts:34-74` | the stage sets the desired state and fails on any error or exception |
| `ReconcileRun.RunExecute` | `packages/orchestrator/src/reconciler/execute-stage.ts:51-57` | EXECUTE as the run reaches it: nothing without a framework document or a plan, otherwise the pass over the plan's steps |
| `ReconcileRun.RunObserve` | `packages/orchestrator/src/reconciler/observe-stage.ts:72-157` | OBSERVE as the run reaches it: nothing without a framework document, otherwise collection, then status documents whose failure throws |
| `ReconcileRun.RunOnce` | `packages/orchestrator/src/reconciler/engine.ts:60-77` | the stage loop stops at the first failure or exception: final Docker world, verdict, and every world after each of its Docker calls; a document that fails to load leaves Docker without a single call |
| `ReconcileRun.WholeRun` | `packages/orchestrator/src/reconciler/engine.ts:60-77` | a whole run is one of the ways a run may end |
| `ObserveStage.CollectContainers` | `packages/orchestrator/src/reconciler/observe-stage.ts:92-97` | removes exactly the managed containers labelled with a service that is not desired, one call at a time |
| `ObserveStage.CollectNetworks` | `packages/orchestrator/src/reconciler/observe-stage.ts:99-104` | removes exactly the orphaned managed networks, one call at a time |
| `ObserveStage.CollectVolumes` | `packages/orchestrator/src/reconciler/observe-stage.ts:106-115` | removes exactly the orphaned volumes created with `removeVolumesOnDelete=true`, one call at a time |
| `ObserveStage.CollectGarbage` | `packages/orchestrator/src/reconciler/observe-stage.ts:91-115` | the whole collection as one function of the world and the desired services; cut after any call, containers went before networks and networks before volumes |
| `Provenance.AccountedRun` | `packages/orchestrator/src/execute/ensure.ts:17-130` | a pass keeps every network, volume and container name it found; what it leaves was there with its labels or was made by a step with that step's labels |
| `Provenance.AccountedCalls` | `packages/orchestrator/src/execute/ensure.ts:17-130` | the same after any single Docker call, except that a container being made again may be gone |
| `Provenance.PlanNetwork` | `packages/orchestrator/src/reconciler/execute-stage.ts:80-82` | a network a plan makes is labelled for the active service it is named for, also if it is the exposure network too, or is the unlabelled exposure network |
| `Provenance.PlanVolume` | `packages/orchestrator/src/reconciler/execute-stage.ts:84-87` | a volume a plan makes is a named volume of an active service, with its label and its opt-in |
| `Provenance.PlanContainer` | `packages/orchestrator/src/reconciler/execute-stage.ts:93-98` | a container a plan makes is that of an active service, with the labels of its spec last, or the proxy, which carries no service |
| `GcConservation.BrokenDocumentFreezes` | `packages/orchestrator/src/reconciler/core-stages.ts:59-69` | a run in which any listed document fails to load leaves Docker as it was, wherever it is cut off |
| `GcConservation.ObjectsDeclared` | `packages/orchestrator/src/execute/ensure.ts:17-130` | over a run cut off anywhere, whatever is new was declared by the run, networks and volumes that stay keep their labels, and containers keep theirs or are made again |
| `GcConservation.OnlyOrphansGo` | `packages/orchestrator/src/reconciler/observe-stage.ts:91-115` | for any plan and any cut, a network or volume that is gone was labelled with a service absent from desired state, and a volume moreover opted in |
| `GcConservation.ContainersLost` | `packages/orchestrator/src/reconciler/observe-stage.ts:91-97` | a container a whole run removes carried an absent service, or its service's plan carries labels that do not spare it |
| `GcConservation.SparedExactly` | `packages/orchestrator/src/execute/ensure.ts:118-124` | a fresh container is collectable exactly when its plan does not deny `wanfw.managed` and its effective `wanfw.service`, which the plan may override, is non-empty and not desired |
| `GcConservation.NewContainerFate` | `packages/orchestrator/src/execute/ensure.ts:118-124` | a container a run makes survives the run's OBSERVE exactly when the plan's labels spare it |
| `GcConservation.NetworkOrigin` | `packages/orchestrator/src/execute/ensure.ts:17-40` | any network after any history was declared by one earlier run and has been there since with the same labels |
| `GcConservation.VolumeOrigin` | `packages/orchestrator/src/execute/ensure.ts:42-62` | any volume after any history was declared by one earlier run, with the service and opt-in it still shows, and has been there since |
| `GcConservation.ContainerOrigin` | `packages/orchestrator/src/execute/ensure.ts:75-130` | any container after any history has the labels the plan of one earlier run gave it |
| `GcConservation.VolumeLoss` | `packages/orchestrator/src/reconciler/observe-stage.ts:106-115` | over any history of runs, cut off anywhere, a volume that disappears was made by an earlier run for a service that opted in and that is now absent from desired state |
| `GcConservation.NoOrphanNetwork` | `packages/orchestrator/src/reconciler/observe-stage.ts:99-104` | after a complete run, a network that an earlier run made for a service and that is still there belongs to a desired service |
| `GcConservation.ContainerFate` | `packages/orchestrator/src/reconciler/observe-stage.ts:91-97` | over any history, every container a complete run's OBSERVE finds was made from some run's plan for the service it is named for, and survives exactly when that plan's labels spare it; the proxy always survives |
| `GcConservation.NoOrphanContainer` | `packages/orchestrator/src/reconciler/observe-stage.ts:91-97` | if no plan sets `wanfw.managed` or `wanfw.service`, the containers a complete run leaves are the proxy and those of desired services |
| `GcConservation.RelabelledIsRemadeForever` | `packages/orchestrator/src/execute/ensure.ts:118-124` | a desired service whose plan sets `wanfw.service` to an undesired one: from any world without its container, the run creates it and collects it again |
| `GcConservation.OutlivesItsService` | `packages/orchestrator/src/execute/ensure.ts:118-124` | a plan that denies `wanfw.managed`, or borrows another desired service's label, leaves a container behind when its service is gone |
| `GcConservation.UnreadableDirectoryCollectsAll` | `packages/orchestrator/src/desired-state/loader.ts:98-101` | a services directory that cannot be read is no error: nothing is desired, and a complete run collects every managed, owned container and network |
| `Engine.LostExactly` | `packages/orchestrator/src/reconciler/engine.ts:44-58` | in every interleaving, re-entrant triggers and exceptions included: with nothing in flight, a trigger is unserved exactly when an exception ended the last live run, with the promise set, before any run had started for the trigger |
| `Engine.NoLostTrigger` | `packages/orchestrator/src/reconciler/engine.ts:44-58` | so without exceptions each trigger is followed by a run that starts at or after it before the engine goes idle |
| `Engine.ThrowIsFatal` | `packages/orchestrator/src/reconciler/engine.ts:50-57` | without re-entrant triggers every exception that ends a suspended run is of that kind |
| `Engine.ThrowWedges` | `packages/orchestrator/src/reconciler/engine.ts:50-57` | after it the promise stays set and no trigger ever starts a run |
| `Ipam.OverlapOverwrites` | `packages/orchestrator/src/state-store/store.ts:308-330` | from an empty store: two ranges with one CIDR, one allocation each, and the second takes the first one's live address and row |
| `Ipam.DisjointRangesNeverOverwrite` | `packages/orchestrator/src/state-store/store.ts:308-330` | over any operations on any ranges, while no host is ever listed by registrations under two ids, no live row is overwritten; only its release ends it |
| `Renewal.MachineIsEngine` | `packages/orchestrator/src/reconciler/renewal-stage.ts:102-104` | the engine that the stage triggers from inside its runs is the engine: its history is what engine events and successful or storing attempts emit |
| `Renewal.LoopFollowsRenewals` | `packages/orchestrator/src/reconciler/renewal-stage.ts:102-104` | without triggers from outside, the loop makes one more run for each run in a row whose renewal stage triggers, and then is idle |
| `Renewal.ExactlyOneFollowUp` | `packages/orchestrator/src/reconciler/renewal-stage.ts:100-104` | from any engine history that leaves one run in flight: if its renewal succeeds and stores the names, exactly one further run follows, renews nothing, and leaves the engine idle |
| `Acme.Flow.WaitForPropagation` | `plugins/cert-letsencrypt-dns01/src/cert-ensure.ts:77-87` | at most 300 resolutions if each sleep takes its interval; success only right after the expected value was seen, failure only if a call throws or ten minutes pass without it |
| `Acme.Flow.PollUntilDone` | `plugins/cert-letsencrypt-dns01/src/cert-ensure.ts:89-106` | at most 300 polls under the same condition; returns only a resource the server just reported done or invalid, and anything but done is a fault |
| `CanonicalJson.CanonicalizeValue` | `packages/core-schemas/src/canonical-json.ts:15-28` | the recursion with its loop over the sorted keys; the assignment to `__proto__` leaves no member |
| `CanonicalJson.CanonicalizeBare` | `packages/core-schemas/src/canonical-json.ts:15-28` | canonicalizing is removing the members called `__proto__` at every depth and sorting the keys of what is left |
| `CanonicalJson.CanonicalTextIdentifies` | `packages/core-schemas/src/canonical-json.ts:15-33` | two values have the same canonical text exactly when, without their `__proto__` members at every depth, they are equal up to the order of object keys |
| `AuditLogs.LastHashFixesLog` | `packages/orchestrator/src/audit-log.ts:143-171` | with a collision-free digest that never gives the genesis value, two accepted logs with the same last hash agree entry by entry up to signatures, key order and `__proto__` members |
| `AuditLogs.LogsAgreeWithoutProto` | `packages/orchestrator/src/audit-log.ts:143-171` | and up to signatures and key order alone when neither holds a `__proto__` member |
| `AuditLogs.PassesForExactly` | `packages/orchestrator/src/audit-log.ts:143-171` | a log passes for an accepted one, with its last hash, exactly when it holds the same records and no signature that does not fit |
| `AuditLogs.ProtoMemberUnseen` | `packages/orchestrator/src/audit-log.ts:151-152` | any entry of an accepted log may gain a `__proto__` member: the changed log is accepted with the same count and last hash |
| `AuditLogs.SignaturesRemovable` | `packages/orchestrator/src/audit-log.ts:156-166` | an accepted log without any of its signatures is accepted with the same count and last hash |
| `AuditLogs.CutAccepted` | `packages/orchestrator/src/audit-log.ts:147-170` | an accepted log cut after any entry is accepted |
| `ExecuteProperties.PassesFixed` | `packages/orchestrator/src/reconciler/execute-stage.ts:70-155` | after a first successful pass any number of further passes leaves the same world |
| `ExecuteProperties.OverriddenLabelNeverSettles` | `packages/orchestrator/src/execute/ensure.ts:118-124` | a plan that overrides the hash label is recreated by every pass: none after the first is quiet |
| `Renewal.NamesMatchExactly` | `packages/orchestrator/src/reconciler/renewal-stage.ts:50-50` | for names without commas, the comparison of sorted joins is equality of multisets, except that no names match one empty name |
| `JsonRpc.JsonRpcConnection.RegisterMethod` | `packages/pluginhost/src/jsonrpc.ts:64-66` | adds a method and touches no call |
| `VolumeOwnership.PassesExactly` | `packages/orchestrator/src/validate/validate-plan.ts:62-70` | a volume mount offends exactly when its source does not start with `wanfw_<id>` |
| `VolumeOwnership.NamedVolumesExactly` | `packages/orchestrator/src/reconciler/execute-stage.ts:32-34` | the named volumes of a service are its volume mounts with that prefix |
| `VolumeOwnership.SharedExactly` | `packages/orchestrator/src/validate/validate-plan.ts:62-70` | two services can both own a volume exactly when one id is a prefix of the other |
| `VolumeOwnership.OwnVolumesStay` | `packages/orchestrator/src/reconciler/observe-stage.ts:106-115` | in any history, no run, cut off or not, takes a volume of a desired service whose id no other service's id is a prefix of or extends |
| `VolumeOwnership.RelatedIdsLoseData` | `packages/orchestrator/src/reconciler/observe-stage.ts:106-115` | for any two ids of which one is a prefix of the other: removing the one service deletes a volume of the other, and the same run once more makes it again |
| `RunConvergence.WholeRunConverges` | `packages/orchestrator/src/reconciler/engine.ts:65-77` | a run cut off after any call of EXECUTE or OBSERVE and made again ends where the uninterrupted run ends, if nothing its steps rely on is about to be collected |
| `RunConvergence.OrdinaryRunsConverge` | `packages/orchestrator/src/reconciler/engine.ts:65-77` | in any history of plans within their own networks, without those labels, nothing parked and no related ids, every run cut off anywhere converges so |
| `ExecuteOutcome.ServiceDeployed` | `packages/orchestrator/src/reconciler/execute-stage.ts:76-109` | after a successful EXECUTE every service not parked has its network and its own volumes, and its container runs under the hash of its plan, attached to every network the plan lists, or to its own if it lists none |
| `ExecuteOutcome.ServiceLabelled` | `packages/orchestrator/src/reconciler/execute-stage.ts:93-98` | a service container that was not there before carries its plan's labels over `wanfw.managed`, `wanfw.service` and the hash, and no others |
| `ExecuteOutcome.ProxyDeployed` | `packages/orchestrator/src/reconciler/execute-stage.ts:112-149` | after a successful EXECUTE with an exposure network the proxy runs with the pinned image, both volumes read-only and the host ports, attached to that network and to every service's |
| `ExecuteOutcome.ParkedAndReloadJournaled` | `packages/orchestrator/src/reconciler/execute-stage.ts:70-181` | a successful EXECUTE journals every parked service as parked, and the reload last if there is a render |
| `ExecuteOutcome.ChangedExactly` | `packages/orchestrator/src/execute/ensure.ts:17-152` | a step is journaled as changed exactly when it made a Docker call; a reload exactly when it succeeds |
| `ExecuteOutcome.NothingRelabelled` | `packages/orchestrator/src/execute/ensure.ts:96-130` | no single call of a pass changes the labels of anything that stays: a container is removed before it is made again |
| `StateStores.ApprovedExactly` | `packages/orchestrator/src/state-store/store.ts:163-200` | after any operations from an empty store a hash is approved exactly when the last said of it was to approve it |
| `StateStores.GrantedExactly` | `packages/orchestrator/src/trust/trust-flow.ts:48-71` | a plugin has a live grant exactly when it was trusted with it and not untrusted since |
| `StateStores.TrustedExactly` | `packages/orchestrator/src/trust/trust-flow.ts:144-156` | a plugin is trusted exactly when it was trusted and not untrusted since |
| `StateStores.LastRecorded` | `packages/orchestrator/src/trust/trust-flow.ts:48-71` | whatever else is done, a trust record shows the bundle hash it was last given, and an approval the service it was last given for |
| `Pipeline.StoreOfActions` | `packages/orchestrator/src/reconciler/gate-stage.ts:98-146` | no stage writes the store: after any events it is what the operators' actions make of it |
| `ScopeMatcher.NamePrefixExactly` | `packages/orchestrator/src/host-api/scope-matcher.ts:44-50` | the string tests hold exactly when some pattern is `*`, the name itself, or a `base/*` with `base/` before the name |
| `ScopeMatcher.PortRangeExactly` | `packages/orchestrator/src/host-api/scope-matcher.ts:75-81` | holds exactly when every requested port is listed |
| `ValidatePlan.BaselineExactly` | `packages/orchestrator/src/validate/validate-plan.ts:61-173` | a plan is baseline exactly when its projection shows nothing but the service and its image |
| `Renewal.DegradedExactly` | `packages/orchestrator/src/renewal/scheduler.ts:17-17` | the escalation test, through its rounding to days, is no certificate or one older than 83 days |
| `Renewal.AttemptsExactly` | `packages/orchestrator/src/renewal/scheduler.ts:57-101` | the issuer is invoked exactly when the certificate does not cover the names or is 60 days old, and the pause of 1, 4, 12 or 24 hours after failures, or of a jittered day after a success, is over |
| `Renewal.PolynomialConcat` | `packages/orchestrator/src/renewal/scheduler.ts:51-55` | the hash behind the jitter is base-31 positional: appending shifts by a power of 31 |
| `JsonRpc.Wire` | `packages/pluginhost/src/jsonrpc.ts:68-110` | over any history: what each event sends and which requests it leaves running |
| `JsonRpc.ClosedExactly` | `packages/pluginhost/src/jsonrpc.ts:130-136` | the connection is closed exactly when a close has happened |
| `Acme.FindsFirst` | `plugins/cert-letsencrypt-dns01/src/cert-ensure.ts:148-149` | the search finds the first challenge of type `dns-01`, or there is none |
| `Acme.BuiltAsAsked` | `plugins/cert-letsencrypt-dns01/src/cert-ensure.ts:64-75` | the record built is the one the authorization asks for: the identifier without its wildcard below `_acme-challenge.`, and the digest of token and thumbprint |
| `ReconcileRun.RunExactly` | `packages/orchestrator/src/reconciler/engine.ts:60-77` | a run stopped before EXECUTE, or without a framework document, leaves Docker alone at every moment; any other ends where its pass ends and, if that completes, where collection for the loaded services ends |
| `Der.LengthForm` | `plugins/cert-letsencrypt-dns01/src/der.ts:11-20` | section 8.1.3 of X.690: one octet below 128, otherwise the count of octets with the top bit set and the octets, without leading zeros, of the value |
| `Der.KnownOctets` | `plugins/cert-letsencrypt-dns01/src/csr.ts:23-48` | the octets of the three identifiers the request uses |
| `Sorting.StringLeExactly` | `packages/core-schemas/src/projection.ts:37-72` | the order of sorted strings: a beginning first, otherwise by the first code unit that differs |
| `Ndjson.LineEmits` | `packages/pluginhost/src/ndjson.ts:20-33` | one line: nothing if it is white space, its value, or an error with the line |
| `ChildRunner.StderrShown` | `packages/pluginhost/src/child-runner.ts:163-163` | a message shows the standard error after a colon, without the white space around it, if there is any |
| `AuditLogs.FaultExactly` | `packages/orchestrator/src/audit-log.ts:147-170` | any other verdict names the first entry that does not follow and what is wrong with it, or throws because that entry is null |
| `Ipam.ReleasedUntilHandedOut` | `packages/orchestrator/src/state-store/store.ts:308-337` | over any operations a released address is live again only after a later call hands it out |
| `Ipam.ReleaseFrees` | `packages/orchestrator/src/state-store/store.ts:333-337` | a release ends the one live row, keeps who had it, and leaves everything else |
| `Ipam.RangeAsLastSet` | `packages/orchestrator/src/state-store/store.ts:261-268` | over any operations a range is registered as it was last registered |
| `Cidr.DottedExactly` | `packages/orchestrator/src/ipam/cidr.ts:9-19` | a dotted address is read exactly when each of its four numbers is below 256, and is then the number in base 256 |
| `Cidr.CidrExactly` | `packages/orchestrator/src/ipam/cidr.ts:27-46` | a written range is read exactly when its address is and its prefix is at most 32, with that address and prefix |

## Left out

- Docker object ids, the `wanfw.plan` label, network driver options and `exec` output are not part of the compared view; the view
  holds networks, volumes and their labels, and containers with labels, state and attachments.
- Docker's lookups are those of the in-memory client (by name), with the real client's "network not found"; image pulls, conflicts and
  other daemon errors are left out. A run that ends at a failing call is a run cut off after the call before it.
- `proxy.reload` is one step with its exit status.
- ExecuteStage.Execute: journals a failed attachment as that step with the result `Failed`; the source writes an `error:` entry for the service or the proxy in its place.
- ExecuteProperties.SecondExecuteQuiet: holds for the in-memory client, whose lookups ignore `wanfw.managed`; the real client filters on it (`packages/orchestrator/src/execute/docker-client.ts:173-187`), so a plan that overrides that label makes the second pass create a container under a name that exists, and fail.
- ReconcileRun.RunOnce: what RESOLVE, PLAN, RENEWAL, VALIDATE and GATE answer is arbitrary; VALIDATE, GATE and RENEWAL have their own models. The range registration LOAD makes is left out.
- Optional arrays and strings of a container spec are identified with empty ones, as every reader of them does.
- Document migrations and schema validation behind a document's verdict, the RESOLVE and PLAN stages beyond cycle detection. `Pipeline` models runs that have a framework document and a plan; `ReconcileRun` also the others.
- Validator warnings about environment keys, gate banners, human rendering, status documents and log messages: display only.
- JSON numbers are integers. Strings are sequences of Unicode scalar values, so lone surrogates are left out. An object lists its
  members in the order JavaScript enumerates them; integer-like keys, which JavaScript enumerates first, are not given that order.
- Certificate files: writing one directory and pruning one generation are single effects; leftover temporary directories, which the
  listing ignores, are not kept. `fsync` and permissions are left out.
- Renewal.EscalatesOnlyBeforeFirstIssue: assumes that names are required and an issuer is bound in every run, because without them the stage does not renew.
- ACME: the advisory `dnsQuery` log call, failures of local signing and key generation, and the text of errors.
- Csr.RequestRoundTrip: the public key is any SEQUENCE, because the key export is a library call.
- Object identifiers are modelled from their list of arcs; splitting the dotted text is left out.
- NDJSON: a message listener that throws, and the `end` and `error` events of the stream.
- JSON-RPC: messages that are not objects, and parameters that cannot be written as JSON. A handler is just its success or failure.
- Child runner: the bundle hash check, the environment and the spawn command before the race.
- Audit log: a log whose last entry has no integer number or text hash cannot be taken up; appending to a torn last line, and
  verification across a key change, are left out.
- tier1 pages, the command-line client, socket servers, plugins other than the ACME one: user interface and plumbing.
