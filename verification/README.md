# kiac, modelled in Dafny

kiac runs Kubernetes clusters on Apple silicon: nodes are lightweight virtual machines, GPU nodes
run under krunkit, and small Go programs and a shell controller tie them together. This project
models the parts of kiac whose correctness depends on order, crashes, interleavings or exact text,
and proves what they promise. Code that changes things step by step is a class or a loop proved
against a specification; a protocol is a state machine over its steps; text is a function with its
inverse. `dafny verify dfyconfig.toml` checks everything.

| file | what it models |
|---|---|
| VulkanLifetime, VulkanProbe | the Vulkan transfer probe as a trace of native calls, judged by a monitor of the object-lifetime rules |
| LoadBalancer | the kiac-lb controller: passes over Services and nodes, and whole runs of them |
| JsonPatch, CompatWebhook, CompatMeaning | the NVIDIA compatibility webhook: JSON Pointer and JSON Patch, the in-place rewrite, and that the patch means the rewrite |
| KrunkitStore, GuestAddress | the krunkit inventory with its subnets, and guest address reports across boots |
| EdgeProxy, EdgeTunnel | route tables every node computes for itself, and why one node's tunnel is accepted by its peer |
| GpuInspect | GPU memory accounting from unordered API lists |
| ExternalWorker, WorkerCidr | crash-tolerant join, start, stop and delete of external workers, and their address ranges as sets |
| HealthLease, DevicePlugin | the GPU health lease under every interleaving, and registration with the kubelet |
| EdgeHeal | healing of the edge proxy's credentials, interrupted anywhere |
| ShellQuote, NetAddr, PublishSpec, MountSpec, NodeNames | command lines, address text, port and mount specifications, node names |
| Text, Sums, Options | shared helpers |

Seven properties one might expect do not hold of the code as it is. Each has a lemma with the failing
case and one with the exact condition:

- A published TCP port whose IPv6 zone contains a slash is accepted, but its printed form is refused
  (`PublishSpec.SlashInZone`, `PublishSpec.ShowReadsExactly`).
- An external worker's VM can be left without its record: by a failed creation that also fails to roll
  back, or by a join's cleanup or a delete to which the runtime reports a removal that did not happen,
  after a crash between spawning and recording the VM, a failing process lookup or a failing stat
  (`ExternalWorker.OrphanReachable`, `ExternalWorker.CrashThenDelete`, `ExternalWorker.BlindDelete`,
  `ExternalWorker.UnfoundIsOrphaned`; the exact conditions are `RunLeavesExactly`, `LiesExactly` and the contracts of `Join` and `LocalAction`).
- A create on the name of an existing VM that a failing stat hides goes on, and its rollback removes that
  VM (`KrunkitStore.UnseenVMRemoved`, `KrunkitStore.FailedCreateUnchanged`).
- A network record that cannot be read is taken for missing and written over, under nodes that use it
  (`KrunkitStore.UnreadableRecordOverwritten`, `KrunkitStore.ReadsSafeExactly`).
- A guest left running outside the record can report its address under the next generation, either
  after a failed start or because a failing process lookup hides a running VM from a start
  (`GuestAddress.LingeringGuestMisleads`, `GuestAddress.UnownedStartMisleads`,
  `GuestAddress.ForeignExactly`, `GuestAddress.MisleadsExactly`). The comment on the preparation in
  `pkg/runtime/krunkit_address.go` says that ownership confirms the VM is stopped; the code also goes on
  when the lookup fails, and the model follows the code.
- The device plugin registers twice when the kubelet's socket is replaced between the look and the
  call, or when a look fails on a socket that is there (`DevicePlugin.ReplacedBeforeTheCall`,
  `DevicePlugin.FailedLookForgets`; `AttemptExactly`, `AtMostOnceExactly` and `OncePerSocketExactly` say when).
- The driver's memory of the taint it published differs from the API when a call takes effect and
  reports failure, and an unhealthy device can then stay untainted (`HealthLease.UntaintedWhileUnhealthy`,
  `HealthLease.PreviousIsPublishedExactly`, `HealthLease.LeftWrongExactly`).

Three more hold under a guard the code does not state: a failed create of a new node leaves the inventory
unchanged exactly when nothing was recorded or the rollback worked (`KrunkitStore.FailedCreateUnchanged`),
a second kiac-lb pass can still patch when a family was unmet (`LoadBalancer.UnmetFamilyCanReopen`, while
`LoadBalancer.PassesSettle` bounds how long that can go on), and the compatibility patch applies exactly
when the Pod document has a metadata object (`CompatMeaning.PatchApplies`).

## Model

| member | source | states |
|---|---|---|
| VulkanLifetime.DestroyedExactlyOnce | internal/gpudriver/vulkanprobe/vulkan_probe.go:345-372 | in every accepted trace of native calls each object is created at most once, and destroyed exactly once unless it is still alive at the end |
| VulkanLifetime.ChildrenDestroyedFirst | internal/gpudriver/vulkanprobe/vulkan_probe.go:345-372 | whenever a parent is destroyed, each object created from it was destroyed earlier |
| VulkanLifetime.NeverReleasedInFlight | internal/gpudriver/vulkanprobe/vulkan_probe.go:345-372 | between a submission and the destruction of anything it uses, the completion of the work was observed |
| VulkanLifetime.PendingUntilComplete | internal/gpudriver/vulkanprobe/vulkan_probe.go:502-528 | submitted work stays pending until a completion is observed |
| VulkanProbe.FindPhysical | internal/gpudriver/vulkanprobe/vulkan_probe.go:277-298 | the physical device found is the first real Venus one; not found means there is none; cancellation can stop the scan |
| VulkanProbe.FindFamily | internal/gpudriver/vulkanprobe/vulkan_probe.go:311-321 | the queue family found is the first usable one, and none is missed |
| VulkanProbe.FindMemoryType | internal/gpudriver/vulkanprobe/vulkan_probe.go:409-418 | the memory type found is the first that the buffer allows, is host visible and coherent, and has a heap that fits |
| VulkanProbe.Probe.ReadBack | internal/gpudriver/vulkanprobe/vulkan_probe.go:532-538 | success exactly when every word of the mapping is the sentinel |
| VulkanProbe.Probe.AwaitFence | internal/gpudriver/vulkanprobe/vulkan_probe.go:511-531 | success only if the fence was seen signalled after a submission; a timeout leaves the work in flight |
| VulkanProbe.Probe.WaitIdle | internal/gpudriver/vulkanprobe/vulkan_probe.go:349-355 | the probe is marked unsafe exactly when work may still run after waiting for the device |
| VulkanProbe.Probe.ReleaseAll | internal/gpudriver/vulkanprobe/vulkan_probe.go:356-371 | fence, pool, buffer, mapping, memory and device are released in an order every lifetime rule accepts, and none is left |
| VulkanProbe.Probe.Cleanup | internal/gpudriver/vulkanprobe/vulkan_probe.go:345-372 | with work still in flight nothing is released; otherwise everything below the instance is |
| VulkanProbe.Probe.Transfer | internal/gpudriver/vulkanprobe/vulkan_probe.go:373-538 | success means completion was observed through the fence and every word, cleared by the host, now holds what the device wrote |
| VulkanProbe.Probe.ProbeVulkan | internal/gpudriver/vulkanprobe/vulkan_probe.go:243-539 | for every result of every native call and every cancellation: the trace obeys the lifetime rules; unless unsafe, nothing is left alive, mapped or pending; when unsafe, nothing was destroyed and everything is still held; success means fence and sentinel |
| VulkanProbe.Probe.Run | internal/gpudriver/vulkanprobe/vulkan_probe.go:184-206 | the same for the whole run, and the loader library stays open exactly when work may still be in flight |
| LoadBalancer.EligibleExactly | pkg/cluster/lb.go:67-79 | eligible nodes are the ready ones with an address: workers only, unless the cluster has no worker |
| LoadBalancer.Controller.ChooseAddr | pkg/cluster/lb.go:124-138 | the loop returns the address of the first acceptable candidate |
| LoadBalancer.ChooseIsFirst | pkg/cluster/lb.go:124-138 | the choice is the first candidate with an address of the family and no port conflict, and none exists when it fails |
| LoadBalancer.FollowsPreference | pkg/cluster/lb.go:118-138 | a node hosting an endpoint is taken when one is acceptable, else the primary node, else any eligible node |
| LoadBalancer.ChooseFailsExactly | pkg/cluster/lb.go:124-138 | no address is found exactly when every eligible node with an address of the family conflicts |
| LoadBalancer.KeptIsFirst | pkg/cluster/lb.go:189-203 | the first eligible status address of a family is the one kept |
| LoadBalancer.FirstEligibleSurvives | pkg/cluster/lb.go:189-228 | that address is still in status after the pass, patched or not |
| LoadBalancer.Controller.FirstSweep | pkg/cluster/lb.go:167-188 | after the first sweep the claims are exactly the ports of every status address that is still eligible |
| LoadBalancer.Controller.Reconcile | pkg/cluster/lb.go:189-228 | one Service: claims and status become what the plan for its families says, with at most one patch |
| LoadBalancer.Controller.Pass | pkg/cluster/lb.go:167-229 | a pass turns the statuses into the planned ones, or changes nothing when a listing fails or no node is eligible |
| LoadBalancer.ServicePlanSound | pkg/cluster/lb.go:189-228 | every planned address is eligible and was already in status or free of the Service's ports, and is claimed |
| LoadBalancer.NoNewConflict | pkg/cluster/lb.go:167-229 | from any statuses whatever, a pass creates no shared address and port that was not there before |
| LoadBalancer.RunsStayConflictFree | pkg/cluster/lb.go:97-229 | over every run of passes, node changes, failed patches, creations, deletions and port edits of unassigned Services, conflict-free statuses stay conflict-free |
| LoadBalancer.SettledStays | pkg/cluster/lb.go:189-228 | a Service whose families were all met is not patched again on the same cluster, whatever else is claimed |
| LoadBalancer.SecondPassPatchesNothing | pkg/cluster/lb.go:167-229 | after a pass that met every family with every patch applied, another pass patches nothing |
| LoadBalancer.UnmetFamilyCanReopen | pkg/cluster/lb.go:189-228 | one pass need not be final: a pass with an unmet family can be followed by one that patches |
| LoadBalancer.PatchDecreases | pkg/cluster/lb.go:189-228 | a patch always leaves a Service with fewer unmet families, or as many and no surplus address, whatever else is claimed |
| LoadBalancer.PassesSettle | pkg/cluster/lb.go:97-229 | from any statuses, with unmet families too, repeated passes over a fixed cluster reach statuses that no further pass changes, after as many passes as the total distance |
| LoadBalancer.DistanceBounded | pkg/cluster/lb.go:97-229 | that distance is at most one more than twice the requested families, per Service |
| JsonPatch.EscapeRoundTrip | internal/gpudriver/main.go:636-638 | JSON Pointer escaping is undone by unescaping (sections 3 and 4 of RFC 6901) |
| JsonPatch.ParseSnoc | internal/gpudriver/main.go:598-634 | appending an escaped token to a pointer appends that token to the parsed path |
| CompatWebhook.Rewriter.FindAlias | internal/gpudriver/main.go:598-620 | the number of NVIDIA aliases in a resource list, whatever order the map yields its keys |
| CompatWebhook.Rewriter.RewriteList | internal/gpudriver/main.go:598-634 | a list is refused for two aliases or a disagreeing quantity; otherwise it becomes the renamed list and its operations are appended |
| CompatWebhook.Rewriter.RewriteGroup | internal/gpudriver/main.go:548-563 | a container group is rewritten completely or refused |
| CompatWebhook.Rewriter.Patches | internal/gpudriver/main.go:548-597 | the whole decision: denied, nothing to do, or one patch with the single alias; the Pod in memory becomes the rewritten one |
| CompatWebhook.JudgeSpec | internal/gpudriver/main.go:598-634 | a rename happens only with exactly one alias and takes its quantity; a list is untouched exactly when it has no alias |
| CompatMeaning.ContainerApplied | internal/gpudriver/main.go:598-634 | the operations for one container, applied in order, give exactly its renamed lists and change nothing else |
| CompatMeaning.PatchApplies | internal/gpudriver/main.go:548-597 | the patch applies to the original document exactly when that has a metadata object, and then yields exactly the rewritten lists, the annotation and the toleration (section 4 of RFC 6902) |
| CompatMeaning.PatchMeansRewrite | internal/gpudriver/main.go:548-651 | the patched document decodes to the Pod the in-place rewrite produced, with annotation and toleration |
| CompatMeaning.RewriteSettles | internal/gpudriver/main.go:548-651 | the result is tolerated on GPU nodes, carries the annotation, and a second rewrite does nothing |
| KrunkitStore.HashFnv32 | pkg/runtime/krunkit_state.go:296-304 | the loop computes the 32-bit FNV-1a hash with wrap-around |
| KrunkitStore.EveryOctetProbed | pkg/runtime/krunkit_state.go:236-244 | the cyclic probe reaches each of the 145 octets |
| KrunkitStore.ChooseOctet | pkg/runtime/krunkit_state.go:236-247 | the subnet chosen is free, and the choice fails exactly when all 145 octets 105..249 are used |
| KrunkitStore.KrunkitClient.EnsureNetwork | pkg/runtime/krunkit_state.go:187-260 | a readable record is reused; otherwise the first free octet from the hashed start is written |
| KrunkitStore.KrunkitClient.RunDetached | pkg/runtime/krunkit.go:257-331 | create passes through exactly the listed durable states and succeeds exactly when every step does; on a consistent store with safe reads every one of these states is consistent |
| KrunkitStore.KrunkitClient.RemoveOne | pkg/runtime/krunkit.go:981-1039 | remove passes through exactly the listed durable states, and with safe reads keeps each of them consistent |
| KrunkitStore.StatesConsistent | pkg/runtime/krunkit.go:257-331 | with safe reads each durable state of each operation is consistent, so a crash anywhere leaves a consistent store |
| KrunkitStore.RunsConsistent | pkg/runtime/krunkit.go:257-331 | over every run with failures and crashes whose reads are safe, distinct networks hold distinct subnets and every node's network exists with the CIDR it recorded |
| KrunkitStore.FailedCreateUnchanged | pkg/runtime/krunkit.go:257-331 | a failed create leaves the inventory unchanged exactly when it was refused, or, for a new name, no record was written or the rollback removed it, or, for a VM its check could not see, the rollback failed and that record was not replaced |
| KrunkitStore.UnseenVMRemoved | pkg/runtime/krunkit.go:257-331 | a create on the name of a VM its check cannot see, when it fails, removes that VM in its rollback |
| KrunkitStore.EnsureSafeExactly | pkg/runtime/krunkit_state.go:187-260 | ensuring a network keeps the store consistent on every host exactly when its own record can be read, or every octet it could be given is free and leaves no running node on another subnet |
| KrunkitStore.DropSafeExactly | pkg/runtime/krunkit.go:1023-1039 | dropping a network keeps every node backed exactly when the scan sees some node that uses it, or none does |
| KrunkitStore.ScanSafeExactly | pkg/runtime/krunkit.go:1023-1039 | a scan is safe for a node that comes or goes exactly when it decides rightly with the node and without it |
| KrunkitStore.ReadsSafeExactly | pkg/runtime/krunkit.go:257-331 | the guard of the runs is exact: an operation keeps every state consistent, on every host and with every fault, if and only if its reads are safe |
| KrunkitStore.AllReadableIsSafe | pkg/runtime/krunkit_state.go:222-247 | readable network and node files are always enough |
| KrunkitStore.UnreadableRecordOverwritten | pkg/runtime/krunkit_state.go:187-260 | a network record that cannot be read is written over, and a node on it is left with another subnet than it recorded |
| GuestAddress.Host.PrepareReport | pkg/runtime/krunkit_address.go:84-112 | success leaves no address for any identity and a generation newer than the record and than every guest has read; a failure leaves no new generation; the order of generations is kept |
| GuestAddress.Host.StartVM | pkg/runtime/krunkit.go:427-551 | an owned VM is left alone; a start past preparation leaves no address until a guest reports; a completed one records a live boot under a generation newer than any before |
| GuestAddress.Host.StopVM | pkg/runtime/krunkit.go:901-949 | a stop changes no address, and success means that no process is recorded any more |
| GuestAddress.Host.ReadAddress | pkg/runtime/krunkit_address.go:140-194 | an address is returned exactly when the report has the recorded generation, the node's identity and a valid address |
| GuestAddress.AddressIsCurrent | pkg/runtime/krunkit_address.go:84-194 | over every run of starts, stops and guest writes, an address carries the last recorded generation, lies in the node's own pool, and was reported after that generation was made |
| GuestAddress.AddressFromRecordedBoot | pkg/runtime/krunkit_address.go:140-194 | as long as no start let a guest out of the record, the address was reported by the boot that is recorded |
| GuestAddress.StepExclusive | pkg/runtime/krunkit.go:427-551 | a guest outside the record appears in a step exactly when the step is a start of a VM not taken to be owned that records a boot beside a live one, or whose boot outlives a failure to record it |
| GuestAddress.ForeignExactly | pkg/runtime/krunkit.go:427-551 | so in every run some guest has been alive outside the record exactly when such a start happened |
| GuestAddress.RunsKnown | pkg/runtime/krunkit.go:427-551 | process lookups that work and failed starts that end their VM are enough: then no guest ever runs outside the record |
| GuestAddress.LingeringGuestMisleads | pkg/runtime/krunkit.go:520-551 | otherwise it need not: a VM left behind by a failed start can report under the next generation |
| GuestAddress.UnownedStartMisleads | pkg/runtime/krunkit.go:1048-1078 | a start whose process lookup fails on a running VM boots a second one, and the old guest reports under the new generation |
| GuestAddress.MisleadsExactly | pkg/runtime/krunkit_address.go:84-194 | from any world, some steps of a guest pass its address off as the recorded boot's exactly when it is alive, is not that boot, and has read the recorded generation or can still read it |
| GuestAddress.NoReportSurvivesAStart | pkg/runtime/krunkit.go:477-551 | a start that gets past preparation leaves no address until the guest reports again |
| EdgeProxy.HostPortRoundTrip | cmd/kiac-edge-proxy/main.go:844-850 | host:port text, bracketed for IPv6, splits back into host and port |
| EdgeProxy.DecimalPlain | cmd/kiac-edge-proxy/main.go:311-318 | a printed port passes the port test exactly when it is 1..65535 |
| EdgeProxy.ReadNode | cmd/kiac-edge-proxy/main.go:774-795 | the first InternalIP of each family is kept |
| EdgeProxy.ReadNodes | cmd/kiac-edge-proxy/main.go:774-795 | the address map gives, per name and family, the first InternalIP reported under that name |
| EdgeProxy.MatchingEndpoints | cmd/kiac-edge-proxy/main.go:822-856 | the nested loops list exactly the targets of the specification, in order |
| EdgeProxy.MatchingExactly | cmd/kiac-edge-proxy/main.go:822-869 | a target is listed exactly when a ready endpoint of the right family and a matching TCP port back it |
| EdgeProxy.FindRoute | cmd/kiac-edge-proxy/main.go:801-820 | the two searches give the chosen route |
| EdgeProxy.RouteMeaning | cmd/kiac-edge-proxy/main.go:801-820 | a route uses only targets that back the port; a local one wins whenever there is one; a tunnel leads to the node of its own target; there is no route exactly when nothing backs the port |
| EdgeTunnel.AllowLocalTargets | cmd/kiac-edge-proxy/main.go:741-747 | the allowlist grows by exactly the targets on this node |
| EdgeTunnel.AddPorts | cmd/kiac-edge-proxy/main.go:687-707 | per Service: exactly its local targets of both families are allowed and each node port gets a route per family |
| EdgeTunnel.AddIngress | cmd/kiac-edge-proxy/main.go:711-736 | LoadBalancer entries are routes of the ingress address's family; without an iptables failure every key of the address has its entry, and a failure stops with the entries so far |
| EdgeTunnel.AddServiceRules | cmd/kiac-edge-proxy/main.go:681-739 | every entry is the route of a Service port in the family of its key; the allowlist is exactly the local targets of the Services reached; without an iptables failure all are reached and the LoadBalancer keys are exactly those some Service asks for |
| EdgeTunnel.TunnelsLeadHome | cmd/kiac-edge-proxy/main.go:217-250 | every tunnel a node emits leads to the proxy on the own node of an endpoint that backs some Service port |
| EdgeTunnel.TunnelArrives | cmd/kiac-edge-proxy/main.go:217-345 | with one snapshot, token, port and IPv6 capability, the peer on that node serves it as a tunnel, authenticates its header, finds its target allowed and dials exactly it, if and only if the target's own port is 1..65535 |
| EdgeTunnel.EndToEnd | cmd/kiac-edge-proxy/main.go:217-375 | from a client's connection on one node to the dial on the other: the tunnel goes to the proxy on the node of some endpoint, which serves it and dials that endpoint, if and only if that endpoint's own port is 1..65535 |
| EdgeTunnel.OnePort | cmd/kiac-edge-proxy/main.go:844-850 | the text of a target determines its port |
| EdgeTunnel.TunnelsOccur | cmd/kiac-edge-proxy/main.go:801-820 | a Service whose only endpoint is on another node with an address is routed through that node's proxy |
| EdgeTunnel.PartialPeer | cmd/kiac-edge-proxy/main.go:505-545 | a peer stopped by an iptables failure accepts a target exactly when a Service it reached has it on this node |
| EdgeTunnel.OnlyOwnEndpointsDialled | cmd/kiac-edge-proxy/main.go:260-289 | whatever a peer dials for a tunnel is a ready endpoint on its own node and came with the token |
| EdgeTunnel.HeaderFields | cmd/kiac-edge-proxy/main.go:337-345 | the header splits into protocol, token and target |
| EdgeTunnel.HeaderIsFirstLine | cmd/kiac-edge-proxy/main.go:260-274 | the header is what is read first from the stream, as long as it fits the 512-byte buffer |
| EdgeTunnel.Proxy.SyncRules | cmd/kiac-edge-proxy/main.go:531-545 | the table in force comes from one snapshot; without one it is empty |
| GpuInspect.FoldPools | pkg/cluster/gpu_inspect.go:113-126 | the fold keeps, per pool, exactly the kiac slices of the highest generation |
| GpuInspect.FoldKeepsNewest | pkg/cluster/gpu_inspect.go:113-126 | the same by membership: a pool is present exactly when published, and nothing older is kept |
| GpuInspect.EnterPools | pkg/cluster/gpu_inspect.go:127-150 | whatever order pools come in, a key is entered once for each time a complete pool's newest slices publish it |
| GpuInspect.TallySpec | pkg/cluster/gpu_inspect.go:134-150 | a device is known exactly when its key was published once, with that capacity |
| GpuInspect.ChargeClaim | pkg/cluster/gpu_inspect.go:166-195 | within a claim each share counts once and admin access never does |
| GpuInspect.ChargedSpec | pkg/cluster/gpu_inspect.go:151-208 | after all claims a device has used exactly the sum of counted consumptions, and is unknown if one had none or a negative one |
| GpuInspect.Inspect | pkg/cluster/gpu_inspect.go:112-256 | a device is listed exactly when a complete pool publishes it; its reserved and unreserved figures add up to its capacity and are given exactly when it is published once, every counted consumption is usable and they fit |
| GpuInspect.OrderIrrelevantExactly | pkg/cluster/gpu_inspect.go:113-133 | which slices count is independent of list order exactly when the newest slices of each pool agree whether the inventory is complete |
| GpuInspect.ReportUnordered | pkg/cluster/gpu_inspect.go:112-256 | then no reordering of slices or claims changes any figure |
| GpuInspect.DisagreementDependsOnOrder | pkg/cluster/gpu_inspect.go:127-133 | without that agreement the first slice decides |
| GpuInspect.ResultsUnordered | pkg/cluster/gpu_inspect.go:166-195 | the order of results within a claim does not matter either, when results for one share agree |
| GpuInspect.ResultsUnorderedExactly | pkg/cluster/gpu_inspect.go:166-195 | what a claim charges on a device is the same in every order of its results exactly when some share has only unusable results for it, or none is unusable and results of one share charge the same |
| GpuInspect.DifferingShareDependsOnOrder | pkg/cluster/gpu_inspect.go:166-195 | when two of them differ, the first decides |
| GpuInspect.KeysDistinct | pkg/cluster/gpu_inspect.go:139-141 | keys tell devices apart as long as device names hold no slash |
| GpuInspect.ShareKeysDistinct | pkg/cluster/gpu_inspect.go:166-195 | share keys tell shares apart as long as device names and shares hold no slash |
| ExternalWorker.VMNameTellsWorker | pkg/cluster/external_worker_state.go:44-45 | a VM name determines its worker and owner prefix |
| ExternalWorker.Manager.Join | pkg/cluster/external_worker.go:52-158 | every step is lawful except in the orphaning cases, which are named exactly by the outcomes: a failed create that left a VM, or a cleanup whose removal reported success and was wrong; success means a ready record, a VM and a started agent; otherwise, when the record is gone again, so is everything the join made |
| ExternalWorker.Manager.CleanUp | pkg/cluster/external_worker.go:84-109 | a failed join keeps record and VM once the phase in memory is joining; otherwise the record goes exactly when the removal of the owned VM reports success and the file can be removed, and a VM is orphaned exactly when that report was wrong or a failed create had left one |
| ExternalWorker.Manager.Provision | pkg/cluster/external_worker_guest.go:112-144 | the phase is written as joining before the agent is started and as ready only with an accepted observation |
| ExternalWorker.Manager.Start | pkg/cluster/external_worker.go:254-293 | only a worker that got as far as joining and whose VM the runtime has is started; success means its recorded process runs; a recorded UID is kept; working lookups and no lingering process keep the VM tidy |
| ExternalWorker.Manager.LocalAction | pkg/cluster/external_worker.go:305-331 | stop keeps the record, and leaves a process exactly when one escapes the lookups; delete removes the record only after the runtime reports the VM gone or does not have it, and keeps the invariant exactly when that is true |
| ExternalWorker.RunsKeepInv | pkg/cluster/external_worker.go:52-331 | with a crash between any two steps, every VM has its inventory record and an agent runs only under a record that says joining or ready |
| ExternalWorker.RunsForward | pkg/cluster/external_worker.go:52-331 | between any two moments of a run the phase of a record never goes back and a recorded Node UID never changes |
| ExternalWorker.RunsKeepWorker | pkg/cluster/external_worker.go:52-331 | orphaning is contained: a worker whose own steps are lawful keeps the invariant, whatever happens to the others |
| ExternalWorker.CleanupSparesAgents | pkg/cluster/external_worker.go:84-109 | automatic cleanup never stops or removes a VM whose agent was started |
| ExternalWorker.UnlinkSafeExactly | pkg/cluster/external_worker.go:98-109 | removing a record keeps the invariant exactly when its VM is gone |
| ExternalWorker.OrphanReachable | pkg/cluster/external_worker.go:98-114 | a failed create that leaves its VM behind, followed by the removal of the record, orphans the VM |
| ExternalWorker.RunLeavesExactly | pkg/runtime/krunkit.go:257-331 | a failed create leaves a VM exactly when its rollback did not clear it or its process outlived the failure |
| ExternalWorker.StopLeavesExactly | pkg/runtime/krunkit.go:901-949 | a stop that reports success leaves a process running exactly when one is outside the record, or a lookup failed on the recorded one |
| ExternalWorker.LiesExactly | pkg/runtime/krunkit.go:981-1021 | a removal reports success on a VM that stays exactly when the runtime has no record of it, the stat misses it, or a process escapes the stop before the directory is cleared |
| ExternalWorker.RemoveTidy | pkg/runtime/krunkit.go:981-1021 | with lookups that answer rightly, the removal of a VM whose record names all its processes tells the truth |
| ExternalWorker.BootTidyExactly | pkg/runtime/krunkit.go:427-551 | a start keeps a VM so exactly when its process does not linger unrecorded and no running process is overlooked |
| ExternalWorker.Manager.RunVM | pkg/runtime/krunkit.go:257-331 | the create as lawful steps, with a crash between any two; success means one recorded, running process |
| ExternalWorker.Manager.BootVM | pkg/runtime/krunkit.go:427-551 | the start as lawful steps: spawned, then recorded; success means the recorded process runs |
| ExternalWorker.Manager.RemoveVM | pkg/runtime/krunkit.go:981-1021 | the removal as lawful steps; after a reported success the VM is there exactly when the report was wrong |
| ExternalWorker.WrittenOffIsOrphaned | pkg/cluster/external_worker.go:305-331 | after any lawful run, a delete of a worker whose running VM the lookups do not own reports success, removes the record and orphans the VM |
| ExternalWorker.UnfoundIsOrphaned | pkg/runtime/krunkit.go:981-1021 | so does one whose stat misses the VM, with nothing of it touched |
| ExternalWorker.CrashThenDelete | pkg/runtime/krunkit.go:520-551 | such a run: a crash between spawning the process and recording it, whatever the lookups answer later |
| ExternalWorker.BlindDelete | pkg/runtime/krunkit.go:1048-1078 | another: a process lookup that fails on a joined worker whose agent runs |
| WorkerCidr.OverlapsExactly | pkg/cluster/external_worker_config.go:118-121 | two prefixes overlap exactly when they share a 32-bit address |
| WorkerCidr.WithinExactly | pkg/cluster/external_worker_config.go:168-175 | a prefix lies within another, as sets, exactly when the other is no longer and contains its address |
| WorkerCidr.MaskedExactly | pkg/cluster/external_worker_config.go:160-166 | a prefix is canonical exactly when its address is the lowest one it contains |
| WorkerCidr.WorkerRouteCovered | pkg/cluster/external_worker_config.go:168-175 | the loop finds a route exactly when one contains the whole range |
| WorkerCidr.ParseAllowedIPs | pkg/cluster/external_worker_config.go:253-264 | routes are accepted exactly when all are canonical, distinct and miss the tunnel endpoint, and are returned in order |
| WorkerCidr.PrepareAddresses | pkg/cluster/external_worker_config.go:103-145 | the address part is accepted exactly when, as sets, pod and service ranges are disjoint and free of node and API, the endpoint is outside every route, and API, pod and service ranges each lie inside one route |
| WorkerCidr.EndpointOutside | pkg/cluster/external_worker_config.go:125-145 | the tunnel endpoint is neither the API nor in the pod or service range |
| WorkerCidr.ManagementClear | pkg/cluster/external_worker.go:125-138 | provisioning goes on exactly when neither the node address nor any route meets the management /24 |
| WorkerCidr.ManagementApart | pkg/cluster/external_worker.go:125-138 | then no management address is the API, the node, or in the pod or service range |
| HealthLease.HealthMonitor.Commit | internal/gpudriver/health.go:101-113 | a changed state closes the channel handed out so far, an equal one does not |
| HealthLease.HealthMonitor.Snapshot | internal/gpudriver/health.go:114-124 | a stored good state is shown as good only while its lease of 20 seconds lasts |
| HealthLease.HealthMonitor.Allocate | internal/gpudriver/device_plugin.go:48-67 | devices are granted exactly when the snapshot is healthy, the render device is there and every container asks for the one device |
| HealthLease.HealthMonitor.PrepareResourceClaims | internal/gpudriver/main.go:378-421 | each claim gets all its own requests or nothing, by the state the monitor has at its own moment, which may change from claim to claim |
| HealthLease.HandOutIsFresh | internal/gpudriver/health.go:58-147 | under every interleaving of probes, publication, foreign files, stalled reads, commits, driver restarts and clock changes, a hand-out rests on a probe of this Pod and boot that passed at most 20 seconds before, by the clock |
| HealthLease.NothingWithoutAProbe | internal/gpudriver/health.go:58-99 | without a passed probe nothing is ever handed out, whatever other Pods or boots put into the file |
| HealthLease.OpenChannelMeansUnchanged | internal/gpudriver/health.go:101-124 | an unclosed channel means the stored state is the one its snapshot saw |
| HealthLease.ClosedChannelMeansChanged | internal/gpudriver/health.go:101-124 | a closed one means a later commit stored something else, or the driver was restarted |
| HealthLease.PreviousIsPublishedExactly | internal/gpudriver/main.go:202-227 | the publisher's memory equals the taint state last published exactly when the outcomes of its calls say so: a call that takes effect but reports failure, or the reverse, breaks the agreement, and the next answered call or a restart restores it |
| HealthLease.LeftWrongExactly | internal/gpudriver/main.go:202-227 | in every run, with no publication under way, a wrong published state is left alone exactly when the memory disagrees with the API and equals the shown health |
| HealthLease.StaysPublished | internal/gpudriver/main.go:202-227 | and it stays until the shown health changes or the driver restarts |
| HealthLease.UntaintedWhileUnhealthy | internal/gpudriver/main.go:202-227 | such a run: a publication that takes effect and reports failure, then an expired lease, leaves an unhealthy device untainted |
| HealthLease.ApplyResourceHealth | internal/gpudriver/main.go:654-673 | the health taint is present exactly when unhealthy, once; all other taints keep their order |
| DevicePlugin.Serve | internal/gpudriver/device_plugin.go:91-156 | every round confirms the own socket, looks at the registry and registers exactly when its identity is new; the trace follows the observations round by round |
| DevicePlugin.AttemptAfterConfirmation | internal/gpudriver/device_plugin.go:132-144 | a registration is attempted only after the server's own socket was confirmed in the same round |
| DevicePlugin.LossForcesNewServer | internal/gpudriver/device_plugin.go:115-136 | after the socket is lost or the server ends, a new server is started before any new registration |
| DevicePlugin.RememberedExactly | internal/gpudriver/device_plugin.go:132-144 | a server takes itself to be registered with an identity exactly when its last registration was for it and no look has missed since |
| DevicePlugin.AttemptExactly | internal/gpudriver/device_plugin.go:137-144 | after a look, a registration follows exactly when an identity was seen and no registration for it still counts |
| DevicePlugin.LookNotLast | internal/gpudriver/device_plugin.go:137-144 | and the loop never stops between such a look and its registration |
| DevicePlugin.RegisteredTwiceExactly | internal/gpudriver/device_plugin.go:137-144 | a server registers again for an identity exactly when it registered for another, or a look missed, in between |
| DevicePlugin.AtMostOncePerIdentity | internal/gpudriver/device_plugin.go:137-144 | with accurate looks and identities that do not come back, a server registers at most once per identity |
| DevicePlugin.AtMostOnceExactly | internal/gpudriver/device_plugin.go:137-144 | the condition is exact: for a history of the registry path, every run of accurate looks registers at most once per identity if and only if no identity comes back |
| DevicePlugin.ReturnRegistersTwice | internal/gpudriver/device_plugin.go:137-144 | an identity that does come back is registered with twice in some run, and so is its socket |
| DevicePlugin.AtMostOncePerSocket | internal/gpudriver/device_plugin.go:137-144 | and at most once per kubelet socket when each call reached the socket that was looked at |
| DevicePlugin.OncePerSocketExactly | internal/gpudriver/device_plugin.go:137-144 | with accurate looks and calls that land on whatever is there when they are made, every run registers at most once per server and socket if and only if there is one socket over time and it is never away in between |
| DevicePlugin.MovedRegistersTwice | internal/gpudriver/device_plugin.go:137-144 | a socket that takes the place of another is registered with twice in some run |
| DevicePlugin.SocketTwiceCauses | internal/gpudriver/device_plugin.go:137-144 | whatever the looks saw, a call that reaches the socket it looked at is a repeat only through an earlier call that landed on another socket than it saw, or through a registration forgotten since |
| DevicePlugin.ReplacedBeforeTheCall | internal/gpudriver/device_plugin.go:137-144 | for given observations, a socket replaced between look and call is registered with twice |
| DevicePlugin.FailedLookForgets | internal/gpudriver/device_plugin.go:137-144 | for given observations, a look that fails on a socket that is there leads to a second registration |
| EdgeHeal.EdgeNode.Heal | pkg/cluster/k3s_resume.go:509-553 | a healing that is done has the wanted file, no marker and no proxy on anything else; a current healthy proxy is not restarted; enough steps and a working restart always lead to done |
| EdgeHeal.AlwaysSettled | pkg/cluster/k3s_resume.go:509-553 | with interruption after any step and the proxy crashing or being revived at any moment, no marker means an active proxy was started on the file in place |
| EdgeHeal.CompletionReaches | pkg/cluster/k3s_resume.go:552-553 | removing the marker happens only with the wanted file in place |
| EdgeHeal.HealthyUntouched | pkg/cluster/k3s_resume.go:535-538 | after a check that finds a proxy current and healthy, only weather changes the node until the next check |
| ShellQuote.ShellJoin | pkg/runtime/krunkit.go:669-675 | POSIX field splitting of the joined line returns exactly the arguments, whatever they hold |
| ShellQuote.JoinedFields | pkg/runtime/krunkit.go:669-675 | the same for every list of strings, empty ones, quotes, newlines and dollars included |
| ShellQuote.RemoteCommandFields | pkg/runtime/krunkit.go:631-631 | the remote shell passes sudo exactly the original arguments |
| ShellQuote.BootLine | pkg/cluster/k3s.go:177-186 | the boot line execs the supervisor with exactly the k3s arguments, plus one node-ip flag with both address variables on dual stack |
| ShellQuote.QuoteReads | pkg/cluster/k3s.go:188-191 | a quoted string is read as one field equal to the original |
| NetAddr.PrintReads | pkg/runtime/publish.go:163-167 | the printed form of an address, zero compression and zone included, parses back to it |
| NetAddr.Accepted | pkg/runtime/publish.go:163-167 | an accepted address text is hexadecimal digits, dots and colons up to its zone |
| PublishSpec.LastColonOutsideBrackets | pkg/runtime/publish.go:117-134 | the loop returns the last colon that no unmatched closing bracket follows, or -1 |
| PublishSpec.AcceptedExactly | pkg/runtime/publish.go:57-98 | the mappings that parsing can produce are exactly the well-formed ones |
| PublishSpec.ShowReadsExactly | pkg/runtime/publish.go:20-98 | printing and parsing returns the same mapping exactly when the protocol is udp or the host address holds no slash; otherwise the printed form is refused |
| PublishSpec.SlashInZone | pkg/runtime/publish.go:57-98 | the refused case is reachable through an accepted value |
| PublishSpec.ShowInjective | pkg/runtime/publish.go:20-33 | no two accepted mappings print alike |
| PublishSpec.ValidatePublishes | pkg/runtime/publish.go:101-115 | accepted exactly when all parse to distinct mappings; otherwise the first fault is reported with its partner |
| MountSpec.ParseMount | pkg/runtime/mount.go:54-98 | a mount is returned exactly when the fields spell one out, each key once and none missing, and it is that one |
| MountSpec.SpellsOne | pkg/runtime/mount.go:54-98 | fields spell out one mount at most |
| MountSpec.ShowReadsExactly | pkg/runtime/mount.go:19-98 | the printed form reads back exactly when both paths are non-empty and free of commas |
| MountSpec.ValidateMounts | pkg/runtime/mount.go:101-131 | accepted exactly when every mount is usable and no two cleaned targets agree, and all accepted mounts survive print then parse |
| NodeNames.CanonicalExactly | pkg/cluster/status.go:141-144 | an index text is canonical exactly when it is printed from an index of 1 or more |
| NodeNames.NameReadsBack | pkg/cluster/status.go:123-139 | the cluster name is read back from control-plane, worker and GPU names, even when it contains those markers |
| NodeNames.NamesDistinct | pkg/cluster/cluster.go:188-195 | equal node names have equal cluster, role and index |
| NodeNames.ToNames | pkg/cluster/persist.go:378-385 | sorting gives a permutation in ascending order of index |
| NodeNames.AddTo | pkg/cluster/persist.go:349-372 | a name joins a group exactly when it has a canonical index that is new |
| NodeNames.OrderNodeGroups | pkg/cluster/persist.go:331-387 | succeeds exactly on one control plane and distinct canonical workers, and returns a permutation with both groups in order of index |

## Left out

- Calls to Kubernetes, SSH, `container`, `systemctl`, `iptables`, sockets and files are outcomes given as inputs; provisioning scripts are not modelled.
- JSON, YAML, TOML, URL, base64 and regular-expression parsing: models start from parsed values, and text is a sequence of characters rather than UTF-8 bytes.
- Cluster create, verify, support, benchmark and add-on orchestration, the CLI, the web UI, downloads and version tables: mostly sequencing and text.
- VulkanProbe.Probe.Run: success is never promised, because every native result is arbitrary; only what success and failure leave behind is stated.
- VulkanProbe: pinning of Go memory and the layout of native structures.
- LoadBalancer.RunsStayConflictFree: an assigned Service may not change its ports during a run, because the script keeps existing addresses; edits in the middle of a pass are not modelled.
- CompatMeaning.PatchApplies: field names are matched exactly, where the Go decoder ignores case.
- KrunkitStore.RunsConsistent: requires that each operation's reads are safe, because the source skips files it cannot read; `ReadsSafeExactly` shows that no weaker guard would do. A network's own record that reads but does not parse stops its creation with an error, which is not modelled; in a scan it is skipped like an unreadable one. Disks, images and signals are not modelled.
- GuestAddress.AddressIsCurrent: only VMs with guest reporting; the older address lookup through the ARP table is not modelled.
- GuestAddress.AddressFromRecordedBoot: requires that no start let a guest out of the record; `ForeignExactly` says when one does.
- EdgeTunnel.TunnelArrives: the token is one word of at most 320 characters, as the generated hexadecimal one is; loop freedom of the fallback dial to the original destination is not claimed.
- GpuInspect.Inspect: quantities are integers; notes, claim rows, workload rows and their sorting are not modelled.
- ExternalWorker.Manager.Join: owner identities are fresh, standing for 128 random bits, and process identities are never reused; a write that fails leaves the old record; a process that ends by itself during an operation counts as having ended before it; an observation that fails on name, version, network or taint counts as none; credentials and the guest scripts are not modelled.
- WorkerCidr.PrepareAddresses: only the address part of a configuration; keys, tokens, sizes and versions are not modelled.
- HealthLease.HandOutIsFresh: a run begins with the Pod, so nothing in the report directory carries its identity yet; ages are differences of clock readings, so setting the VM's clock back stretches a lease in real time; the moment of a hand-out is the moment of its snapshot.
- DevicePlugin.Serve: the gRPC server and its streams are not modelled.
- DevicePlugin.AtMostOncePerIdentity: requires accurate looks and identities that do not come back; `AtMostOnceExactly` shows that the second is needed, `FailedLookForgets` the first.
- EdgeHeal.EdgeNode.Heal: one node; the source heals nodes in parallel and independently. Digests stand for file contents.
- ShellQuote.BootLine: only the final exec of the boot script; the preamble is fixed text.
- NetAddr.PrintReads: printing of IPv4-mapped addresses is not modelled, because host addresses are unmapped first.
- MountSpec.ValidateMounts: path cleaning and directory checks are parameters.
- NodeNames: `sort.Slice` is modelled by insertion, and the length limit of node names is not modelled.
