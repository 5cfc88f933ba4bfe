# k3k: a verified model

k3k runs virtual Kubernetes clusters inside a host cluster. This project models the parts of k3k that decide something:
how quotas are divided over nodes, how virtual objects get host names, how a cluster's outside resources are taken and
given back, how policies and synced objects converge, when tokens are refreshed. It proves what these parts promise.

`dafny verify dfyconfig.toml` checks everything.

| file | what it models |
|---|---|
| `Quota.dfy`, `QuotaPipeline.dfy` | the water-filling allocator and the pipeline around it, as loops over Go maps walked in any order |
| `Names.dfy`, `Metadata.dfy`, `Pods.dfy`, `Naming.dfy` | host names, the way of an object to the host cluster and back, host pods of several agents over whole runs; what colliding names mean for pods, synced copies and role bindings |
| `Ports.dfy`, `ClusterLifecycle.dfy`, `ClusterLeaks.dfy`, `ClusterPorts.dfy`, `ClusterReady.dfy`, `ClusterController.dfy` | the kubelet port ConfigMap under compare-and-swap; the life of a Cluster as a machine of single API calls with crashes, refused calls, lost answers and lagging reads; what it keeps and what it leaves behind; how its port reaches its status; what Ready means; the controller's own loops |
| `Policy.dfy`, `PolicyController.dfy`, `PolicyConvergence.dfy` | single writes and the goal they approach; the controller's loops with failing calls; reconciliations that overlap |
| `Syncer.dfy`, `SyncerController.dfy` | the finalizer protocol of the config map, secret and service syncers, with stale reads; one reconciliation amid the acts of others |
| `TokenRefresh.dfy`, `TokenNames.dfy`, `TokenVolumes.dfy` | the timing of refreshes, the text behind secret names, the volumes of created and refreshed tokens |
| `Snapshot.dfy`, `SnapshotController.dfy` | etcd snapshots as a machine with arbitrarily stale reads; one reconciliation with failing calls |
| `Kubeconfig.dfy`, `ServerUrl.dfy`, `Text.dfy` | kubeconfig merging, the server URL with its certificate and service, Go's string order |
| `Basics.dfy` | options, results, decimal digits |

How the pieces are connected: code that changes things step by step is a method, and the theorems are lemmas about
specification functions and machines. Loops and in-place updates are proved to have exactly the effect of a function.
Protocols are machines whose steps are single API calls, and their theorems are about every run. The controllers' own
code is tied to its machine: every method of `ClusterController` and `SnapshotController` takes the machine's state as a
ghost parameter and is proved to be a run of the machine with the same calls failing; `SyncerController` keeps the
machine's invariant amid the acts of others; `PolicyController` logs the writes that it has attempted with success, its
contracts say which ones, and `PolicyConvergence` is about all sequences of such attempts.

What is assumed about the surroundings:

- An API write is atomic and a compare-and-swap on the resource version, where the code sends one; users leave the
  controllers' finalizers alone (they may add a syncer's). One worker at a time handles one object.
- `ClusterLifecycle` and `Syncer` read from a cache that lags by any number of versions but does not go back; `Snapshot`
  reads any version at all. The controllers by themselves, in `ClusterController` and `PolicyController`, read current
  data. The bindings of namespaces and the policies stay the same while policies converge.
- A call that fails in one of the controllers has had no effect; that it may have had one, with the answer lost, is
  modelled by the machines of clusters and snapshots.
- SHA-256 is any function to 32 bytes. Quantities are integers, already in their scale (thousandths or whole units).
  The port map and the bitmap are decoded values, and the port bitmap library picks any free port.

Results that a reader of the code and its comments may not expect:

- `distributeQuotas` is not fair up to one unit (`Quota.GapOfOneIsNotEnough`). Of two nodes that are never capped the
  alphabetically earlier one gets exactly one unit more for each pass whose remainder separates them (`Quota.ExactGap`).
- `filterQuotas` depends on Go's map order exactly when two resources with different quotas end under one name
  (`QuotaPipeline.FilterDeterministic`), and exactly then some order loses the tighter one
  (`QuotaPipeline.CollisionLosesQuota`), so that nodes may get more than a quota allows
  (`QuotaPipeline.SharesWithinEveryQuota`).
- A node whose share is zero keeps advertising what its host has (`QuotaPipeline.OverlayAdvertisesShare`).
- Host names need no assumption about '+' in names to be unambiguous before the cut: the readable part and the
  hexadecimal part together decode (`Names.FullNameInjective`).
- Switching `mirrorHostNodes` off while a cluster holds a port, and deleting the cluster, leaves the port taken with
  nobody to give it back (`ClusterLeaks.SwitchingOffStrandsThePort`). This is the only kind of step in which a port loses
  its cluster (`ClusterLeaks.StrandsExactly`). If nobody else holds the cluster, it is gone then, and the port stays taken
  until a cluster of the same namespace and name is created (`ClusterLeaks.StrandsForLong`,
  `ClusterLeaks.StrandedPortStays`).
- The role bindings are not protected by compare-and-swap when nothing is written: a finalization that reads a binding
  from before its cluster's own entry finds nothing to remove, and the entry stays
  (`ClusterLeaks.LaggingReadLeavesTheSubject`). Such a run exists from every installation
  (`ClusterLeaks.LagAbandonsASubject`); without such a read no subject is ever left behind
  (`ClusterLeaks.SubjectNeverLeaks`). The release of a port is safe from lagging reads, since its update is always sent.
- A cluster that is deleted after its port has been allocated and before its status has been stored is never finalized:
  the release compares the port with the status, which a finalization does not write
  (`ClusterPorts.DeletionEndsExactly`, `ClusterPorts.EarlyDeletionBlocks`). Short of changing the status or the port map
  by hand, only switching its use of a port off helps, and that leaves the port taken.
- A reconciliation that reads the port map from before the last release of its cluster's name stores the old port, with
  none reserved (`ClusterPorts.LaggingReadStoresAnOldPort`). Without such a read a Ready cluster always shows the port
  that the map has for it (`ClusterPorts.ReadyClusterHasItsPort`), and a name that has never given a port back cannot
  be misled (`ClusterPorts.MisledOnlyAfterRelease`).
- The Terminating phase that `finalizeCluster` puts on its copy is never stored on a cluster: the update that follows
  writes everything but the status (`ClusterLeaks.NextKeepsStatus`).
- Rounds of the token refresher at most a fifth of a lifetime apart keep every mounted token unexpired, also where the
  period's multiplication overflows; a nanosecond more can be too much (`TokenRefresh.FiveIsTight`).
- `cleanupNamespaces` only logs it when it cannot look a policy up or clear clusters. A reconciliation that returns no
  error therefore guarantees the goal of every namespace bound to its policy, and of every ungoverned namespace apart
  from clusters there that still carry a policy; it settles those too exactly if no such failure has met one of them
  (`PolicyController.SettlesExactly`), and it may not (`PolicyController.SwallowedFailure`).
- `removeKubeAccessVolume` removes only the first kube-api-access volume (`TokenVolumes.LeftoverTokens`,
  `TokenVolumes.SecondKubeAccessStays`).
- `buildURL` writes an IPv6 host at port 443 without brackets (`ServerUrl.UrlRoundTrip`).
- A node port outside of 30000-32767 for the server leaves etcd's port first, and the URL takes it
  (`ServerUrl.ExternalPort`).

## Model

| member | source | states |
|---|---|---|
| Quota.CycleProgress | k3k-kubelet/provider/configure_capacity.go:236-270 | each pass uses the quota up or drops a node whose capacity was below its offer |
| Quota.CyclesBounded | k3k-kubelet/provider/configure_capacity.go:236-270 | there are at most as many passes as eligible nodes |
| Quota.Conservation | k3k-kubelet/provider/configure_capacity.go:236-270 | what is taken sums to the smaller of quota and capacities, for capacities of either sign |
| Quota.Fairness | k3k-kubelet/provider/configure_capacity.go:236-270 | if a node ends below its capacity, no other has more than it plus the number of passes; a later one has no more at all |
| Quota.ExactGap | k3k-kubelet/provider/configure_capacity.go:236-270 | two nodes that are never capped end apart by exactly the number of passes whose remainder separates them |
| Quota.OneCycleSuffices | k3k-kubelet/provider/configure_capacity.go:236-270 | if every capacity covers its offer, one pass is enough and each node gets just its offer |
| Quota.GapOfOneIsNotEnough | k3k-kubelet/provider/configure_capacity.go:236-270 | a gap of one is not a bound: quota 7 over capacities 9, 9, 1 gives 4, 2, 1 |
| Quota.ServeNodes | k3k-kubelet/provider/configure_capacity.go:241-267 | one pass over the nodes, in place, is the pass of the specification |
| Quota.CollectEligible | k3k-kubelet/provider/configure_capacity.go:207-228 | the eligible nodes, sorted, with their capacities, in whatever order the map is walked |
| Quota.DistributeResource | k3k-kubelet/provider/configure_capacity.go:197-271 | one resource's shares are added, and other resources' entries stay |
| Quota.DistributeQuotas | k3k-kubelet/provider/configure_capacity.go:183-274 | the returned lists are the distribution of the specification, for every order of the maps; the two rows below say what that is |
| Quota.OutsideTheQuota | k3k-kubelet/provider/configure_capacity.go:187-195 | a resource without a quota has the host's amount if the host has it, and else what the node's list had |
| Quota.InsideTheQuota | k3k-kubelet/provider/configure_capacity.go:197-273 | a resource with a quota has what the list had plus a share that is never negative, and only where the host has it |
| Quota.DistributionUnique | k3k-kubelet/provider/configure_capacity.go:183-274 | that distribution is unique: map order cannot matter |
| QuotaPipeline.SharesConserved | k3k-kubelet/provider/configure_capacity.go:197-273 | the shares in the returned map sum to the quota or the capacities of the nodes whose host has the resource, negative capacities giving theirs away |
| QuotaPipeline.SharesSumToQuotaOrCapacity | k3k-kubelet/provider/configure_capacity.go:197-273 | for capacities that are not negative they sum to exactly the smaller of quota and total capacity |
| QuotaPipeline.SharesWithinCapacity | k3k-kubelet/provider/configure_capacity.go:207-265 | no share exceeds its node's capacity, and nodes without the resource have none |
| QuotaPipeline.SharesFair | k3k-kubelet/provider/configure_capacity.go:236-270 | fairness of the returned map, also bounded by the number of nodes |
| QuotaPipeline.MergeQuotas | k3k-kubelet/provider/configure_capacity.go:152-167 | the merged quota is the greatest lower bound of the lists |
| QuotaPipeline.MergeOrderIrrelevant | k3k-kubelet/provider/configure_capacity.go:152-167 | it depends neither on the order of the lists nor on repetitions |
| QuotaPipeline.FilterQuotas | k3k-kubelet/provider/configure_capacity.go:279-293 | the filtered list is that of some order of the map |
| QuotaPipeline.StripsOnePrefix | k3k-kubelet/provider/configure_capacity.go:287-289 | in literal prefixes: `requests.x` and `limits.x` limit x, of `requests.limits.x` both prefixes go, of `limits.requests.x` only the first |
| QuotaPipeline.CoreResourcesAre | k3k-kubelet/provider/configure_capacity.go:283-285 | exactly the eight core names are dropped |
| QuotaPipeline.FilterDeterministic | k3k-kubelet/provider/configure_capacity.go:279-293 | all orders agree if and only if no two different quotas end under one name |
| QuotaPipeline.CollisionLosesQuota | k3k-kubelet/provider/configure_capacity.go:279-293 | every order respects every quota if and only if no two different quotas end under one name; otherwise the looser one wins in some order |
| QuotaPipeline.SharesWithinEveryQuota | k3k-kubelet/provider/configure_capacity.go:119-129 | on all nodes and in every order the shares sum to at most every namespace quota, if and only if no two resources that end under one name allow different amounts |
| QuotaPipeline.UpdateNodeCapacity | k3k-kubelet/provider/configure_capacity.go:75-149 | merge, filter, distribution and overlay in sequence; the node keeps the host's value of every resource that no quota is left for, and all of them without quotas |
| QuotaPipeline.OverlayAdvertisesShare | k3k-kubelet/provider/configure_capacity.go:128-132 | the overlay advertises the share if and only if it is positive or the host has nothing |
| Names.FullNameShape | k3k-kubelet/translate/host.go:126-147 | an uncut name is three times its key and one byte long; the translation cuts it |
| Names.NameText | k3k-kubelet/translate/host.go:126-147 | the host name is the cut of name, namespace if there is one, and cluster, and of the hexadecimal text of the same |
| Names.HexDecodes | k3k-kubelet/translate/host.go:145 | each byte is written as two hexadecimal digits, the high half first |
| Names.FullNameInjective | k3k-kubelet/translate/host.go:126-147 | uncut names decode uniquely |
| Names.ShortenCollides | pkg/controller/controller.go:98-112 | long strings are confused only in the same branch, with equal heads and equal digest digits |
| Names.ShortenText | pkg/controller/controller.go:98-112 | below 64 bytes a name is left; else 63 bytes remain, with 56 or 57 of the name and as many digits of the digest as fit |
| Names.TranslateNameCollides | k3k-kubelet/translate/host.go:123-148 | two inputs share a host name if and only if they are equal or confused by the cut, and then both are long |
| Names.DropEmptyConcat | pkg/controller/controller.go:93-96 | empty parts are left out, wherever they are, and nothing else |
| Names.HostNameIsWellSpelled | pkg/controller/controller.go:105-112 | the dotted-label syntax (section 2.1 of RFC 1123, lower case) as a condition on neighbouring characters |
| Names.ShortenWellSpelled | pkg/controller/controller.go:105-112 | the cut keeps that syntax and the first character, also when it falls on '.' or '-' |
| Names.TranslateNameValid | k3k-kubelet/translate/host.go:123-148 | host names of valid parts are valid, at most 63 characters, and begin like the object's name |
| Metadata.RoundTrip | k3k-kubelet/translate/host.go:60-120 | name and namespace always come back; the whole object if and only if it used no tracking key |
| Metadata.Object.TranslateTo | k3k-kubelet/translate/host.go:60-91 | the in-place translation has the effect of the specification; in the object's fields: the cluster's namespace, the host name, no owners and finalizers, the tracking keys, all other labels and annotations |
| Metadata.ToLands | k3k-kubelet/translate/host.go:60-91 | the same of the specification itself, for every object |
| Metadata.HostNameIsTranslated | k3k-kubelet/translate/host.go:85-90 | the host name is the translated name of this namespace and name in this cluster |
| Metadata.Object.TranslateFrom | k3k-kubelet/translate/host.go:95-120 | likewise for the way back |
| Metadata.FromKeeps | k3k-kubelet/translate/host.go:95-120 | field by field: name and namespace from the annotations, the tracking keys gone, everything else kept but owners and what the API server assigns |
| Pods.MergeManagedMetadata | k3k-kubelet/provider/provider.go:849-861 | the merged table has the source's entries, and the managed ones that were there |
| Pods.TrackedForever | k3k-kubelet/provider/provider.go:521-525 | after any updates the host pod carries its cluster, agent, name and namespace, is in the cluster's namespace under its host name, and is owned by the Cluster |
| Pods.IdentitySurvives | k3k-kubelet/provider/provider.go:830-861 | and translates back to the virtual pod it was created from |
| Pods.UnmanagedIsLast | k3k-kubelet/provider/provider.go:842-861 | metadata outside of k3k.io/ is that of the last source |
| Pods.ManagedIsFirst | k3k-kubelet/provider/provider.go:849-861 | other k3k.io/ entries are those of the first source that has them |
| Pods.DoExplained | k3k-kubelet/provider/provider.go:747-785 | creating, updating and deleting pods refine keeping track of where they come from |
| Pods.AgentsListTheirOwn | k3k-kubelet/provider/provider.go:967-1003 | after any run of any agents each lists exactly the pods it created, under their virtual names; all are in the cluster's namespace and owned by the Cluster |
| Pods.ClustersListApart | k3k-kubelet/provider/provider.go:986-1003 | an agent lists a host pod, however updated, if and only if its own cluster and agent name are on it |
| Pods.Provider.CreatePod | k3k-kubelet/provider/provider.go:517-649 | creates the tracked host pod; fails exactly when an earlier call or the creation does, or the name is taken, and then changes nothing |
| Pods.Provider.UpdatePod | k3k-kubelet/provider/provider.go:747-815 | merges metadata into the host pod, key by key, and then into the virtual one, and changes nothing else; exactly when it fails and what is updated then |
| Pods.Provider.DeletePod | k3k-kubelet/provider/provider.go:884-906 | the host pod is gone, also if it was not there; it stays exactly if its deletion is refused |
| Pods.Provider.GetPods | k3k-kubelet/provider/provider.go:967-1003 | exactly one translated pod for each host pod of the agent, in any order |
| Naming.PodsKeepApart | k3k-kubelet/provider/provider.go:517-525 | every run on these pods keeps each host pod with one of them if and only if the cut confuses no two of them |
| Naming.CopiesKeepApart | k3k-kubelet/controller/syncer/configmap.go:82-142 | a reconciliation changes another object's host copy only if the cut confuses the two names |
| Naming.ConfusedCopiesReplace | k3k-kubelet/controller/syncer/configmap.go:126-141 | a write of an object takes over another one's copy if and only if the cut confuses the two |
| Naming.SubjectsCollide | pkg/controller/cluster/cluster.go:909-913 | two clusters are bound as one subject if and only if they are the same, or in one namespace with names confused by the cut |
| Naming.GoneMeansUnbound | pkg/controller/cluster/cluster_finalize.go:79-115 | over every run, a cluster that is gone is bound only if a finalization has missed it or the cut confuses its name with a cluster of its namespace that is still there |
| Ports.AppliedKeepsConsistent | pkg/controller/cluster/agent/ports.go:139-143 | each accepted write keeps the port map injective, in range and equal to the set bits |
| Ports.RunKeepsConsistent | pkg/controller/cluster/agent/ports.go:106-201 | so does every run of any clients |
| Ports.PortIsConstant | pkg/controller/cluster/agent/ports.go:106-201 | a cluster keeps its port until it is freed, and nobody else gets it |
| Ports.PortKeyInjective | pkg/controller/cluster/agent/ports.go:117 | clusters never share a key |
| Ports.ConfigMapStore.Update | pkg/controller/cluster/agent/ports.go:149-151 | compare-and-swap: refused unless the version read is current, and then nothing changes |
| Ports.AllocateNext | pkg/controller/cluster/agent/ports.go:139-142 | some free port of the range, none only if all are taken |
| Ports.PortAllocator.GetOrCreate | pkg/controller/cluster/agent/ports.go:67-93 | the stored data, created the first time with the configured range, no ports and no bit set |
| Ports.PortAllocator.AllocatePort | pkg/controller/cluster/agent/ports.go:106-154 | the cluster's port or a free one, with others writing in between; exactly when it fails, whatever calls fail, and that a failure writes nothing |
| Ports.PortAllocator.DeallocatePort | pkg/controller/cluster/agent/ports.go:157-201 | frees the matching port, accepts a missing one, refuses another; exactly when it fails, whatever calls fail |
| ClusterLifecycle.UpdateStatus | pkg/controller/cluster/status.go:36-106 | which phase belongs to which error, and to deletion; Ready is true exactly in the Ready phase; the port is kept |
| ClusterLifecycle.NextKeeps | pkg/controller/cluster/cluster.go:253-334 | every API call, crash and user action keeps the machine's invariant, however old what it reads is |
| ClusterLeaks.NextKeepsLink | pkg/controller/cluster/cluster.go:927-954 | unless an edit switches this very cluster off, its port stays with a mirroring cluster; that the port also reaches the status is ClusterPorts' subject |
| ClusterLeaks.NextKeepsStatus | pkg/controller/cluster/status.go:36-106 | stored statuses stay sound: Ready matches its phase, verdicts come with the finalizer, and the Terminating phase that every finalizing worker has on its copy is never stored |
| ClusterLeaks.PortNeverLeaks | pkg/controller/cluster/cluster_finalize.go:39-76 | a cluster that nobody switches off leaves no port behind, whatever happens to the others |
| ClusterLeaks.SubjectNeverLeaks | pkg/controller/cluster/cluster_finalize.go:79-115 | over every run, a bound subject has a cluster with the finalizer unless a finalization has read the binding from before the subject came in |
| ClusterLeaks.NothingLeaks | pkg/controller/cluster/cluster_finalize.go:39-115 | from the installation on, over every run whatever: the port map is consistent, no binding has a subject twice, statuses are sound; each port belongs to a cluster with the finalizer unless that cluster was switched off, each bound subject unless a finalization has missed it |
| ClusterLeaks.GoneMeansReleased | pkg/controller/cluster/cluster_finalize.go:67-73 | a cluster without the finalizer holds no port unless it was switched off, and its subject stays only if it was missed or another cluster has the same |
| ClusterLeaks.StrandsExactly | pkg/controller/cluster/cluster_finalize.go:44-50 | a step leaves a port without its cluster if and only if it takes that cluster's finalizer, the cluster was read as not mirroring, and the map has its key |
| ClusterLeaks.AbandonsExactly | pkg/controller/cluster/cluster_finalize.go:67-73 | a step leaves a bound subject without a cluster if and only if it takes the finalizer of the only cluster that has it |
| ClusterLeaks.SwitchingOffStrandsThePort | pkg/controller/cluster/cluster_finalize.go:44-50 | from any state with both bindings installed, every cluster with a port has a run after which its finalizer is gone and the port map unchanged |
| ClusterLeaks.StrandsForLong | pkg/controller/cluster/cluster_finalize.go:67-73 | if nobody else holds the cluster, that step leaves a stranded port: the cluster is gone, and all that can still be read of it is from after it was switched off |
| ClusterLeaks.StrandedPortStays | pkg/controller/cluster/agent/ports.go:157-201 | a stranded port stays the same, for no other cluster, until a cluster of that namespace and name is created |
| ClusterLeaks.LaggingReadLeavesTheSubject | pkg/controller/cluster/cluster_finalize.go:85-111 | while the cache is behind a cluster's entry in a binding, and its port can be given back, a deletion of the cluster can leave the entry |
| ClusterLeaks.LagAbandonsASubject | pkg/controller/cluster/cluster.go:127 | from every installation with both bindings there is a run that leaves a new cluster's subject behind |
| ClusterLeaks.PortKeptUntilDeletion | pkg/controller/cluster/agent/ports.go:185-196 | a port leaves the map only for its own cluster's finalization, and does not change before |
| ClusterPorts.AllocationTells | pkg/controller/cluster/cluster.go:945-954 | an accepted allocation puts one port into the map and on the worker's copy, and changes nothing else of the copy |
| ClusterPorts.ReadTells | pkg/controller/cluster/agent/ports.go:124-126 | a read that finds the cluster's key gives the copy the entry of the version that was read |
| ClusterPorts.NextTells | pkg/controller/cluster/cluster.go:945-954 | every step of anybody keeps what a worker knows of its port, but for a read that misleads it |
| ClusterPorts.MisledExactly | pkg/controller/cluster/agent/ports.go:124-126 | a read of the port map misleads if and only if the worker goes on with a port that is not the map's |
| ClusterPorts.AllocatedPortIsStored | pkg/controller/cluster/cluster.go:299-309 | from the installation on, over every run without a misleading read: past the allocation a mirroring cluster's worker has the map's port on its copy, and the end of a successful reconciliation stores it |
| ClusterPorts.ReadyClusterHasItsPort | pkg/controller/cluster/cluster.go:953 | over these runs, if nobody switches mirroring on later: a Ready mirroring cluster that is not being deleted has the map's port in its status |
| ClusterPorts.ReadyClustersShareNoPort | pkg/controller/cluster/cluster.go:945-960 | no two such clusters show the same port, and each shows one of the configured range |
| ClusterPorts.NextKeepsMatch | pkg/controller/cluster/cluster.go:304-309 | a status that has the map's port keeps it for as long as there is the cluster and the port, whatever is written |
| ClusterPorts.SavingReports | pkg/controller/cluster/status.go:36-109 | a reconciliation whose status is stored leaves the phase of its own outcome |
| ClusterPorts.MisledOnlyAfterRelease | pkg/controller/cluster/agent/ports.go:157-201 | only a cluster whose name has given a port back before can be misled |
| ClusterPorts.LaggingReadStoresAnOldPort | pkg/controller/cluster/agent/ports.go:116-126 | while an older port map with the name's former port can be read, a run ends with the cluster Ready at that port, and with none reserved |
| ClusterPorts.BlockedForGood | pkg/controller/cluster/agent/ports.go:172-174 | a mirroring cluster that is being deleted while the map has another port than its readable versions keeps its finalizer over every run in which nobody switches it off |
| ClusterPorts.DeletionEndsExactly | pkg/controller/cluster/cluster_finalize.go:44-50 | the deletion of a mirroring cluster can be finished, without switching it off, if and only if its status has its port, or it has none, when it is deleted |
| ClusterPorts.EarlyDeletionBlocks | pkg/controller/cluster/cluster_finalize.go:44-50 | after every installation whose range has a port other than 0 there is a run without edits after which a deleted cluster is blocked in this way |
| ClusterReady.ReadyClusterIsBound | pkg/controller/cluster/cluster.go:897-925 | from the installation on, over every run in which no read of a binding finds a subject that is gone, and with no other cluster of the same subject: a Ready cluster that is not being deleted is in both bindings |
| ClusterReady.NextEnters | pkg/controller/cluster/cluster.go:897-925 | every step keeps what a worker has seen or entered in the bindings |
| ClusterReady.FailuresAreKept | pkg/controller/cluster/cluster.go:336-341 | whatever goes wrong in a reconciliation, it ends without success |
| ClusterReady.DefaultsAreSaved | pkg/controller/cluster/cluster.go:321-331 | a defaulted spec is stored, with the status that is there |
| ClusterController.Controller.BindClusterRoles | pkg/controller/cluster/cluster.go:897-925 | both bindings get the subject, each unless its own calls fail; no other subject comes or goes; exactly when an error is returned; a run of the lifecycle machine |
| ClusterController.Controller.UnbindClusterRoles | pkg/controller/cluster/cluster_finalize.go:79-115 | both bindings lose it, each unless its own calls fail; exactly when an error is returned; a run of the lifecycle machine |
| ClusterController.Controller.FinalizeCluster | pkg/controller/cluster/cluster_finalize.go:26-77 | exactly when it succeeds, what clusters, ports and bindings are then and otherwise; no other cluster or subject changes; a run of the lifecycle machine |
| Policy.WriteKeepsGoal | pkg/controller/policy/policy.go:322-516 | no single write of the controller moves a namespace's goal |
| Policy.WriteKeepsSettled | pkg/controller/policy/policy.go:322-516 | at the goal every write is idle |
| Policy.HoldsExactly | pkg/controller/policy/policy.go:373-425 | in the policy's own fields, what it wants of each kind: the object of its name, with its quota, limit or isolation, managed and labelled, or none |
| PolicyController.Controller.ReconcileObject | pkg/controller/policy/policy.go:373-425 | on success the network policy, quota or limit range is there as the policy's own field says, managed and labelled, or absent; no other object changes; exactly when it succeeds |
| PolicyController.Controller.ReconcileClusters | pkg/controller/policy/policy.go:482-519 | each cluster of the namespace gets the policy unless its own update fails, in any order; no error exactly if all have it |
| PolicyController.Controller.ReconcileMatchingNamespaces | pkg/controller/policy/policy.go:322-371 | returns no error exactly if no call for a bound namespace fails; then every namespace bound to the policy has everything, and no other has changed |
| PolicyController.Controller.CleanupNamespaces | pkg/controller/policy/namespace.go:49-117 | returns no error exactly if the listing and the deletions succeed; then foreign managed objects are gone everywhere, and ungoverned clusters are cleared but for logged failures |
| PolicyController.Controller.ClearPolicyFields | pkg/controller/policy/namespace.go:120-143 | each cluster of the namespace loses its policy unless its own update fails; no error exactly if all have lost it |
| PolicyController.Controller.ReconcileVirtualClusterPolicy | pkg/controller/policy/policy.go:314-320 | whatever fails, no goal moves; exactly when it returns no error, what that guarantees, and that it has then attempted everything it answers for |
| PolicyController.SettlesExactly | pkg/controller/policy/namespace.go:66-88 | a reconciliation without error reaches the whole goal it answers for if and only if no logged failure met an ungoverned cluster with a policy |
| PolicyController.SwallowedFailure | pkg/controller/policy/namespace.go:69-72 | for any policies and names there is a reconciliation that returns no error and leaves a cluster with a policy that does not govern it |
| PolicyController.ImposedCleanedIsGoal | pkg/controller/policy/policy.go:314-320 | imposing a policy and then cleaning up reaches the goal |
| PolicyConvergence.Converges | pkg/controller/policy/policy.go:314-519 | over every sequence of attempts, however reconciliations overlap, that contains those of one without error for each policy: every governed namespace is at the goal it started with, and every other one in objects and labels |
| PolicyConvergence.ReconciledWithin | pkg/controller/policy/policy.go:66 | a reconciliation without error counts wherever it began and whatever came in between |
| PolicyConvergence.ConvergesExactly | pkg/controller/policy/policy.go:314-519 | an ungoverned namespace is then at its goal if and only if its clusters that carried a policy have been cleared |
| PolicyConvergence.TriedIsDone | pkg/controller/policy/policy.go:322-516 | a write that was once made or found unnecessary stays done, whatever others write later |
| PolicyConvergence.ClearedExactly | pkg/controller/policy/namespace.go:120-143 | a cluster of an ungoverned namespace loses its policy exactly by an attempt to clear it, and never gets one |
| PolicyConvergence.OrderDoesNotMatter | pkg/controller/policy/policy.go:314-519 | two such sequences, of any orders and overlaps, end in one state if and only if they cleared the same ungoverned clusters |
| PolicyConvergence.FurtherReconciliationsAreIdle | pkg/controller/policy/policy.go:314-519 | at the goal, no sequence of attempts changes anything |
| PolicyConvergence.GoalOfGoverned | pkg/controller/policy/namespace.go:91-115 | a bound namespace holds exactly its policy's managed objects, each as the policy's own field says, and its clusters carry the policy |
| PolicyConvergence.GoalOfLabels | pkg/controller/policy/namespace.go:22-45 | its pod security labels are exactly the policy's, and the others stay |
| PolicyConvergence.LabelsAre | pkg/controller/policy/namespace.go:22-45 | the labels as they are written, and the one that binds a namespace |
| PolicyConvergence.GoalOfUngoverned | pkg/controller/policy/namespace.go:69-98 | an unbound namespace holds no managed object; one bound to a missing policy exactly that policy's; clusters carry none |
| PolicyConvergence.BoundNamespacesHoldTheirPolicy | pkg/controller/policy/policy.go:314-519 | a namespace that at some time held no managed object ends, if governed, with exactly its policy's, and its clusters carry the policy |
| Syncer.TranslateNamesItsKey | k3k-kubelet/controller/syncer/configmap.go:146-151 | a host copy names its virtual object |
| Syncer.TranslateRenders | k3k-kubelet/controller/syncer/secret.go:146-156 | field by field: the source's data, type, labels and annotations outside the tracking keys, opaque for service account tokens only, in the cluster's namespace, owned by the Cluster |
| Syncer.NextKeeps | k3k-kubelet/controller/syncer/configmap.go:82-142 | every step of users and reconciliations keeps the protocol's invariant |
| Syncer.NoOrphan | k3k-kubelet/controller/syncer/secret.go:82-142 | over every run a host copy's object exists with the finalizer and has had a version whose fields the copy shows |
| Syncer.CopiesNeverGoBack | k3k-kubelet/controller/syncer/configmap.go:126-141 | stale reads never replace a copy by an older version |
| SyncerController.Reconciler.Reconcile | k3k-kubelet/controller/syncer/service.go:59-124 | amid any acts of others: success leaves a copy with the fields of the version read, in the cluster's namespace and owned by the Cluster, and the finalizer, or neither for a deleted object |
| SyncerController.Reconciler.Remove | k3k-kubelet/controller/syncer/secret.go:104-117 | the copy goes before the finalizer |
| SyncerController.Reconciler.WriteCopy | k3k-kubelet/controller/syncer/configmap.go:126-141 | exactly when it succeeds; the written copy has the fields of the version read, its object has the finalizer, and no other copy changes |
| TokenRefresh.PeriodWithinFourFifths | k3k-kubelet/provider/token.go:244-248 | the period is at most four fifths of the lifetime, also when the multiplication overflows |
| TokenRefresh.PeriodExactly | k3k-kubelet/provider/token.go:244-248 | the period is at most 24 hours, and without overflow it is four fifths of the lifetime, up to a nanosecond, or 24 hours if that is less |
| TokenRefresh.DueFrom | k3k-kubelet/provider/token.go:251-258 | a token is due from then on, and not a second before |
| TokenRefresh.Durations | k3k-kubelet/provider/token.go:245 | the 64-bit arithmetic of durations: products wrap, quotients are cut off towards zero, differences stop at the ends |
| TokenRefresh.TokensNeverExpire | k3k-kubelet/provider/token.go:315-358 | with rounds a fifth of a lifetime apart the mounted token is unexpired at every instant of every run |
| TokenRefresh.CreatedTokensNeverExpire | k3k-kubelet/provider/token.go:234-258 | the same from the secret's creation on |
| TokenRefresh.ExactBound | k3k-kubelet/provider/token.go:251-258 | the exact condition for one token over all schedules |
| TokenRefresh.FiveIsTight | k3k-kubelet/provider/token.go:244-248 | the factor five cannot be improved by a nanosecond |
| TokenNames.EscapePrefixFree | k3k-kubelet/provider/token.go:584-585 | no escape of a quoted character begins another one |
| TokenNames.EscapesDecode | k3k-kubelet/provider/token.go:584-585 | a quoted text ends at its closing quote, whatever follows |
| TokenNames.EscapeText | k3k-kubelet/provider/token.go:584-585 | each escape as it is written; digits denote the character |
| TokenNames.AttributesText | k3k-kubelet/provider/token.go:567-591 | the four quoted fields in their order, separated by a slash |
| TokenNames.ExpirationText | k3k-kubelet/provider/token.go:574-578 | the expiration reads back in base ten |
| TokenNames.FormatIntInjective | k3k-kubelet/provider/token.go:574-578 | different expirations are written differently |
| TokenNames.AttributesInjective | k3k-kubelet/provider/token.go:567-591 | the digested text is injective in pod name, audience, expiration and path |
| TokenVolumes.HostPod.TransformProjectedTokens | k3k-kubelet/provider/token.go:142-181 | the token sources become secrets in place, and their names are returned |
| TokenVolumes.HostPod.RemoveKubeAccessVolume | k3k-kubelet/provider/token.go:487-494 | the first kube-api-access volume goes |
| TokenVolumes.HostPod.TransformTokens | k3k-kubelet/provider/token.go:51-101 | each token gives way to the secret whose name is returned at its rank, the first kube-api-access volume to one for its own secret at the end; nothing else of the volumes changes |
| TokenVolumes.RanksInOrder | k3k-kubelet/provider/token.go:142-181 | the ranks of the tokens are the positions of the names, in order and without gaps |
| TokenVolumes.RefreshPodTokens | k3k-kubelet/provider/token.go:361-392 | the secrets that a refresh visits, that for kube-api-access first |
| TokenVolumes.RefreshCoversCreation | k3k-kubelet/provider/token.go:361-392 | they are exactly those that the creation returned, each as often |
| TokenVolumes.LeftoverTokens | k3k-kubelet/provider/token.go:487-494 | a token source stays behind if and only if a later kube-api-access volume has one |
| TokenVolumes.SecondKubeAccessStays | k3k-kubelet/provider/token.go:487-494 | a pod with two kube-api-access volumes keeps the second one's token source |
| Snapshot.NextKeeps | pkg/controller/snapshot/snapshot.go:78-134 | every call, however stale its read, keeps the invariant |
| Snapshot.FilenameNeverChanges | pkg/controller/snapshot/snapshot.go:109-112 | a recorded file name stays while the object lives |
| Snapshot.RecordedWithFinalizer | pkg/controller/snapshot/snapshot.go:136-229 | Ready needs a file, and a file is recorded only with the finalizer there before and after |
| Snapshot.FinalizerGoesSafely | pkg/controller/snapshot/snapshot.go:231-298 | the finalizer goes only without a file, without the server having it, or with the cluster gone or terminating |
| SnapshotController.Controller.UpdateSnapshotStatus | pkg/controller/snapshot/snapshot.go:300-317 | the status of the copy is written with Ready set, unless condition, reason and message were the same; a run of the snapshot machine |
| SnapshotController.Controller.BackpopulateSnapshotStatus | pkg/controller/snapshot/snapshot.go:189-229 | the saved file is recorded, and the copy has it even if the write fails |
| SnapshotController.Controller.ReconcileSnapshot | pkg/controller/snapshot/snapshot.go:136-187 | the finalizer first, then the file; exactly when it succeeds or has to wait; what a failure leaves |
| SnapshotController.Controller.DeleteSnapshot | pkg/controller/snapshot/snapshot.go:243-298 | exactly when the file counts as deleted, and what is deleted |
| SnapshotController.Controller.FinalizeSnapshot | pkg/controller/snapshot/snapshot.go:231-241 | the file is settled before the finalizer goes; exactly when that succeeds |
| SnapshotController.Controller.Reconcile | pkg/controller/snapshot/snapshot.go:78-134 | the first reconciliation adds the finalizer and nothing else; a recorded file is never saved again; creation ends Ready; whatever fails, the status then says Ready is false; deletion lets go of object and file; a run of the snapshot machine |
| Kubeconfig.File.Add | cli/kubeconfig/file.go:41-62 | exactly when it succeeds; then the source's current cluster and user are under the name, with a context for the two, and everything else is as before; a failure leaves the file |
| Kubeconfig.File.Remove | cli/kubeconfig/file.go:69-102 | what is removed and returned, and that the file is not written without a match |
| Kubeconfig.RemovedAllEntries | cli/kubeconfig/file.go:77-95 | clusters, users and contexts of the removed names are gone, and all others stay |
| Kubeconfig.FoundOnceInOrder | cli/kubeconfig/file.go:77-95 | exactly the names that were there, once each, in order |
| Kubeconfig.EditsFrame | cli/kubeconfig/file.go:41-102 | over any sequence of edits unmentioned entries stay |
| Kubeconfig.EditsKeepAnchored | cli/kubeconfig/file.go:90-92 | the current context never dangles and never moves to another one |
| Kubeconfig.AddThenRemove | cli/kubeconfig/file.go:41-102 | adding and removing a fresh name restores the config if and only if it was not the current context |
| ServerUrl.LoadBalancerSANs | pkg/controller/cluster/server/service.go:105-123 | the assigned addresses, in order, of load balancers only |
| ServerUrl.AddressesAssigned | pkg/controller/cluster/server/service.go:112-120 | exactly the IPs and hostnames that are assigned |
| ServerUrl.AddressesInOrder | pkg/controller/cluster/server/service.go:112-120 | they come in the order of the entries, the IP of an entry first |
| ServerUrl.Cluster.BuildServerConfig | pkg/controller/cluster/server/config.go:60-73 | the status lists, sorted and once each, exactly the spec's names, the extra ones, the service's names and address, and its load balancer's addresses |
| ServerUrl.URL | pkg/controller/cluster/server/endpoint.go:43-149 | the certificate covers the host for every service type and access; which host it is, with its fallbacks, and which port, with an ingress or without; exactly when there is none |
| ServerUrl.PortOfService | pkg/controller/cluster/server/endpoint.go:79-128 | the port for every service type and access: the first number, the first node port, or the last one with the name for custom ports |
| ServerUrl.UrlText | pkg/controller/cluster/server/endpoint.go:152-161 | the default port is left out, and a host with a colon or a percent sign is put in brackets before any other |
| ServerUrl.IngressRules | pkg/controller/cluster/server/ingress.go:53-88 | one rule for each DNS name of the spec, in order |
| ServerUrl.FilterDNSNamesKeeps | pkg/controller/controller.go:79-83 | exactly the names that are not addresses are kept, each as often as it is there and in the same order |
| ServerUrl.UrlRoundTrip | pkg/controller/cluster/server/endpoint.go:152-161 | a URL leads back to host and port if and only if the port is not 443 or the host has no ':' |
| ServerUrl.MakeService | pkg/controller/cluster/server/service.go:23-100 | type and ports of the service for every way to expose it |
| ServerUrl.MadeAsAsked | pkg/controller/cluster/server/service.go:23-187 | exactly the ports that the spec asks for, by name and number, once each and the server's first |
| ServerUrl.ExternalPort | pkg/controller/cluster/server/service.go:130-186 | the external URL has the server's port, for node ports if and only if none is configured out of range |
| Text.ListingUnique | k3k-kubelet/provider/configure_capacity.go:228 | a sorted list of names is determined by its set |
| Text.BeforeIsDecided | k3k-kubelet/provider/configure_capacity.go:228 | a name comes before another at the first byte where they differ, or as its beginning |
| Text.SortNames | k3k-kubelet/provider/configure_capacity.go:228 | sorting gives that list |

## Left out

- Aliasing in `distributeQuotas`: its result shares the per-node lists with the map it is given; lists are values here.
- Parsing and formatting of quantities, YAML, JSON and label selectors: the model starts from the decoded values.
- `filterResources` of the syncers: it decides which events are looked at, not what a reconciliation does.
- Liveness of the cluster, syncer and snapshot machines: apart from `ClusterPorts.DeletionEndsExactly`, which says when a deletion can be finished, only safety is stated.
- The port allocator's one ConfigMap object in memory, which concurrent reconciliations share: each call has its own copy here, and only the update is a compare-and-swap.
- A cache that answers that a cluster does not exist although an older version is still to come: such a reconciliation does nothing.
- PolicyController.Controller.ReconcileVirtualClusterPolicy: its exact outcome is stated for a reconciliation by itself; with others at the same time only what it has attempted counts.
- `finalizePolicy`: deletion of a policy, which unbinds its namespaces and relies on garbage collection for its objects.
- Policies together with the cluster controller, which can delete the policy's network policy when names coincide.
- The pod spec: containers, volumes other than tokens, scheduling, networking; `updateContainerImages`.
- Container mounts of the token volume, and the owner references of token secrets.
- `generateTokenSecretName` beyond the digested text: the readable components and the six digits of the digest.
- A token's request and storage are one step, and its lifetime is counted from the stamp that is taken after the answer.
- TokenNames.AttributesInjective: text is a sequence of Unicode characters, so bytes that are not valid UTF-8 are not modelled.
- PVC, priority class, ingress and event syncers, HCP endpoints, storage classes, certificates, bootstrap data and the command line: input and output, or easier cases of what is here.
- ServerUrl.UrlRoundTrip: hosts with brackets are not considered, they are no host names.
- SnapshotController.Controller.Reconcile: the S3 configuration and the choice between local and remote files are one lookup that may fail.
