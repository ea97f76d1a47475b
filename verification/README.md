# Managed cluster import controller: a verified model

The import controller is a set of Kubernetes controllers that share state through
the API server of a hub. They import clusters (render a bootstrap kubeconfig and
manifests, apply them to the spoke, report a condition) and tear them down again
(addons, manifest works, role binding, works on a hosting cluster, the namespace).
This project models the parts whose correctness spans several reconcilers or whole
runs, and proves what they promise about every run, every input or every stored state.

`dafny verify dfyconfig.toml` checks everything.

## How it is laid out

| part | files | subject |
|---|---|---|
| Detach protocol | `Kube`, `DetachProtocol`, `DetachSteps`, `DetachRuns`, `DetachSafety`, `NamespaceSafety`, `LateWorks`, `TearDownOrder` | a labelled transition system in which every API call of every controller is its own step, interleaved with users, agents, other owners of finalizers and the shared cache as it catches up |
| Detach code | `HubClient`, `ResourceCleanup`, `WorkAppliers`, `NamespaceDeletion`, `ForcedDetach`, `OrderlyDetach` | the reconcilers as imperative code over an API client whose every call extends a run of that transition system, so what holds of all runs holds of the code |
| Bootstrap credentials | `Certificates`, `BootstrapConfig`, `Tokens`, `BootstrapCache` | the import secret as a cache of a kubeconfig and token |
| Manifest stream | `ManifestStream` | printing rendered objects and splitting the stream again |
| Import condition | `ImportCondition`, `ImportFinality`, `ImportRaces` | four controllers writing one condition, over interleaved runs with users, and again with reads and writes apart |
| Klusterlet works | `KlusterletWorks`, `DisabledImport` | the manifestwork controller with and without disable-auto-import |
| Fan-out, images | `FanOut`, `ImageOverrides` | indexed enqueueing; three override loops |

## Promises that do not hold as stated, and when they do

- *The namespace goes only after a cleanup.* The controllers read the cluster from the
  manager's cache (cmd/manager/main.go:342). A manifestwork, hosted or managedcluster
  reconcile that acts on a reading from before the deletion, taken earlier or still in
  the cache, patches the whole finalizer list without a resource version, may drop the
  manifestwork finalizer and so free the namespace. `NamespaceSafeExactlyWhenNoStalePatch`
  gives the exact condition at any moment after the deletion. `DeletionIsExposed`: at the
  deletion itself it is not met, unless the finalizer list names the import finalizer twice
  or the cluster is one that no applier cares for (SingletonHosted, or hosted without a
  place) and carries the manifestwork finalizer.
- *The finalizers are dropped only when nothing is left.* Such a reconcile may also
  create a work after the cleanup has looked, and a cache that lags may hide addons or
  the role binding from the cleanup. `CleanReleaseExactlyWhenNoLateWork` gives the exact
  condition at any moment after the deletion, with or without a cleanup under way.
  `FinalizersDropOnlyWhenClean` says more (all other finalizers stay, in order) of runs
  from a `Settled` moment on, which every run can reach (`SettlingHappens`).
- *Hosting works go in order; the CRD work is stripped last.* A late hosting work, or
  hidden addons, break the one order (`HostingOrderExactlyWhenNoLateWork`), a late work in
  the cluster's namespace, or hidden addons, the other (`OrderlyForceIsLastExactly`). Both
  are exact at any moment after the deletion between cleanups, also when the cluster
  object is already gone.
- *The issuer and the checker of legacy tokens agree.* Not when an earlier, invalidated
  secret holds the same token (`SharedTokenDisagrees`); `IssuerAndCheckerAgreeExactly`.
- *A created kubeconfig says what was required.* Not with both a CA file and CA data
  (`CreatedConfigParses`); `Requirements` never asks for both.
- *No churn.* Reuse looks for one secret name only, so a stream without it, as with
  several hubs, is never reused (`NothingToReuse`).
- *Print and split undo each other.* Exactly for `Readable` lists (`SplitUndoesPrintExactly`);
  nothing is dropped exactly under `NothingDropped` (`ArrangedKeepsAllExactly`).
- *Success is final.* Exactly when auto-import is disabled, or under ImportOnly without a
  request, or when nobody has the means to import: no auto-import secret, no self-managed
  label, no installed and claimed deployment (`FinalExactlyWhenBarred`). Under
  ImportAndSync a failing apply lets the status flip at every move (`SyncAlternates`). With
  reads and writes apart an import that read the cluster before the success can still take
  it back; `FinalExactlyWhenClosed` says exactly when it cannot.
- *Each URL is recorded once.* One slash is trimmed, so a URL ending in two is added again
  by every reconcile of a kept secret (`RepeatedImports`).
- *A disabled cluster's works keep their manifests.* Not when the informer's list is still
  empty although works exist: the works are then applied by name
  (`FrozenExactlyWhenWorksAreSeen`). And once enabled again, a labelled work that is no
  longer rendered stays read-only (`EnablingClearsConfigs`).
- *Every image obeys the same registry.* The sidecar takes the first that changes the
  image, the agents the last. They agree exactly when the sources and mirrors of those two
  registries fit together (`LoopsAgreeExactly`); two mirrors of one source never do (`SidecarDiffers`).

## Assumptions

- Server rules: a delete of an object with finalizers marks it; a marked object without
  finalizers disappears; a marked object takes no new finalizers.
- After the deletion of a cluster the environment only removes its resources and other
  owners remove only their own finalizers. A run follows one incarnation of a cluster.
- Cached are the reads of the cluster, the addons, the namespace and, at the end of a
  cleanup, the role binding; each kind of the cache catches up on its own. Works, hosting
  works and the forced deletion of the binding go to the server. At the start of a run the
  cluster is live and the cache shows it.
- The manifestwork and the hosted controller are one applier, of which one reconcile is
  under way at a time and which may write its works in any order.
- The only-if halves of the exact conditions are exact for what is modelled: an applier
  has an import secret at hand, its counts of works are arbitrary, and the hosting cluster
  and its namespace are there. A work is created in the cluster's own namespace only
  while that exists and is not terminating.
- `forceCleanup` does nothing when the namespace is gone and drops the error of its addon
  list; the model does the same, and forced progress is stated with a namespace present.
- In `ImportFinality` a reconcile is one atomic step; in `ImportRaces` reads and writes
  are apart, and who has the means to import stays as it is. API failures are inputs.
- Kubeconfig and PEM codecs are parameters that satisfy `LawfulCodec` and `Lawful` (section 5
  of RFC 7468). Clocks, token requests, live CA detection and lookups are inputs.
- Tokens the server issues are in date when they are issued (`IssuesGoodTokens`).
- A resource version is never reused, so an update of a stale work is refused.

## Model

| member | source | states |
|---|---|---|
| DetachSafety.FinalizersDropOnlyWhenClean | pkg/controller/resourcecleanup/resourcecleanup_controller.go:91-96 | in every interleaved run, from a settled moment on, the patch that drops the import and manifestwork finalizers happens when no work, addon, role binding or labelled hosting work exists at that instant, and leaves all other finalizers in order |
| DetachSafety.SettledWhenCaughtUp | cmd/manager/main.go:338-347 | a cache that has caught up while the controllers are between reconciles settles the deletion |
| DetachSafety.SettlingHappens | cmd/manager/main.go:338-347 | every run can settle after the deletion without any change of the hub |
| NamespaceSafety.NamespaceWaitsForCleanup | pkg/controller/clusternamespacedeletion/controller.go:86-110 | from a protected state on the namespace is deleted only after a cleanup completed, with no finalizer but the import one left, and with no addon left unless the cache hides addons |
| NamespaceSafety.UnheldNamespaceIsLost | pkg/helpers/manifestwork.go:31-45 | otherwise some continuation deletes the namespace without any cleanup |
| NamespaceSafety.NamespaceSafeExactlyWhenNoStalePatch | pkg/controller/clusternamespacedeletion/controller.go:55-182 | at any moment after the deletion: all continuations wait for a cleanup if and only if one has completed, or the finalizers block and no reading in flight or in the cache can undo that |
| NamespaceSafety.DeletionIsExposed | pkg/controller/manifestwork/manifestwork_controller.go:74-103 | at the deletion itself the cache still shows the live cluster, so the finalizers do not hold the namespace yet, with or without the manifestwork one; a doubled import finalizer and clusters without an applier are excepted |
| LateWorks.CleanReleaseExactlyWhenNoLateWork | pkg/controller/resourcecleanup/resourcecleanup_controller.go:281-336 | at any moment after the deletion, a cleanup under way or not: all continuations release only a clean cluster if and only if no reading in flight or in the cache can still create a work where the cleanup looks, the cache hides neither addons nor binding, and the cleanup under way has missed nothing it could still release |
| LateWorks.LitteredRelease | pkg/controller/manifestwork/manifestwork_controller.go:127-148 | otherwise some continuation releases the cluster with a work, an addon or the binding left |
| LateWorks.DeletionInvitesLateWorks | pkg/controller/manifestwork/manifestwork_controller.go:74-148 | at the deletion itself a late work can come for every cluster with an applier whose namespace takes works |
| LateWorks.SettledIsTidy | cmd/manager/main.go:338-347 | a settled deletion meets the exact condition |
| TearDownOrder.HostingOrderExactlyWhenNoLateWork | pkg/controller/resourcecleanup/resourcecleanup_controller.go:136-187 | at any moment after the deletion between cleanups: in all continuations a hosting work is deleted only without addons, the hosted klusterlet only after all addon works, the kubeconfig only after the klusterlet, if and only if no reading in flight or in the cache can write in the hosting namespace and the cache does not hide addons while hosting works are left |
| TearDownOrder.DisorderedRun | pkg/controller/resourcecleanup/resourcecleanup_controller.go:242-278 | otherwise some continuation deletes a hosting work out of order |
| TearDownOrder.OrderlyForceIsLastExactly | pkg/controller/resourcecleanup/resourcecleanup_controller.go:237-279 | in all continuations the orderly path strips only the CRD work, as the last work and without addons, if and only if no reading can write in the cluster's namespace and the cache does not hide addons while the CRD work is there, or no cleanup can take that path |
| TearDownOrder.MisforcedRun | pkg/controller/resourcecleanup/resourcecleanup_controller.go:237-279 | otherwise some continuation strips it too early |
| TearDownOrder.SettledIsOrderly | cmd/manager/main.go:338-347 | a settled deletion meets both exact conditions |
| Kube.StaleRemovalIsExact | pkg/controller/resourcecleanup/resourcecleanup_controller.go:315-336 | a list without our finalizers, computed from an earlier reading and accepted by the server, is the one the current finalizers give: nothing comes back and the order stays |
| HubClients.HubClient.PatchCluster | pkg/controller/resourcecleanup/resourcecleanup_controller.go:326-335 | the patch is a step of the protocol and, undisturbed, leaves the cluster without our finalizers or gone |
| ResourceCleanup.KeepHosting | pkg/helpers/helpers.go:953-962 | the loop keeps exactly the hosting finalizers, in order |
| ResourceCleanup.ForceDeleteAddon | pkg/helpers/helpers.go:929-982 | undisturbed, the addon is gone or marked with just its hosting finalizers |
| ResourceCleanup.ForceDeleteAllAddons | pkg/helpers/helpers.go:984-1001 | undisturbed, that holds of every addon |
| ResourceCleanup.ForceDeleteWork | pkg/helpers/manifestwork.go:76-116 | undisturbed, the work is gone and no other is touched |
| ResourceCleanup.ForceDeleteAllWorks | pkg/helpers/manifestwork.go:65-74 | undisturbed, no work of the namespace is left and no other is touched |
| ResourceCleanup.ForceDeleteBinding | pkg/helpers/manifestwork.go:144-184 | undisturbed, the role binding is gone |
| ResourceCleanup.DeleteHostingWorks | pkg/controller/resourcecleanup/resourcecleanup_controller.go:136-187 | undisturbed, one turn of the hosting order; in any case only steps the protocol allows |
| ResourceCleanup.OrphanCleanup | pkg/controller/resourcecleanup/resourcecleanup_controller.go:189-203 | undisturbed, the state that OrphanLeavesOnlyHostingAddons describes |
| ResourceCleanup.ForceCleanup | pkg/controller/resourcecleanup/resourcecleanup_controller.go:205-235 | undisturbed, the forced state; without a namespace nothing |
| ResourceCleanup.OrderlyCleanup | pkg/controller/resourcecleanup/resourcecleanup_controller.go:237-279 | undisturbed, the state of the orderly path, stage by stage |
| ResourceCleanup.CleanupCompleted | pkg/controller/resourcecleanup/resourcecleanup_controller.go:281-313 | a positive answer means each listing was empty in this reconcile; undisturbed, it is positive exactly for a clean hub |
| ResourceCleanup.RemoveClusterFinalizers | pkg/controller/resourcecleanup/resourcecleanup_controller.go:315-336 | the two finalizers go, the others stay in order |
| ResourceCleanup.Reconcile | pkg/controller/resourcecleanup/resourcecleanup_controller.go:58-97 | every interleaving is a run of the protocol; undisturbed, the new hub is the one described by the orphan, forced and orderly rows below |
| ForcedDetach.ForceLeavesOnlyHostingAddons | pkg/controller/resourcecleanup/resourcecleanup_controller.go:205-235 | a forced cleanup leaves exactly the addons with hosting finalizers, each marked and keeping just those; the binding goes unless a hosted cluster waits for such addons; cluster and namespace stay |
| ForcedDetach.ForceOnWorks | pkg/controller/resourcecleanup/resourcecleanup_controller.go:136-235 | no work of the namespace is left; the hosting works whose turn it is are marked, or gone if nothing holds them; all other works stay |
| ForcedDetach.OrphanLeavesOnlyHostingAddons | pkg/controller/resourcecleanup/resourcecleanup_controller.go:189-203 | undisturbed, without a cluster but with a namespace: no role binding, no work of the namespace and of the addons exactly those with hosting finalizers are left, each marked and keeping just those; nothing else changes, and without a namespace nothing at all |
| ForcedDetach.ForcedExactlyWhenUnreachable | pkg/controller/resourcecleanup/resourcecleanup_controller.go:58-97 | undisturbed, a deleting cluster that is not accepted or known to be unavailable loses all works of its namespace at once, but without a namespace nothing; any other loses nothing while it has an addon; a live one is left alone |
| ForcedDetach.HostingWorkHoldsCluster | pkg/controller/resourcecleanup/resourcecleanup_controller.go:281-313 | a cluster whose agent runs elsewhere, in either hosted mode, is not released while a finalizer holds a labelled work there |
| ForcedDetach.OtherWorksDoNotMatter | pkg/controller/resourcecleanup/resourcecleanup_controller.go:205-279 | for a cluster that is not hosted, or whose place is unknown, works of other namespaces are not touched |
| ForcedDetach.CleanExactly | pkg/controller/resourcecleanup/resourcecleanup_controller.go:281-313 | what a release must find: no work of the namespace, no addon, no binding, and no labelled work where the agent runs |
| ForcedDetach.OneForcedReconcileReleases | pkg/controller/resourcecleanup/resourcecleanup_controller.go:58-97 | one reconcile releases a forced cluster that is not hosted |
| ForcedDetach.ForcedReconcileAdvances | pkg/controller/resourcecleanup/resourcecleanup_controller.go:136-235 | when hosting deletes take effect at once, each forced reconcile releases the cluster or removes exactly one kind of hosting work |
| ForcedDetach.ThreeForcedReconcilesRelease | pkg/controller/resourcecleanup/resourcecleanup_controller.go:205-235 | in that case a hosted cluster is released by exactly as many reconciles as kinds of hosting work (one to three), not earlier |
| ForcedDetach.RoundAdvances | pkg/controller/resourcecleanup/resourcecleanup_controller.go:136-235 | whatever finalizers the hosting works hold, a reconcile and its agent release the cluster or remove at least one kind |
| ForcedDetach.AgentReleasesInTime | pkg/controller/resourcecleanup/resourcecleanup_controller.go:205-235 | with an agent that finishes the requested deletes between reconciles, one round more than kinds left (at most four) releases the cluster |
| ForcedDetach.HeldWhileAgentWorks | pkg/controller/resourcecleanup/resourcecleanup_controller.go:281-313 | when every hosting work is held by a finalizer the cluster is held until each kind has had its round |
| OrderlyDetach.OrderlyWaits | pkg/controller/resourcecleanup/resourcecleanup_controller.go:237-279 | until the addons are gone and at most a CRD work whose agent is removing the CRD is left, an orderly reconcile changes nothing |
| OrderlyDetach.OrderlyTurn | pkg/controller/resourcecleanup/resourcecleanup_controller.go:237-279 | then it removes the CRD work, or takes a turn in the hosting namespace |
| OrderlyDetach.OrderlyReleasesInTime | pkg/controller/resourcecleanup/resourcecleanup_controller.go:237-313 | from then on, the binding gone too, one round more than removals left releases the cluster: one if it is not hosted, at most five |
| WorkAppliers.AddFinalizer | pkg/helpers/helpers.go:285-295 | appends the finalizer unless it is there, and says whether it did |
| WorkAppliers.RemoveFinalizer | pkg/helpers/helpers.go:297-322 | removes just that finalizer, the others in order |
| WorkAppliers.AssertManifestWorkFinalizer | pkg/helpers/manifestwork.go:31-63 | undisturbed, the manifestwork finalizer is there exactly when works are, and no other finalizer changed |
| WorkAppliers.ReconcileWorks | pkg/controller/hosted/controller.go:80-145 | reading, finalizer and works are steps of the protocol; undisturbed, a cluster without an applier or not live is left alone, and another gets its finalizer and the works that AppliedExactly describes |
| WorkAppliers.AppliedExactly | pkg/controller/manifestwork/manifestwork_controller.go:127-148 | key by key: each rendered name is a work where the cluster's go; a missing one becomes the first rendered under its name, with the hosting label just for hosted clusters; works that were there are unchanged and no other appears |
| WorkAppliers.EnsureImportFinalizer | pkg/controller/managedcluster/managedcluster_controller.go:119-167 | undisturbed, a live cluster gets the import finalizer and keeps the others; a deleting one is left alone |
| NamespaceDeletion.FilterPods | pkg/controller/clusternamespacedeletion/controller.go:184-204 | as members, keeps exactly the pods that hold the namespace back; empty exactly when none does |
| NamespaceDeletion.NobodyHome | pkg/controller/clusternamespacedeletion/controller.go:112-176 | true exactly when no hosted cluster, deployment, infra env, cluster API cluster or foreign pod lives there |
| NamespaceDeletion.Reconcile | pkg/controller/clusternamespacedeletion/controller.go:55-182 | undisturbed, the namespace is deleted exactly when it is deletable, which DeletableExactly spells out; always a run of the protocol |
| NamespaceDeletion.DeletableExactly | pkg/controller/clusternamespacedeletion/controller.go:55-204 | the namespace is deleted exactly when it is labelled, not retained and not terminating, the cluster is gone or deleting with at most the import finalizer, no addon is left, each of the four listings was read and empty (an unknown kind will do for hosted and cluster API clusters), and all pods are jobs of which none runs but for an uninstall |
| NamespaceDeletion.Releases | pkg/controller/clusternamespacedeletion/controller.go:86-100 | the controller's length tests say: gone, or deleting with no finalizer but the import one |
| ManifestStream.AggregateObjects | pkg/bootstrap/render.go:518-558 | prints namespaces in order, then the others sorted, then the klusterlet |
| ManifestStream.SortOut | pkg/bootstrap/render.go:518-540 | the loop sorts objects out by kind and keeps the last klusterlet |
| ManifestStream.WriteAll | pkg/bootstrap/render.go:502-516 | appends the texts, each after a separator |
| ManifestStream.ArrangedHolds | pkg/bootstrap/render.go:518-558 | the stream holds every namespace and every other object that decodes, and nothing else but a klusterlet |
| ManifestStream.ArrangedInOrder | pkg/bootstrap/render.go:518-558 | namespaces come first, the other objects sorted, a klusterlet only at the end |
| ManifestStream.LastKlusterletEnds | pkg/bootstrap/render.go:529-555 | of several klusterlets the last one given ends the stream |
| ManifestStream.SplitUndoesPrintExactly | pkg/helpers/helpers.go:473-482 | a printed list comes back if and only if no text holds a separator and only the last may end in an open one |
| ManifestStream.StreamRoundTrip | pkg/helpers/helpers.go:473-482 | splitting aggregated objects with appended files gives them all back in order |
| ManifestStream.InputsReadable | pkg/bootstrap/render.go:518-558 | readable objects and files make a readable stream |
| ManifestStream.ArrangedKeepsAllExactly | pkg/bootstrap/render.go:518-558 | aggregation loses nothing if and only if every object has a known kind and there is at most one, non-empty, klusterlet |
| ManifestStream.AggregateIsCanonical | pkg/bootstrap/render.go:518-558 | permutations with the same namespace order give identical bytes |
| Certificates.MergeCertificateData | pkg/bootstrap/bootstrapkubeconfig.go:605-641 | the encoded first-occurrence dedup of all certificates, or an error if a bundle does not parse |
| Certificates.RemoveDuplicates | pkg/bootstrap/bootstrapkubeconfig.go:618-631 | the nested loops compute the first-occurrence dedup |
| Certificates.MergeNests | pkg/bootstrap/bootstrapkubeconfig.go:605-641 | merging a merge with more bundles is one n-ary merge (associativity) |
| Certificates.MergeIdempotent | pkg/bootstrap/bootstrapkubeconfig.go:605-641 | merging again, or the same bundles twice, changes nothing |
| Certificates.GetCustomCAData | pkg/bootstrap/bootstrapkubeconfig.go:360-380 | the left fold of merges is one n-ary merge, or an error if a fetch or parse fails |
| Certificates.HasCertificates | pkg/helpers/helpers.go:1110-1141 | true exactly when every certificate of the second bundle is in the first |
| Certificates.MergeHoldsInputs | pkg/helpers/helpers.go:1110-1141 | HasCertificates holds of a merge and each of its inputs |
| Certificates.HeldExactlyWhenNothingIsAdded | pkg/helpers/helpers.go:1110-1141 | HasCertificates holds of a merge and a further bundle if and only if merging that bundle in changes nothing |
| Tokens.OutOfDateForGood | pkg/controller/importconfig/cluster_info.go:109-139 | a token out of date stays so |
| Tokens.InDateLasts | pkg/controller/importconfig/cluster_info.go:109-139 | a token in date is unexpired for a fifth of its lifetime more |
| Tokens.ValidateLegacyServiceAccountToken | pkg/controller/importconfig/cluster_info.go:55-107 | decides on the first eligible secret with an equal token |
| Tokens.GetBootstrapToken | pkg/bootstrap/bootstrapkubeconfig.go:185-237 | the first usable legacy token, else the requested one |
| Tokens.IssuerAndCheckerAgreeExactly | pkg/controller/importconfig/cluster_info.go:88-101 | an issued legacy token is accepted if and only if no earlier invalidated secret holds it |
| Tokens.DistinctTokensAgree | pkg/bootstrap/bootstrapkubeconfig.go:185-237 | with distinct tokens every issued token is accepted |
| Tokens.SharedTokenDisagrees | pkg/controller/importconfig/cluster_info.go:88-101 | a list whose issued token is refused |
| Tokens.LegacyRefusedForGood | pkg/controller/importconfig/cluster_info.go:55-107 | refused once, refused later from an unchanged list |
| Tokens.CheckerAcceptsExactly | pkg/controller/importconfig/cluster_info.go:55-107 | a legacy token is accepted if and only if a token secret with the service account's name prefix holds it and the first such secret has no invalid-since label, or one not yet past |
| Tokens.IssuerTakesExactly | pkg/bootstrap/bootstrapkubeconfig.go:185-235 | the issued legacy token is that of the first secret of the service account that holds one and is not invalid |
| Tokens.NewCredentialExactly | pkg/bootstrap/bootstrapkubeconfig.go:185-237 | such a token comes before any request and without timestamps; the requested one is taken only when no secret has one; never the token of another service account |
| Tokens.InDateExactly | pkg/controller/importconfig/cluster_info.go:109-139 | in date while more than a fifth of the lifetime is left, or 72 days without a creation time; always without an expiration; never with an unreadable stamp |
| BootstrapConfig.CreatedConfigParses | pkg/bootstrap/bootstrapkubeconfig.go:57-96 | a created kubeconfig parses to what was required if and only if no CA file is required beside CA data |
| BootstrapConfig.ValidateBootstrapKubeconfig | pkg/bootstrap/bootstrapkubeconfig.go:649-684 | the comparison is equality of all five fields |
| BootstrapConfig.Requirements | pkg/bootstrap/bootstrapkubeconfig.go:98-125 | a CA file and CA data are never both required |
| BootstrapConfig.ProxyCAIsTrusted | pkg/bootstrap/bootstrapkubeconfig.go:297-313 | the required CA data hold the server's and the proxy's CA unless the system store is trusted |
| BootstrapConfig.RequiredServer | pkg/bootstrap/bootstrapkubeconfig.go:98-262 | a custom URL is the required server, else the hub's address; the proxy of the API server section, or without one HTTPS before HTTP; the internal endpoint with its CA file exactly for the hub's own cluster without custom URL or CA |
| BootstrapConfig.RequiredCA | pkg/bootstrap/bootstrapkubeconfig.go:297-380 | with an API server section the CA data are nothing for the system store, else one merge of the detected CA (unless bundles were asked for instead), every custom bundle and the CA of the HTTPS proxy |
| BootstrapConfig.RequiredLegacyCA | pkg/bootstrap/bootstrapkubeconfig.go:297-331 | without that section they are the older bundle, or else the detected CA, merged with the CA of the HTTPS proxy |
| BootstrapCache.ExtractKubeconfig | pkg/controller/importconfig/cluster_info.go:31-51 | the kubeconfig of the first bootstrap secret in the stream, else nothing |
| BootstrapCache.FirstSecretCounts | pkg/controller/importconfig/cluster_info.go:31-51 | of several secrets of that name in the stream the first one counts |
| BootstrapCache.ValidateTokenExpiration | pkg/controller/importconfig/cluster_info.go:109-139 | in date exactly when more than a fifth of the lifetime (or the default threshold) is left |
| BootstrapCache.BuildBootstrapKubeconfigData | pkg/controller/importconfig/cluster_info.go:141-232 | the step-by-step code returns the kubeconfig and timestamps that the rows below pin down, or fails |
| BootstrapCache.CacheRefinesRebuild | pkg/controller/importconfig/cluster_info.go:141-232 | whatever is stored, the result parses like a fresh kubeconfig around the chosen token, and the timestamps are that token's |
| BootstrapCache.ReusedExactly | pkg/controller/importconfig/cluster_info.go:165-231 | a stored token that is in date and, without an expiration, held by a secret of the service account whose first holder is not invalid comes back with its timestamps; otherwise the result is that of an empty store |
| BootstrapCache.UnexpiringTokenIsHeld | pkg/controller/importconfig/cluster_info.go:175-215 | when requested tokens expire, a result that does not carries a token that a secret of the service account holds and that is not invalid; the first such secret is not invalid either, unless two hold the token and it was issued anew from the later one |
| BootstrapCache.StoredTokenComesBackExactly | pkg/controller/importconfig/cluster_info.go:175-215 | a stored token without an expiration is in the result if and only if such a secret holds it |
| BootstrapCache.RequirementsDelivered | pkg/bootstrap/bootstrapkubeconfig.go:98-125 | for every klusterlet config the result says exactly what the config requires |
| BootstrapCache.StoredComesBack | pkg/bootstrap/render.go:518-558 | what is printed into the import secret is what is read out of it |
| BootstrapCache.RebuildDoesNotChurn | pkg/controller/importconfig/cluster_info.go:170-231 | storing and rebuilding under the same requirements with a good token returns identical bytes and timestamps |
| BootstrapCache.NothingToReuse | pkg/controller/importconfig/cluster_info.go:44-46 | without a secret of that name a new token is obtained every time |
| BootstrapCache.RefusedForGood | pkg/controller/importconfig/cluster_info.go:175-200 | a refused token stays refused while the secrets are unchanged |
| BootstrapCache.StoredIsLastBuilt | pkg/controller/importconfig/cluster_info.go:244-334 | in every run, from any secret, the stored secret is what the last successful reconcile built |
| BootstrapCache.StoredTokenNeverExpires | pkg/controller/importconfig/cluster_info.go:109-139 | in every run a stored expiring token is unexpired until a fifth of its lifetime after the last success |
| ImportCondition.Import | pkg/helpers/autoimport.go:128-238 | never reports success itself; reports resources applied exactly when it touched the spoke without an error |
| ImportFinality.ImportTells | pkg/helpers/autoimport.go:128-238 | an import touches the spoke exactly when the condition is known and past waiting, works, client and import secret are there; which failures are reported as failed and which as still importing |
| ImportCondition.ImportHub.UpdateCondition | pkg/helpers/helpers.go:324-348 | writes the condition unless it is there already |
| ImportCondition.ImportHub.UpdateClusterURL | pkg/controller/autoimport/apiserverurl.go:16-44 | adds the trimmed URL unless one equal up to a slash is there; conflicts when the cluster changed |
| ImportCondition.ImportHub.ReconcileAutoImport | pkg/controller/autoimport/autoimport_controller.go:73-200 | the new state is AutoImport of the old one; when it touches the spoke and when it deletes the secret is said below |
| ImportCondition.ImportHub.FinishImport | pkg/controller/autoimport/autoimport_controller.go:176-197 | ROSA cleanup, URL, secret, in this order |
| ImportCondition.ImportHub.ReconcileSelfManaged | pkg/controller/selfmanagedcluster/selfmanagedcluster_controller.go:71-145 | the new state is SelfManaged of the old one; SpokeTouchedExactly says when it imports |
| ImportCondition.ImportHub.ReconcileClusterDeployment | pkg/controller/clusterdeployment/clusterdeployment_controller.go:72-191 | the new state is ClusterDeployment of the old one; SpokeTouchedExactly says when it imports |
| ImportCondition.ImportHub.ReconcileImportStatus | pkg/controller/importstatus/importstatus_controller.go:55-131 | the new state is ImportStatus of the old one; ReportedExactly says what it reports |
| ImportFinality.SpokeTouchedExactly | pkg/controller/clusterdeployment/clusterdeployment_controller.go:72-191 | each importing controller touches the spoke exactly when its guards pass and the import gets that far: by a secret that suffices for a client, by the label without a secret, or by a finished, claimed deployment without a secret |
| ImportFinality.ReportedExactly | pkg/controller/importstatus/importstatus_controller.go:55-131 | the status controller reports success exactly when the condition is known, the works are available and its writes succeed; only then a requested import is marked completed |
| ImportFinality.SuccessIsFinal | pkg/controller/autoimport/autoimport_controller.go:105-119 | under ImportOnly, not hosted, unrequested, undeleted: no run applies anything, changes the status or the URLs, whatever users do to secret and annotations |
| ImportFinality.FinalExactlyWhenBarred | pkg/controller/selfmanagedcluster/selfmanagedcluster_controller.go:111-125 | success is final in all runs of the controllers if and only if auto-import is disabled, or ImportOnly without a request, or no secret, label or deployment to import by |
| ImportFinality.SyncAlternates | pkg/controller/importstatus/importstatus_controller.go:85-130 | under ImportAndSync, with the works available and the apply failing, the status can flip at every move of arbitrarily long runs |
| ImportFinality.DisabledLeavesSpokeAlone | pkg/controller/autoimport/autoimport_controller.go:97-103 | while disabled no run touches the spoke, the URLs, the ROSA getters or the secret |
| ImportFinality.SecretDeletedOnlyWhenDone | pkg/controller/autoimport/autoimport_controller.go:156-197 | in every run a reconcile deletes the secret only without keep annotation, after its own successful apply and ROSA cleanup, with the URL recorded |
| ImportFinality.SecretDeletedExactly | pkg/controller/autoimport/autoimport_controller.go:73-200 | for every kind of secret: it is deleted if and only if the guards pass, the apply reaches the spoke without an error, cleanup and URL go through without a conflicting write, and there is no keep annotation |
| ImportFinality.FinishedImportRecords | pkg/controller/autoimport/apiserverurl.go:16-80 | a finished import has recorded the server its secret names, once up to a slash, and holds no ROSA getter |
| ImportFinality.RepeatedAdds | pkg/controller/autoimport/apiserverurl.go:27-44 | how many entries n additions of one URL leave: at most one, or n if it ends in two slashes |
| ImportFinality.RepeatedImports | pkg/controller/autoimport/autoimport_controller.go:156-197 | n auto-imports of a kept secret leave that many entries |
| ImportFinality.URLsRecordedOnce | pkg/controller/autoimport/apiserverurl.go:16-44 | over every run the recorded URLs stay distinct up to a slash and none is lost |
| ImportRaces.FinalExactlyWhenClosed | pkg/helpers/helpers.go:324-348 | with cached reads and conflicting writes as separate steps, success is final in all runs if and only if no import is under way, no report has seen a missing condition, and no state the cache may show lets an import start or lacks the condition |
| ImportRaces.OpenIsUndone | pkg/controller/autoimport/autoimport_controller.go:105-172 | otherwise some run takes the success back |
| ImportRaces.ClosedOnceShown | pkg/controller/autoimport/autoimport_controller.go:105-119 | under ImportOnly without a request that holds once the cache shows the success and nothing is under way |
| KlusterletWorks.BuildManifestConfigs | pkg/controller/manifestwork/manifestwork_controller.go:263-303 | nothing unless disabled, else one read-only config per readable manifest |
| KlusterletWorks.ListsEqual | pkg/helpers/helpers.go:519-543 | the element-wise comparison is equality |
| KlusterletWorks.CreateManifestWorks | pkg/controller/manifestwork/manifestwork_controller.go:150-238 | the CRD and klusterlet works an import secret renders to |
| KlusterletWorks.WorkHub.ApplyManifestWork | pkg/helpers/helpers.go:676-714 | creates, or updates unless metadata, manifests and configs match |
| KlusterletWorks.WorkHub.ApplyResources | pkg/helpers/helpers.go:547-626 | applies each work and errs if one failed |
| KlusterletWorks.WorkHub.LockListed | pkg/controller/manifestwork/manifestwork_controller.go:105-120 | updates the configs of the listed works, stopping at a failed or conflicting write |
| KlusterletWorks.WorkHub.Reconcile | pkg/controller/manifestwork/manifestwork_controller.go:68-148 | the new hub is Next of the old one; ReconcileDelivers, ReconcileRests and OneReconcileLocks say what that is |
| DisabledImport.RenderedExactly | pkg/controller/manifestwork/manifestwork_controller.go:150-238 | the klusterlet work holds the split documents, the CRD work the CRDs if there are any; exactly one goes last, the CRD work if there is one, and exactly the other orphans its resources |
| DisabledImport.EachIsApplied | pkg/helpers/helpers.go:547-626 | of distinct works each is applied on its own: a failing write leaves its work alone and spares no other |
| DisabledImport.ReconcileDelivers | pkg/controller/manifestwork/manifestwork_controller.go:68-148 | after a reconcile that renders, each rendered work whose writes succeed has label, manifests, configs and annotation as required; all other works are as they were |
| DisabledImport.ReconcileRests | pkg/controller/manifestwork/manifestwork_controller.go:68-148 | nothing is written for a cluster that is not live, after a failed listing or finalizer patch, or without a secret to render |
| DisabledImport.LockingStops | pkg/controller/manifestwork/manifestwork_controller.go:105-120 | a refused write ends the locking; what comes behind it is left alone |
| DisabledImport.OneConfigEach | pkg/controller/manifestwork/manifestwork_controller.go:263-303 | the configs are those of the readable manifests, one each, in order, all read-only |
| DisabledImport.ManifestsFrozenWhileDisabled | pkg/controller/manifestwork/manifestwork_controller.go:105-120 | while disabled no run changes anything of the works but configs, however stale the non-empty lists |
| DisabledImport.FrozenExactlyWhenWorksAreSeen | pkg/controller/manifestwork/manifestwork_controller.go:93-148 | manifests are kept for every import secret if and only if the list is not empty or no labelled work has a rendered name |
| DisabledImport.OneReconcileLocks | pkg/controller/manifestwork/manifestwork_controller.go:105-120 | one error-free reconcile gives every labelled work its read-only configs and changes nothing else |
| DisabledImport.SecondReconcileWritesNothing | pkg/helpers/helpers.go:690-702 | a second error-free reconcile of the same inputs writes nothing, disabled or not |
| DisabledImport.EnablingClearsConfigs | pkg/controller/manifestwork/manifestwork_controller.go:127-148 | after removal of the annotation the rendered works lose their configs; exactly the others keep theirs |
| FanOut.Indexer.Put | pkg/controller/importconfig/klusterletconfighandler.go:68-79 | an add or update keeps the index equal to a scan of the store |
| FanOut.Indexer.Delete | pkg/controller/importconfig/klusterletconfighandler.go:68-79 | so does a delete |
| FanOut.Indexer.ByIndex | pkg/controller/importconfig/klusterletconfighandler.go:51-55 | a lookup finds what a scan of the store finds |
| FanOut.IndexedExactlyWhenRead | pkg/helpers/klusterletconfig.go:13-33 | the index names exactly the configs on which a cluster's merged config depends |
| FanOut.DependsExactly | pkg/helpers/klusterletconfig.go:13-33 | a merge depends on the global config and on the one its annotation names, and on no other |
| FanOut.OthersAreUnaffected | pkg/helpers/klusterletconfig.go:13-33 | a cluster that is not enqueued merges the same inputs before and after the change |
| FanOut.EnqueueForConfig | pkg/controller/importconfig/klusterletconfighandler.go:49-62 | enqueues exactly the clusters whose merged config depends on the config |
| FanOut.EnqueueForSecret | pkg/controller/importconfig/klusterletconfighandler.go:117-159 | enqueues exactly the clusters that read some config whose local hub secrets list the secret |
| FanOut.EnqueueForConfigMap | pkg/controller/importconfig/klusterletconfighandler.go:197-244 | enqueues exactly the clusters that read some config trusting the configmap |
| FanOut.KeysCollideExactlyOnSlashes | pkg/controller/importconfig/klusterletconfighandler.go:242-244 | a namespace's keys are unambiguous if and only if it has no slash |
| ImageOverrides.ChangesExactly | pkg/bootstrap/render.go:645-663 | which registries change an image, told from registry and image alone |
| ImageOverrides.OverrideUndone | pkg/helpers/imageregistry/client.go:103-121 | swapping source and mirror takes an override back |
| ImageOverrides.LastOverride | pkg/helpers/imageregistry/client.go:83-101 | the loop obeys the last registry that changes the image |
| ImageOverrides.OverrideImageByAnnotation | pkg/helpers/imageregistry/client.go:140-168 | the same for the annotation; an invalid annotation is an error |
| ImageOverrides.AgentImages | pkg/bootstrap/render.go:609-642 | each agent image is picked by the config's registries, else the annotation; it fails exactly when a default is missing or the annotation is invalid |
| ImageOverrides.TLSProfileSyncImage | pkg/bootstrap/sidecar.go:39-60 | the sidecar obeys the first registry that changes the image |
| ImageOverrides.LoopsAgree | pkg/bootstrap/sidecar.go:39-60 | the loops agree whenever at most one registry changes the image |
| ImageOverrides.SamePlaceExactly | pkg/bootstrap/render.go:645-663 | two registries that change an image give one result if and only if the longer source, cut by the shorter, makes one mirror out of the other |
| ImageOverrides.LoopsAgreeExactly | pkg/bootstrap/sidecar.go:39-60 | for every list the loops agree if and only if the sources and mirrors of the first and the last registry that concern the image fit in this way |
| ImageOverrides.ConfigAndAnnotationAgree | pkg/bootstrap/render.go:623-638 | the klusterlet config and the annotation choose the same image from the same registries |
| ImageOverrides.SidecarDiffers | pkg/bootstrap/sidecar.go:47-55 | two mirrors of one source always set sidecar and agents apart |

## Left out

- Texts of conditions and events, the detaching condition, requeue delays and logging.
- Helm charts, Go templates, YAML and JSON decoding: parameters, or taken as the identity where only equality matters; the panics of MustCreateObject on undecodable manifests.
- X.509 parsing, TLS dialling, live CA detection, Infrastructure and node lookups: inputs.
- ROSA clients, flightctl, agent registration, CSR approval, the TLS profile table, node selectors and tolerations: remote calls or easy members.
- Managers, informers, watches, predicates, leader election: only the reconciles they trigger; the cache of the detach protocol is explicit, and the informer lists of the manifestwork controller are arbitrary or earlier readings.
- UpdateManagedClusterBootstrapSecret and its fall-through to the last object.
- Hosted import besides its protocol steps: the text of the hosting works, the external kubeconfig check.
- The clusterdeployment and managedcluster controllers' other annotations and labels; the hosting cluster as a managed cluster of its own.
- Owner references of applied works, and their failure.
- The priority class, service account and deployment kinds of ApplyResources.
- Import: the backup-restore form of the apply and the split of apply errors into more than internal and other are not modelled.
- DetachSafety.FinalizersDropOnlyWhenClean: from a settled moment on, because a late patch may reorder the other finalizers; that the cluster is clean has its exact condition in CleanReleaseExactlyWhenNoLateWork.
- TearDownOrder.HostingOrderExactlyWhenNoLateWork: not stated for moments at which a cleanup is under way.
- TearDownOrder.OrderlyForceIsLastExactly: not stated for moments at which a cleanup is under way.
- FanOut.EnqueueForConfigMap: namespaces are assumed slash-free, as Kubernetes names are; KeysCollideExactlyOnSlashes shows why.
- WorkAppliers.ReconcileWorks: does not render the works from the import secret; that is the subject of KlusterletWorks.
