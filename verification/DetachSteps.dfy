/** What a step of the detach protocol can do to each part of the state, and what holds in every run. */
module DetachSteps {
  import opened Common
  import opened Kube
  import opened DetachProtocol

  // ---- the cluster ----

  /** `v` is an earlier state of the same deleting cluster. */
  predicate Precedes(v: Cluster, c: Cluster) {
    SameMode(v, c) && forall f | f in c.obj.finalizers :: f in v.obj.finalizers
  }

  /** What a step can do to the cluster: once it is being deleted it only shrinks. */
  predicate ClusterMoves(c: Option<Cluster>, c': Option<Cluster>) {
    && (c.None? ==> c'.None?)
    && (!IsLive(c) ==> !IsLive(c'))
    && (!IsLive(c) && c'.Some? ==> Precedes(c.value, c'.value))
    && (c' == c || (c'.Some? && !IsLive(c') ==> c'.value.obj.finalizers != []))
  }

  lemma PatchMovesCluster(h: Hub, h': Hub, plan: seq<Finalizer>)
    requires PatchesFinalizers(h, h', plan)
    ensures ClusterMoves(h.cluster, h'.cluster)
  {
  }

  lemma EnvironmentMovesCluster(h: Hub, h': Hub, gone: set<Finalizer>)
    requires EnvMoves(h, h', gone)
    ensures ClusterMoves(h.cluster, h'.cluster)
  {
  }

  lemma ActMovesCluster(e: Act, h: Hub, c: Cleanup, h': Hub)
    requires CleanupActs(e, h, c, h')
    ensures ClusterMoves(h.cluster, h'.cluster) && (!e.DropFinalizers? ==> h'.cluster == h.cluster)
  {
    if e.DropFinalizers? {
      PatchMovesCluster(h, h', Without(c.seen.obj.finalizers, OwnFinalizers));
    }
  }

  lemma ApplierMovesCluster(e: ApplierEvent, h: Hub, k: Cache, a: Applier, h': Hub, a': Applier)
    requires ApplierMoves(e, h, k, a, h', a')
    ensures ClusterMoves(h.cluster, h'.cluster) && (!e.ApplierPatch? ==> h'.cluster == h.cluster)
  {
    if e.ApplierPatch? {
      PatchMovesCluster(h, h', a.plan);
    }
  }

  lemma MetaMovesCluster(e: MetaEvent, h: Hub, k: Cache, p: Option<seq<Finalizer>>, h': Hub, p': Option<seq<Finalizer>>)
    requires MetaMoves(e, h, k, p, h', p')
    ensures ClusterMoves(h.cluster, h'.cluster)
  {
    if h' != h {
      PatchMovesCluster(h, h', p.value);
    }
  }

  lemma StepMovesCluster(w: World, w': World)
    requires Moves(w, w')
    ensures ClusterMoves(w.hub.cluster, w'.hub.cluster)
  {
    match w'.last {
      case Environment(gone) => EnvironmentMovesCluster(w.hub, w'.hub, gone);
      case Acts(e) => ActMovesCluster(e, w.hub, w.cleanup, w'.hub);
      case Applies(e) => ApplierMovesCluster(e, w.hub, w.cache, w.applier, w'.hub, w'.applier);
      case Tags(e) => MetaMovesCluster(e, w.hub, w.cache, w.metaPlan, w'.hub, w'.metaPlan);
      case _ =>
    }
  }

  /** The steps that write the cluster. */
  predicate WritesCluster(e: Event) {
    e.Environment? || e.UserDelete? || e == Acts(DropFinalizers) || e == Applies(ApplierPatch) || e == Tags(MetaPatch)
  }

  lemma OtherStepsKeepCluster(w: World, w': World)
    requires Moves(w, w') && !WritesCluster(w'.last)
    ensures w'.hub.cluster == w.hub.cluster
  {
    match w'.last {
      case Acts(e) => ActMovesCluster(e, w.hub, w.cleanup, w'.hub);
      case Applies(e) => ApplierMovesCluster(e, w.hub, w.cache, w.applier, w'.hub, w'.applier);
      case _ =>
    }
  }

  // ---- the resources ----

  /** Addons and binding only go, and a closed namespace stays closed. */
  predicate RestShrinks(h: Hub, h': Hub) {
    && h'.name == h.name
    && (forall n | n in h'.addons :: n in h.addons)
    && (h.binding.None? ==> h'.binding.None?)
    && (Open(h') ==> Open(h))
  }

  predicate HubShrinks(h: Hub, h': Hub) {
    RestShrinks(h, h') && WorksShrink(h.works, h'.works)
  }

  lemma ActShrinks(e: Act, h: Hub, c: Cleanup, h': Hub)
    requires CleanupActs(e, h, c, h')
    ensures HubShrinks(h, h')
  {
  }

  lemma ApplierShrinks(e: ApplierEvent, h: Hub, k: Cache, a: Applier, h': Hub, a': Applier)
    requires ApplierMoves(e, h, k, a, h', a')
    ensures RestShrinks(h, h') && (!e.ApplierCreate? ==> WorksShrink(h.works, h'.works))
  {
  }

  lemma StepShrinks(w: World, w': World)
    requires Moves(w, w') && !w.hub.Live()
    ensures RestShrinks(w.hub, w'.hub)
    ensures !(w'.last.Applies? && w'.last.applier.ApplierCreate?) ==> HubShrinks(w.hub, w'.hub)
  {
    match w'.last {
      case Acts(e) => ActShrinks(e, w.hub, w.cleanup, w'.hub);
      case Applies(e) => ApplierShrinks(e, w.hub, w.cache, w.applier, w'.hub, w'.applier);
      case _ =>
    }
  }

  // ---- what the controllers remember ----

  lemma OthersLeaveCleanup(w: World, w': World)
    requires Moves(w, w') && !w'.last.Looks?
    ensures w'.cleanup == w.cleanup || w'.cleanup.Idle?
    ensures !w'.last.CleanupEnd? ==> w'.cleanup == w.cleanup
  {
  }

  lemma LookLeavesRest(w: World, w': World)
    requires Moves(w, w') && w'.last.Looks?
    ensures w'.hub == w.hub && CleanupLooks(w'.last.look, w.hub, w.cache, w.cleanup, w'.cleanup)
  {
  }

  lemma OthersLeaveAdders(w: World, w': World)
    requires Moves(w, w')
    ensures !w'.last.Applies? ==> w'.applier == w.applier
    ensures !w'.last.Tags? ==> w'.metaPlan == w.metaPlan
    ensures w'.last.Applies? ==> ApplierMoves(w'.last.applier, w.hub, w.cache, w.applier, w'.hub, w'.applier)
    ensures w'.last.Tags? ==> MetaMoves(w'.last.meta, w.hub, w.cache, w.metaPlan, w'.hub, w'.metaPlan)
  {
  }

  lemma OthersLeaveNsControl(w: World, w': World)
    requires Moves(w, w')
    ensures !w'.last.Deletes? ==> w'.nsctl == w.nsctl
    ensures w'.last.Deletes? ==> NsMoves(w'.last.ns, w.hub, w.cache, w.nsctl, w'.hub, w'.nsctl)
  {
  }

  lemma CompletedStays(w: World, w': World)
    requires Moves(w, w')
    ensures w'.completed <==> w.completed || w'.last == Acts(DropFinalizers)
  {
  }

  lemma ActIsMeant(w: World, w': World)
    requires Moves(w, w') && w'.last.Acts?
    ensures w'.cleanup == w.cleanup && CleanupActs(w'.last.act, w.hub, w.cleanup, w'.hub)
  {
  }

  // ---- the cache ----

  lemma StepFeedsCache(w: World, w': World)
    requires Feeds(w, w') && (w'.last.CacheSync? ==> w'.hub == w.hub) && Follows(w.cache, w.hub)
    ensures Follows(w'.cache, w'.hub)
    ensures forall v | v in w'.cache.clusters :: v in w.cache.clusters || v == w'.hub.cluster
    ensures forall v | v in w'.cache.addons :: v in w.cache.addons || v == w'.hub.addons
    ensures forall v | v in w'.cache.bindings :: v in w.cache.bindings || v == w'.hub.binding
  {
  }

  lemma SyncLeavesHub(w: World, w': World)
    requires Moves(w, w') && w'.last.CacheSync?
    ensures w'.hub == w.hub
  {
  }

  /** A cache that follows the server takes nothing from a step that leaves the server alone. */
  lemma NothingToWatch(k: Cache, h: Hub)
    requires Follows(k, h)
    ensures Watched(k, h) == k && Syncs(k, UpToDate(h))
  {
  }

  /** Before the deletion all states shown are live ones, and none is shown after one that is not. */
  predicate LiveFirst(clusters: seq<Option<Cluster>>) {
    forall i, j | 0 <= i < j < |clusters| && IsLive(clusters[j]) :: IsLive(clusters[i])
  }

  /**
   The cache never shows a state the cluster has not had: before the deletion only
   live ones, and after it no list of finalizers smaller than the current one. A
   deleted cluster without finalizers is gone.
   */
  predicate Trails(h: Hub, k: Cache) {
    && Follows(k, h) && LiveFirst(k.clusters)
    && (h.cluster.Some? && !h.Live() ==> h.cluster.value.obj.finalizers != [])
    && (h.cluster.Some? && !h.Live() ==> forall v | v in k.clusters :: v.Some? && (!IsLive(v) ==> Precedes(v.value, h.cluster.value)))
  }

  lemma FedLiveFirst(clusters: seq<Option<Cluster>>, c: Option<Cluster>)
    requires clusters != [] && LiveFirst(clusters) && (IsLive(c) ==> IsLive(clusters[|clusters| - 1]))
    ensures LiveFirst(Fed(clusters, c))
  {
  }

  lemma StepLiveFirst(w: World, w': World)
    requires Step(w, w') && Follows(w.cache, w.hub) && LiveFirst(w.cache.clusters)
    ensures LiveFirst(w'.cache.clusters)
  {
    StepFeedsCache(w, w');
    StepMovesCluster(w, w');
    FedLiveFirst(w.cache.clusters, w'.hub.cluster);
  }

  lemma TrailsKept(h: Hub, k: Cache, h': Hub, k': Cache)
    requires Trails(h, k) && Follows(k', h') && LiveFirst(k'.clusters) && ClusterMoves(h.cluster, h'.cluster)
    requires forall v | v in k'.clusters :: v in k.clusters || v == h'.cluster
    ensures Trails(h', k')
  {
    if h'.cluster.Some? && !h'.Live() && h.Live() {
      forall v | v in k.clusters ensures IsLive(v) {
        var i :| 0 <= i < |k.clusters| && k.clusters[i] == v;
      }
    }
  }

  lemma StepTrails(w: World, w': World)
    requires Trails(w.hub, w.cache) && Step(w, w')
    ensures Trails(w'.hub, w'.cache)
  {
    StepMovesCluster(w, w');
    StepFeedsCache(w, w');
    StepLiveFirst(w, w');
    TrailsKept(w.hub, w.cache, w'.hub, w'.cache);
  }

  // ---- runs ----

  /** What every step keeps holds from then on. */
  lemma {:induction false} Induction(run: seq<World>, e: nat, i: nat, P: World -> bool, R: (World, World) -> bool)
    requires e <= i < |run| && P(run[e])
    requires forall k | 0 < k < |run| :: R(run[k - 1], run[k])
    requires forall w, w' :: P(w) && R(w, w') ==> P(w')
    ensures P(run[i])
  {
    if e < i {
      Induction(run, e, i - 1, P, R);
    }
  }

  lemma RunSteps(run: seq<World>)
    requires IsRun(run)
    ensures forall k | 0 < k < |run| :: Step(run[k - 1], run[k])
  {
    forall k | 0 < k < |run| ensures Step(run[k - 1], run[k]) {
      assert StepAt(run, k);
    }
  }

  lemma TrailsThroughout(run: seq<World>, i: nat)
    requires IsRun(run) && i < |run|
    ensures Trails(run[i].hub, run[i].cache)
  {
    var P := (w: World) => Trails(w.hub, w.cache);
    forall w, w' | P(w) && Step(w, w') ensures P(w') {
      StepTrails(w, w');
    }
    RunSteps(run);
    Induction(run, 0, i, P, Step);
  }

  /** Before the deletion the cleanup controller does nothing. */
  predicate Untouched(w: World) {
    Trails(w.hub, w.cache) && (w.hub.Live() ==> w.cleanup.Idle? && !w.completed)
  }

  lemma ShownLive(h: Hub, k: Cache)
    requires Trails(h, k) && h.Live()
    ensures forall v | v in k.clusters :: IsLive(v)
  {
    forall v | v in k.clusters ensures IsLive(v) {
      var i :| 0 <= i < |k.clusters| && k.clusters[i] == v;
    }
  }

  lemma StepUntouched(w: World, w': World)
    requires Untouched(w) && Moves(w, w') && w.hub.Live()
    ensures w'.cleanup.Idle? && !w'.completed
  {
    ShownLive(w.hub, w.cache);
    assert w.cache.clusters[0] in w.cache.clusters;
  }

  lemma UntouchedThroughout(run: seq<World>, i: nat)
    requires IsRun(run) && i < |run|
    ensures Untouched(run[i])
  {
    forall w, w' | Untouched(w) && Step(w, w') ensures Untouched(w') {
      StepTrails(w, w');
      StepMovesCluster(w, w');
      if w.hub.Live() {
        StepUntouched(w, w');
      }
    }
    RunSteps(run);
    Induction(run, 0, i, Untouched, Step);
  }
}
