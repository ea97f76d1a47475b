/**
 Safety of the tear-down over whole runs: once the deletion has settled, what the
 cleanup controller has seen stays true until it acts on it, whatever the others do
 in between and however far the cache falls behind again.
 */
module DetachSafety {
  import opened Common
  import opened Kube
  import opened DetachProtocol
  import opened DetachSteps
  import opened DetachRuns

  /** What the cleanup controller has read in this reconcile still holds. */
  predicate StillTrue(h: Hub, c: Cleanup)
    requires c.Active?
  {
    && (c.noWorks ==> h.WorksWithin({}))
    && (c.crdReady ==> h.WorksWithin({KlusterletCrds}))
    && (c.noAddons ==> h.addons == map[])
    && (c.noBinding ==> h.binding.None?)
    && (c.noHosting ==> h.HostingWithin(c.seen.hosting, {}))
    && (c.hostingSeen.Some? ==> h.HostingWithin(c.seen.hosting, c.hostingSeen.value))
    && (h.cluster.Some? ==> Shrank(c.seen, h.cluster.value))
  }

  /** The same cluster, with the same finalizers in the same order but for those gone. */
  predicate Shrank(from: Cluster, to: Cluster) {
    SameMode(from, to) && Shrunk(from.obj.finalizers, to.obj.finalizers)
  }

  /** No cached reading is from before the deletion, and none misses what is still there. */
  predicate CacheHolds(h: Hub, k: Cache) {
    && (forall v | v in k.clusters :: !IsLive(v))
    && (h.cluster.Some? ==> forall v | v in k.clusters :: v.Some? && Shrank(v.value, h.cluster.value))
    && (map[] in k.addons ==> h.addons == map[])
    && (None in k.bindings ==> h.binding.None?)
  }

  /**
   The deletion has settled: nobody who adds things acts on a reading from before
   it, no such reading is left in the cache, and the cleanup is not misled.
   */
  predicate Settled(w: World) {
    && !w.hub.Live()
    && w.applier.Resting? && w.metaPlan.None?
    && Follows(w.cache, w.hub) && CacheHolds(w.hub, w.cache)
    && (w.cleanup.Active? ==> StillTrue(w.hub, w.cleanup))
  }

  /** A cache that has caught up while the controllers are between reconciles is enough. */
  lemma SettledWhenCaughtUp(w: World)
    requires !w.hub.Live() && w.applier.Resting? && w.metaPlan.None? && w.cleanup.Idle?
    requires w.cache == UpToDate(w.hub)
    ensures Settled(w)
  {
    if w.hub.cluster.Some? {
      ShrunkSelf(w.hub.cluster.value.obj.finalizers);
    }
  }

  // ---- what survives a move ----

  /** The cluster lost the finalizers `gone`, or all, or nothing. */
  predicate Loses(c: Option<Cluster>, c': Option<Cluster>, gone: set<Finalizer>) {
    && !IsLive(c')
    && (c'.Some? ==> c.Some? && SameMode(c.value, c'.value)
                     && c'.value.obj.finalizers == Without(c.value.obj.finalizers, gone))
  }

  /** The hub only lost things, the cluster the finalizers `gone`. */
  predicate OnlyLoses(h: Hub, h': Hub, gone: set<Finalizer>) {
    && h'.name == h.name
    && Loses(h.cluster, h'.cluster, gone)
    && WorksShrink(h.works, h'.works)
    && (forall n | n in h'.addons :: n in h.addons)
    && (h.binding.None? ==> h'.binding.None?)
  }

  /** Facts about absence survive a hub that only loses things. */
  lemma LosingKeeps(h: Hub, h': Hub, gone: set<Finalizer>, c: Cleanup)
    requires c.Active? && StillTrue(h, c) && OnlyLoses(h, h', gone)
    ensures StillTrue(h', c)
  {
    forall k | k in h'.works && h'.IsHostingWork(c.seen.hosting, k)
      ensures h.IsHostingWork(c.seen.hosting, k)
    {
    }
    if c.noAddons {
      assert h'.addons == map[];
    }
    if h'.cluster.Some? {
      ShrunkStep(c.seen.obj.finalizers, h.cluster.value.obj.finalizers, gone);
    }
  }

  lemma LosingKeepsCache(h: Hub, h': Hub, gone: set<Finalizer>, k: Cache, k': Cache)
    requires CacheHolds(h, k) && OnlyLoses(h, h', gone)
    requires forall v | v in k'.clusters :: v in k.clusters || v == h'.cluster
    requires forall v | v in k'.addons :: v in k.addons || v == h'.addons
    requires forall v | v in k'.bindings :: v in k.bindings || v == h'.binding
    ensures CacheHolds(h', k')
  {
    if h'.cluster.Some? {
      forall v | v in k'.clusters ensures v.Some? && Shrank(v.value, h'.cluster.value) {
        if v in k.clusters {
          ShrunkStep(v.value.obj.finalizers, h.cluster.value.obj.finalizers, gone);
        } else {
          ShrunkSelf(h'.cluster.value.obj.finalizers);
        }
      }
    }
    if h.addons == map[] {
      assert h'.addons == map[];
    }
  }

  /** What a settled step takes from the cluster's finalizers. */
  function Taken(e: Event): (gone: set<Finalizer>)
  {
    if e.Environment? then e.gone else if e == Acts(DropFinalizers) then OwnFinalizers else {}
  }

  lemma DropLoses(h: Hub, c: Cleanup, h': Hub)
    requires c.Active? && StillTrue(h, c) && !h.Live() && CleanupActs(DropFinalizers, h, c, h')
    ensures OnlyLoses(h, h', OwnFinalizers)
  {
    StaleRemovalIsExact(c.seen.obj.finalizers, h.cluster.value.obj.finalizers, OwnFinalizers);
  }

  /** Without a live reading nobody starts to add things. */
  lemma AddersStayOut(w: World, w': World)
    requires w.applier.Resting? && w.metaPlan.None? && (forall v | v in w.cache.clusters :: !IsLive(v)) && Moves(w, w')
    ensures w'.applier.Resting? && w'.metaPlan.None? && (w'.last.Applies? || w'.last.Tags? ==> w'.hub == w.hub)
  {
    OthersLeaveAdders(w, w');
    if w.cache.clusters != [] {
      assert w.cache.clusters[0] in w.cache.clusters;
    }
  }

  lemma KeepsCluster(h: Hub, h': Hub)
    requires !h.Live() && h'.cluster == h.cluster && HubShrinks(h, h')
    ensures OnlyLoses(h, h', {})
  {
    if h.cluster.Some? {
      WithoutLength(h.cluster.value.obj.finalizers, {});
    }
  }

  lemma EnvironmentLoses(h: Hub, h': Hub, gone: set<Finalizer>)
    requires !h.Live() && EnvMoves(h, h', gone)
    ensures OnlyLoses(h, h', gone)
  {
  }

  lemma SettledStepOnlyLoses(w: World, w': World)
    requires Settled(w) && Moves(w, w')
    ensures OnlyLoses(w.hub, w'.hub, Taken(w'.last))
    ensures w'.applier.Resting? && w'.metaPlan.None?
  {
    AddersStayOut(w, w');
    if w'.last.Environment? {
      EnvironmentLoses(w.hub, w'.hub, w'.last.gone);
    } else if w'.last == Acts(DropFinalizers) {
      DropLoses(w.hub, w.cleanup, w'.hub);
    } else if w'.last.Applies? || w'.last.Tags? {
      KeepsCluster(w.hub, w'.hub);
    } else {
      OtherStepsKeepCluster(w, w');
      StepShrinks(w, w');
      KeepsCluster(w.hub, w'.hub);
    }
  }

  lemma LookIsTrue(e: Look, h: Hub, k: Cache, c: Cleanup, c': Cleanup)
    requires CleanupLooks(e, h, k, c, c') && CacheHolds(h, k) && (c.Active? ==> StillTrue(h, c)) && c'.Active?
    ensures StillTrue(h, c')
  {
    match e {
      case CleanupBegin => assert k.clusters[0] in k.clusters;
      case SawAddons => assert k.addons[0] in k.addons;
      case SawBinding => assert k.bindings[0] in k.bindings;
      case _ =>
    }
  }

  lemma StepKeepsReadings(w: World, w': World)
    requires Settled(w) && Moves(w, w') && w'.cleanup.Active?
    ensures StillTrue(w'.hub, w'.cleanup)
  {
    if w'.last.Looks? {
      LookLeavesRest(w, w');
      LookIsTrue(w'.last.look, w.hub, w.cache, w.cleanup, w'.cleanup);
    } else {
      OthersLeaveCleanup(w, w');
      SettledStepOnlyLoses(w, w');
      LosingKeeps(w.hub, w'.hub, Taken(w'.last), w.cleanup);
    }
  }

  lemma StepKeepsSettled(w: World, w': World)
    requires Settled(w) && Moves(w, w') && Feeds(w, w')
    ensures Settled(w')
  {
    SettledStepOnlyLoses(w, w');
    if w'.last.CacheSync? {
      SyncLeavesHub(w, w');
    }
    StepFeedsCache(w, w');
    LosingKeepsCache(w.hub, w'.hub, Taken(w'.last), w.cache, w'.cache);
    if w'.cleanup.Active? {
      StepKeepsReadings(w, w');
    }
  }

  lemma SettledFromThenOn(run: seq<World>, e: nat, i: nat)
    requires IsRun(run) && e <= i < |run| && Settled(run[e])
    ensures Settled(run[i])
  {
    forall w, w' | Settled(w) && Step(w, w') ensures Settled(w') {
      StepKeepsSettled(w, w');
    }
    RunSteps(run);
    Induction(run, e, i, Settled, Step);
  }

  lemma SettledDrop(w: World, w': World)
    requires Settled(w) && Moves(w, w') && w'.last == Acts(DropFinalizers)
    ensures w.hub.cluster.Some?
    ensures var c := w.hub.cluster.value;
            var left := Without(c.obj.finalizers, OwnFinalizers);
            && w.hub.Clean(c) && w'.hub.Clean(c)
            && (w'.hub.cluster.None? <==> left == [])
            && (w'.hub.cluster.Some? ==> w'.hub.cluster.value.obj == Obj(left, true))
  {
    StaleRemovalIsExact(w.cleanup.seen.obj.finalizers, w.hub.cluster.value.obj.finalizers, OwnFinalizers);
  }

  // ---- the theorems ----

  /**
   In every run, once the deletion has settled, the patch that drops the two
   finalizers finds nothing left of the cluster, and all other finalizers survive
   it in order.
   */
  lemma FinalizersDropOnlyWhenClean(run: seq<World>, e: nat, i: nat)
    requires IsRun(run) && e < i < |run| && Settled(run[e])
    requires run[i].last == Acts(DropFinalizers)
    ensures run[i - 1].hub.cluster.Some?
    ensures var c := run[i - 1].hub.cluster.value;
            var left := Without(c.obj.finalizers, OwnFinalizers);
            && run[i - 1].hub.Clean(c)
            && run[i].hub.Clean(c)
            && (run[i].hub.cluster.None? <==> left == [])
            && (run[i].hub.cluster.Some? ==> run[i].hub.cluster.value.obj == Obj(left, true))
  {
    SettledFromThenOn(run, e, i - 1);
    assert StepAt(run, i);
    SettledDrop(run[i - 1], run[i]);
  }

  /** Every run can settle after the deletion: reconciles in flight end and the cache catches up. */
  lemma SettlingHappens(run: seq<World>) returns (ext: seq<World>)
    requires IsRun(run) && !Last(run).hub.Live()
    ensures IsRun(ext) && run <= ext && Settled(Last(ext)) && Last(ext).hub == Last(run).hub
  {
    ext := EndApplier(run);
    ext := EndMeta(ext);
    ext := EndCleanup(ext);
    ext := Refresh(ext);
    SettledWhenCaughtUp(Last(ext));
  }
}
