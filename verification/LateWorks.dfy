/**
 When a cluster can be released although something of it is left: exactly when a
 controller that acts on a reading from before the deletion may still create a work
 where the cleanup looks, the cache hides addons or the binding from the cleanup, or
 a cleanup under way has already been misled.
 */
module LateWorks {
  import opened Common
  import opened Kube
  import opened DetachProtocol
  import opened DetachSteps
  import opened DetachRuns
  import opened DetachSafety

  /** A work written for `seen` would land where the cleanup of `c` looks. */
  predicate Spoils(h: Hub, c: Cluster, seen: Cluster) {
    if seen.mode.Default? || seen.hosting == h.name then Open(h) else c.OnHosting() && seen.hosting == c.hosting
  }

  /** The reconcile in flight will still reach the point where it applies works, and the cluster survives that. */
  predicate MayStillApply(c: Cluster, a: Applier) {
    || a.Read?
    || a.Applying?
    || (a.Patching? && a.plan != [] && Accepts(c.obj, a.plan))
  }

  /** A reconcile in flight may still write a work where the cleanup looks. */
  predicate WorkInFlight(h: Hub, c: Cluster, a: Applier) {
    MayStillApply(c, a) && Spoils(h, c, a.seen)
  }

  /** A reconcile that starts from the cache may. */
  predicate WorkToCome(h: Hub, c: Cluster, k: Cache) {
    exists v | v in k.clusters :: Starts(v) && Spoils(h, c, v.value)
  }

  /** The cache may still show none of what is there. */
  predicate Hides(h: Hub, k: Cache) {
    || (map[] in k.addons && h.addons != map[])
    || (None in k.bindings && h.binding.Some?)
  }

  predicate CanLitter(w: World) {
    w.hub.cluster.Some? &&
    var c := w.hub.cluster.value;
    WorkInFlight(w.hub, c, w.applier) || WorkToCome(w.hub, c, w.cache) || Hides(w.hub, w.cache)
  }

  // ---- a cleanup under way ----

  predicate IsOwn(h: Hub, k: Key) {
    k.ns == h.name
  }

  predicate IsHosted(h: Hub, c: Cluster, k: Key) {
    c.OnHosting() && h.IsHostingWork(c.hosting, k)
  }

  /** A work of the cluster that every look which could find it has missed. */
  predicate Overlooked(h: Hub, c: Cleanup, k: Key)
    requires c.Active?
  {
    && k in h.works && (IsOwn(h, k) || IsHosted(h, c.seen, k))
    && (IsOwn(h, k) ==> c.noWorks)
    && (IsHosted(h, c.seen, k) ==> c.noHosting)
  }

  /** The reconcile has missed something that is there. */
  predicate Missed(h: Hub, c: Cleanup)
    requires c.Active?
  {
    || (exists k | k in h.works :: Overlooked(h, c, k))
    || (c.noAddons && h.addons != map[])
    || (c.noBinding && h.binding.Some?)
  }

  /** The patch the reconcile would end with is still accepted. */
  predicate MayStillDrop(h: Hub, c: Cleanup) {
    && c.Active? && h.cluster.Some?
    && var left := Without(c.seen.obj.finalizers, OwnFinalizers);
       left != c.seen.obj.finalizers && Accepts(h.cluster.value.obj, left)
  }

  predicate Misled(w: World) {
    MayStillDrop(w.hub, w.cleanup) && Missed(w.hub, w.cleanup)
  }

  /** The cluster the cleanup has read is an earlier state of the deleting one. */
  predicate SeenPrecedes(h: Hub, c: Cleanup) {
    c.Active? ==> !h.Live() && (h.cluster.Some? ==> Precedes(c.seen, h.cluster.value))
  }

  lemma LookPrecedes(e: Look, h: Hub, k: Cache, c: Cleanup, c': Cleanup)
    requires CleanupLooks(e, h, k, c, c') && Trails(h, k) && SeenPrecedes(h, c)
    ensures SeenPrecedes(h, c')
  {
    if e.CleanupBegin? && c'.Active? {
      assert k.clusters[0] in k.clusters;
      if h.Live() {
        ShownLive(h, k);
      }
    }
  }

  lemma StepPrecedes(w: World, w': World)
    requires Trails(w.hub, w.cache) && SeenPrecedes(w.hub, w.cleanup) && Moves(w, w')
    ensures SeenPrecedes(w'.hub, w'.cleanup)
  {
    StepMovesCluster(w, w');
    if w'.last.Looks? {
      LookLeavesRest(w, w');
      LookPrecedes(w'.last.look, w.hub, w.cache, w.cleanup, w'.cleanup);
    } else {
      OthersLeaveCleanup(w, w');
    }
  }

  lemma PrecedesThroughout(run: seq<World>, i: nat)
    requires IsRun(run) && i < |run|
    ensures Trails(run[i].hub, run[i].cache) && SeenPrecedes(run[i].hub, run[i].cleanup)
  {
    var P := (w: World) => Trails(w.hub, w.cache) && SeenPrecedes(w.hub, w.cleanup);
    forall w, w' | P(w) && Step(w, w') ensures P(w') {
      StepTrails(w, w');
      StepPrecedes(w, w');
    }
    RunSteps(run);
    Induction(run, 0, i, P, Step);
  }

  // ---- otherwise every release is clean ----

  predicate Tidy(w: World) {
    && !w.hub.Live() && Trails(w.hub, w.cache) && SeenPrecedes(w.hub, w.cleanup)
    && !CanLitter(w) && !Misled(w)
  }

  /** Spoiling gets no easier: it depends on the mode of the cluster and an open namespace. */
  lemma SpoilsEarlier(h: Hub, h': Hub, c: Cluster, c': Cluster, seen: Cluster)
    requires RestShrinks(h, h') && SameMode(c, c') && Spoils(h', c', seen)
    ensures Spoils(h, c, seen)
  {
  }

  lemma ApplierComesFrom(e: ApplierEvent, h: Hub, k: Cache, a: Applier, h': Hub, a': Applier, c: Cluster, c': Cluster)
    requires ApplierMoves(e, h, k, a, h', a') && h.cluster == Some(c) && h'.cluster == Some(c')
    requires c.obj.deleting && c'.obj.deleting && Precedes(c, c') && MayStillApply(c', a')
    ensures (MayStillApply(c, a) && a'.seen == a.seen) || (Some(a'.seen) in k.clusters && Starts(Some(a'.seen)))
  {
    if e.ApplierBegin? {
      assert k.clusters[0] in k.clusters;
    }
  }

  lemma WorkInFlightComesFrom(w: World, w': World)
    requires Moves(w, w') && !w.hub.Live() && w.hub.cluster.Some? && w'.hub.cluster.Some? && RestShrinks(w.hub, w'.hub)
    requires w'.hub.cluster.value.obj.deleting && Precedes(w.hub.cluster.value, w'.hub.cluster.value)
    requires WorkInFlight(w'.hub, w'.hub.cluster.value, w'.applier)
    ensures CanLitter(w)
  {
    var c, c' := w.hub.cluster.value, w'.hub.cluster.value;
    SpoilsEarlier(w.hub, w'.hub, c, c', w'.applier.seen);
    OthersLeaveAdders(w, w');
    if w'.last.Applies? {
      ApplierComesFrom(w'.last.applier, w.hub, w.cache, w.applier, w'.hub, w'.applier, c, c');
    }
    assert WorkInFlight(w.hub, c, w.applier) || WorkToCome(w.hub, c, w.cache);
  }

  lemma HidesEarlier(h: Hub, k: Cache, h': Hub, k': Cache)
    requires RestShrinks(h, h') && Hides(h', k')
    requires forall v | v in k'.addons :: v in k.addons || v == h'.addons
    requires forall v | v in k'.bindings :: v in k.bindings || v == h'.binding
    ensures Hides(h, k)
  {
    assert h.addons == map[] ==> h'.addons == map[];
  }

  lemma LitterComesFrom(w: World, w': World)
    requires Moves(w, w') && Feeds(w, w') && !w.hub.Live() && Trails(w.hub, w.cache) && CanLitter(w')
    ensures CanLitter(w)
  {
    StepMovesCluster(w, w');
    StepShrinks(w, w');
    if w'.last.CacheSync? {
      SyncLeavesHub(w, w');
    }
    StepFeedsCache(w, w');
    var c, c' := w.hub.cluster.value, w'.hub.cluster.value;
    if WorkInFlight(w'.hub, c', w'.applier) {
      WorkInFlightComesFrom(w, w');
    } else if WorkToCome(w'.hub, c', w'.cache) {
      var v :| v in w'.cache.clusters && Starts(v) && Spoils(w'.hub, c', v.value);
      SpoilsEarlier(w.hub, w'.hub, c, c', v.value);
      assert v in w.cache.clusters;
    } else {
      HidesEarlier(w.hub, w.cache, w'.hub, w'.cache);
    }
  }

  /** What a look has missed was missed before it, unless the cache hides something. */
  lemma LookMissesNothing(e: Look, h: Hub, k: Cache, c: Cleanup, c': Cleanup)
    requires CleanupLooks(e, h, k, c, c') && c'.Active? && !Hides(h, k) && Missed(h, c')
    ensures c.Active? && c'.seen == c.seen && Missed(h, c)
  {
    match e {
      case CleanupBegin =>
      case SawAddons => assert k.addons[0] in k.addons;
      case SawBinding => assert k.bindings[0] in k.bindings;
      case SawWorks => OverlookedBefore(h, c, c');
      case SawHosting => OverlookedBefore(h, c, c');
    }
  }

  lemma OverlookedBefore(h: Hub, c: Cleanup, c': Cleanup)
    requires c.Active? && c'.Active? && c'.seen == c.seen && c'.noAddons == c.noAddons && c'.noBinding == c.noBinding
    requires c'.noWorks ==> c.noWorks || h.WorksWithin({})
    requires c'.noHosting ==> c.noHosting || h.HostingWithin(c.seen.hosting, {})
    requires Missed(h, c')
    ensures Missed(h, c)
  {
    if k :| k in h.works && Overlooked(h, c', k) {
      assert Overlooked(h, c, k);
    }
  }

  lemma MissedEarlier(h: Hub, h': Hub, c: Cleanup)
    requires c.Active? && HubShrinks(h, h') && Missed(h', c)
    ensures Missed(h, c)
  {
    if k :| k in h'.works && Overlooked(h', c, k) {
      assert Overlooked(h, c, k);
    } else {
      assert h.addons == map[] ==> h'.addons == map[];
    }
  }

  /** A work written elsewhere is no work the cleanup has missed. */
  lemma CreatedElsewhere(h: Hub, h': Hub, seen: Cluster, key: Key, c: Cleanup)
    requires c.Active? && h.cluster.Some? && SameMode(c.seen, h.cluster.value)
    requires CreatesWork(h, h', seen, key) && !Spoils(h, h.cluster.value, seen) && Missed(h', c)
    ensures Missed(h, c)
  {
    if k :| k in h'.works && Overlooked(h', c, k) {
      assert k != key;
      assert Overlooked(h, c, k);
    }
  }

  lemma DropsEarlier(h: Hub, h': Hub, c: Cleanup)
    requires ClusterMoves(h.cluster, h'.cluster) && !h.Live() && MayStillDrop(h', c)
    ensures MayStillDrop(h, c)
  {
  }

  lemma MissedComesFrom(w: World, w': World)
    requires !w.hub.Live() && SeenPrecedes(w.hub, w.cleanup) && !CanLitter(w) && w.hub.cluster.Some? && Moves(w, w') && !w'.last.Looks?
    requires w'.cleanup.Active? && Missed(w'.hub, w'.cleanup)
    ensures w'.cleanup == w.cleanup && Missed(w.hub, w.cleanup)
  {
    OthersLeaveCleanup(w, w');
    if w'.last.Applies? && w'.last.applier.ApplierCreate? {
      OthersLeaveAdders(w, w');
      assert !WorkInFlight(w.hub, w.hub.cluster.value, w.applier);
      CreatedElsewhere(w.hub, w'.hub, w.applier.seen, w'.last.applier.key, w.cleanup);
    } else {
      StepShrinks(w, w');
      MissedEarlier(w.hub, w'.hub, w.cleanup);
    }
  }

  lemma MisledComesFrom(w: World, w': World)
    requires !w.hub.Live() && SeenPrecedes(w.hub, w.cleanup) && !CanLitter(w) && Moves(w, w') && Misled(w')
    ensures Misled(w)
  {
    StepMovesCluster(w, w');
    if w'.last.Looks? {
      LookLeavesRest(w, w');
      LookMissesNothing(w'.last.look, w.hub, w.cache, w.cleanup, w'.cleanup);
    } else {
      MissedComesFrom(w, w');
      DropsEarlier(w.hub, w'.hub, w.cleanup);
    }
  }

  lemma StepTidy(w: World, w': World)
    requires Tidy(w) && Moves(w, w') && Feeds(w, w')
    ensures Tidy(w')
  {
    StepTrails(w, w');
    StepPrecedes(w, w');
    StepMovesCluster(w, w');
    if CanLitter(w') {
      LitterComesFrom(w, w');
    }
    if Misled(w') {
      MisledComesFrom(w, w');
    }
  }

  lemma TidyFromThenOn(run: seq<World>, e: nat, i: nat)
    requires IsRun(run) && e <= i < |run| && Tidy(run[e])
    ensures Tidy(run[i])
  {
    forall w, w' | Tidy(w) && Step(w, w') ensures Tidy(w') {
      StepTidy(w, w');
    }
    RunSteps(run);
    Induction(run, e, i, Tidy, Step);
  }

  lemma TidyDrop(w: World, w': World)
    requires Tidy(w) && Moves(w, w') && w'.last == Acts(DropFinalizers)
    ensures w.hub.cluster.Some? && w.hub.Clean(w.hub.cluster.value)
  {
    ActIsMeant(w, w');
    var h, c := w.hub, w.cleanup;
    assert MayStillDrop(h, c);
    forall k | k in h.works ensures !IsOwn(h, k) && !IsHosted(h, c.seen, k) {
      assert !Overlooked(h, c, k);
    }
  }

  // ---- and else a release can leave something behind ----

  /** A deleted cluster that still carries one of our finalizers. */
  predicate Unreleased(c: Option<Cluster>) {
    c.Some? && c.value.obj.deleting && exists f | f in c.value.obj.finalizers :: f in OwnFinalizers
  }

  /** What is left of a cluster once foreign finalizers outside `keep` are gone. */
  function Reduced(c: Cluster, keep: set<Finalizer>): (r: Cluster)
  {
    c.(obj := Obj(Without(c.obj.finalizers, Foreigners(c, keep)), true))
  }

  function Foreigners(c: Cluster, keep: set<Finalizer>): (r: set<Finalizer>)
  {
    set f | f in c.obj.finalizers && f !in keep + OwnFinalizers
  }

  lemma ReducedIsUnreleased(c: Cluster, keep: set<Finalizer>)
    requires Unreleased(Some(c))
    ensures Unreleased(Some(Reduced(c, keep)))
  {
    var f :| f in c.obj.finalizers && f in OwnFinalizers;
    assert f in Reduced(c, keep).obj.finalizers;
  }

  /** The works, addons and binding become some of what they are, and foreign finalizers outside `keep` go. */
  lemma EverythingGoes(run: seq<World>, keep: set<Finalizer>, h': Hub) returns (ext: seq<World>)
    requires IsRun(run) && Unreleased(Last(run).hub.cluster)
    requires var h := Last(run).hub;
             && h' == h.(cluster := Some(Reduced(h.cluster.value, keep)), works := h'.works, addons := h'.addons, binding := h'.binding)
             && WorksShrink(h.works, h'.works) && (forall n | n in h'.addons :: n in h.addons)
             && (h'.binding == None || h'.binding == h.binding)
    ensures IsRun(ext) && run <= ext && Unreleased(h'.cluster)
    ensures Last(ext) == Last(run).(hub := h', cache := Watched(Last(run).cache, h'), last := Last(ext).last)
  {
    var w := Last(run);
    var c := w.hub.cluster.value;
    ReducedIsUnreleased(c, keep);
    assert ClusterShrinks(w.hub.cluster, h'.cluster, Foreigners(c, keep));
    ext := EnvMove(run, Foreigners(c, keep), h');
  }

  /** The cleanup controller begins with the current cluster. */
  lemma CleanupBegins(run: seq<World>) returns (ext: seq<World>)
    requires IsRun(run) && Last(run).cleanup.Idle? && Unreleased(Last(run).hub.cluster)
    requires Last(run).cache.clusters != [] && Last(run).cache.clusters[0] == Last(run).hub.cluster
    ensures IsRun(ext) && run <= ext
    ensures Last(ext) == Last(run).(cleanup := Begun(Last(run).hub.cluster), last := Looks(CleanupBegin))
  {
    ext := LookNow(run, CleanupBegin, Begun(Last(run).hub.cluster));
  }

  /** The cached looks find nothing, or have missed what is there already. */
  lemma SeesNoAddonsNorBinding(run: seq<World>) returns (ext: seq<World>)
    requires IsRun(run) && Last(run).cleanup.Active?
    requires var k, c := Last(run).cache, Last(run).cleanup;
             && k.addons != [] && (c.noAddons || k.addons[0] == map[])
             && k.bindings != [] && (c.noBinding || k.bindings[0].None?)
    ensures IsRun(ext) && run <= ext
    ensures Last(ext) == Last(run).(cleanup := Last(run).cleanup.(noAddons := true, noBinding := true), last := Last(ext).last)
  {
    var c := Last(run).cleanup;
    ext := LookNow(run, SawAddons, c.(noAddons := true));
    ext := LookNow(ext, SawBinding, c.(noAddons := true, noBinding := true));
  }

  /** The looks for works find none that was not missed already. */
  lemma SeesNoWorks(run: seq<World>) returns (ext: seq<World>)
    requires IsRun(run) && Last(run).cleanup.Active?
    requires var h, c := Last(run).hub, Last(run).cleanup;
             && (c.noWorks || h.WorksWithin({}))
             && (c.seen.OnHosting() ==> c.noHosting || h.HostingWithin(c.seen.hosting, {}))
    ensures IsRun(ext) && run <= ext
    ensures var c, c' := Last(run).cleanup, Last(ext).cleanup;
            && Last(ext) == Last(run).(cleanup := c', last := Last(ext).last)
            && c'.Active? && c'.seen == c.seen && c'.noWorks && (c.seen.OnHosting() ==> c'.noHosting)
            && c'.noAddons == c.noAddons && c'.noBinding == c.noBinding
  {
    var h, c := Last(run).hub, Last(run).cleanup;
    ext := LookNow(run, SawWorks, c.(noWorks := true, crdReady := c.crdReady || h.CrdReady()));
    ext := SeesNoHosting(ext);
  }

  lemma SeesNoHosting(run: seq<World>) returns (ext: seq<World>)
    requires IsRun(run) && Last(run).cleanup.Active?
    requires var h, c := Last(run).hub, Last(run).cleanup;
             c.seen.OnHosting() ==> c.noHosting || h.HostingWithin(c.seen.hosting, {})
    ensures IsRun(ext) && run <= ext
    ensures var c, c' := Last(run).cleanup, Last(ext).cleanup;
            && Last(ext) == Last(run).(cleanup := c', last := Last(ext).last)
            && c'.Active? && c' == c.(noHosting := c'.noHosting, hostingSeen := c'.hostingSeen) && (c.seen.OnHosting() ==> c'.noHosting)
  {
    var h, c := Last(run).hub, Last(run).cleanup;
    var names := HostingSet(h, c.seen.hosting);
    ext := LookNow(run, SawHosting, c.(noHosting := c.noHosting || names == {}, hostingSeen := Some(names)));
    if c.seen.OnHosting() && !c.noHosting {
      NoNames(h, c.seen.hosting);
    }
  }

  lemma NoNames(h: Hub, hosting: string)
    requires h.HostingWithin(hosting, {})
    ensures HostingSet(h, hosting) == {}
  {
  }

  /** The cleanup looks everywhere and finds nothing it has not missed. */
  lemma CleanupSeesNothing(run: seq<World>) returns (ext: seq<World>)
    requires IsRun(run) && Last(run).cleanup.Active?
    requires var k, c := Last(run).cache, Last(run).cleanup;
             && k.addons != [] && (c.noAddons || k.addons[0] == map[])
             && k.bindings != [] && (c.noBinding || k.bindings[0].None?)
    requires var h, c := Last(run).hub, Last(run).cleanup;
             && (c.noWorks || h.WorksWithin({}))
             && (c.seen.OnHosting() ==> c.noHosting || h.HostingWithin(c.seen.hosting, {}))
    ensures IsRun(ext) && run <= ext
    ensures var w, v := Last(run), Last(ext);
            v == w.(cleanup := v.cleanup, last := v.last) && MayDrop(v.cleanup) && v.cleanup.seen == w.cleanup.seen
  {
    ext := SeesNoAddonsNorBinding(run);
    ext := SeesNoWorks(ext);
  }

  /** The cluster once the reconcile in flight has landed its patch, if it has one. */
  function Landed(c: Cluster, a: Applier): (r: Cluster)
  {
    if a.Patching? then c.(obj := Obj(a.plan, true)) else c
  }

  /** The reconcile in flight reaches the point where it applies works. */
  lemma ApplierArrives(run: seq<World>) returns (ext: seq<World>)
    requires IsRun(run)
    requires var w := Last(run);
             w.hub.cluster.Some? && w.hub.cluster.value.obj.deleting && MayStillApply(w.hub.cluster.value, w.applier)
    ensures IsRun(ext) && run <= ext
    ensures var w, v := Last(run), Last(ext);
            && v == w.(hub := v.hub, cache := v.cache, applier := Applying(w.applier.seen), last := v.last)
            && v.hub == w.hub.(cluster := Some(Landed(w.hub.cluster.value, w.applier)))
  {
    var w := Last(run);
    var c := w.hub.cluster.value;
    ext := run;
    if w.applier.Read? {
      var count := if ManifestWork in w.applier.seen.obj.finalizers then 1 else 0;
      ext := ApplierMove(run, ApplierPlan(count), w.hub, Applying(w.applier.seen));
    } else if w.applier.Patching? {
      var h' := w.hub.(cluster := PutCluster(c, Patched(c.obj, w.applier.plan)));
      ext := ApplierMove(run, ApplierPatch, h', Applying(w.applier.seen));
    }
  }

  /** The cleanup, which has looked everywhere, may release the cluster. */
  predicate AboutToDrop(w: World) {
    MayDrop(w.cleanup) && MayStillDrop(w.hub, w.cleanup) && SameMode(w.cleanup.seen, w.hub.cluster.value)
  }

  /** A release that leaves something behind. */
  predicate Litters(ext: seq<World>) {
    && |ext| > 1 && Last(ext).last == Acts(DropFinalizers)
    && var h := ext[|ext| - 2].hub; h.cluster.Some? && !h.Clean(h.cluster.value)
  }

  lemma DropNow(run: seq<World>) returns (ext: seq<World>)
    requires IsRun(run) && AboutToDrop(Last(run)) && !Last(run).hub.Clean(Last(run).hub.cluster.value)
    ensures IsRun(ext) && run <= ext && |ext| > |run| && Litters(ext)
  {
    var w := Last(run);
    var c := w.hub.cluster.value;
    var left := Without(w.cleanup.seen.obj.finalizers, OwnFinalizers);
    var h' := w.hub.(cluster := PutCluster(c, Patched(c.obj, left)));
    ext := ActNow(run, DropFinalizers, h');
  }

  /** The work an applier writes first, and where. */
  function FirstWork(h: Hub, seen: Cluster): (r: (Key, Work))
  {
    if seen.mode.Default? then (Key(h.name, KlusterletCrds), Work(Obj([], false), None, false))
    else (Key(seen.hosting, HostedKlusterlet), Work(Obj([], false), Some(h.name), false))
  }

  /** The late work is created. */
  lemma CreateNow(run: seq<World>) returns (ext: seq<World>)
    requires IsRun(run)
    requires var w := Last(run);
             && w.hub.cluster.Some? && w.hub.works == map[] && w.applier.Applying?
             && Spoils(w.hub, w.hub.cluster.value, w.applier.seen)
    ensures IsRun(ext) && run <= ext && |ext| > |run|
    ensures var w, v := Last(run), Last(ext);
            && v == w.(hub := w.hub.(works := v.hub.works), cache := v.cache, last := v.last)
            && !v.hub.Clean(v.hub.cluster.value)
  {
    var w := Last(run);
    var (k, work) := FirstWork(w.hub, w.applier.seen);
    var h' := w.hub.(works := w.hub.works[k := work]);
    ext := ApplierMove(run, ApplierCreate(k), h', w.applier);
    assert k in h'.works && (k.ns == h'.name || h'.IsHostingWork(h'.cluster.value.hosting, k));
  }

  /** What the cleanup drops of a reduced cluster is accepted, also after the patch of the reconcile in flight. */
  lemma DropAccepted(c: Cluster, plan: seq<Finalizer>)
    requires c.obj.deleting && Accepts(c.obj, plan)
    ensures var r := Reduced(c, set f | f in plan);
            var left := Without(r.obj.finalizers, OwnFinalizers);
            && Accepts(r.obj, plan) && Accepts(r.obj, left) && Accepts(Obj(plan, true), left)
  {
  }

  lemma DropChanges(c: Option<Cluster>)
    requires Unreleased(c)
    ensures Without(c.value.obj.finalizers, OwnFinalizers) != c.value.obj.finalizers
  {
    var f :| f in c.value.obj.finalizers && f in OwnFinalizers;
    assert f !in Without(c.value.obj.finalizers, OwnFinalizers);
  }

  /** The cluster reduced to what `plan` names, without works, addons and binding. */
  function Bare(h: Hub, plan: seq<Finalizer>): (r: Hub)
    requires h.cluster.Some?
  {
    h.(cluster := Some(Reduced(h.cluster.value, set f | f in plan)), works := map[], addons := map[], binding := None)
  }

  /** Everything goes and the cleanup looks, before the reconcile in flight moves on. */
  lemma LookTooEarly(run: seq<World>, plan: seq<Finalizer>) returns (ext: seq<World>)
    requires IsRun(run) && Last(run).cleanup.Idle? && Unreleased(Last(run).hub.cluster)
    ensures IsRun(ext) && run <= ext
    ensures var w, v := Last(run), Last(ext);
            && v == w.(hub := Bare(w.hub, plan), cache := v.cache, cleanup := v.cleanup, last := v.last)
            && MayDrop(v.cleanup) && v.cleanup.seen == v.hub.cluster.value && Unreleased(v.hub.cluster)
  {
    ext := EverythingGoes(run, (set f | f in plan), Bare(Last(run).hub, plan));
    ext := Refresh(ext);
    ext := CleanupBegins(ext);
    ext := CleanupSeesNothing(ext);
  }

  lemma LateWorkLitters(run: seq<World>) returns (ext: seq<World>)
    requires IsRun(run) && Last(run).cleanup.Idle? && Unreleased(Last(run).hub.cluster)
    requires WorkInFlight(Last(run).hub, Last(run).hub.cluster.value, Last(run).applier)
    ensures IsRun(ext) && run <= ext && |ext| > |run| && Litters(ext)
  {
    var c, a := Last(run).hub.cluster.value, Last(run).applier;
    var plan := if a.Patching? then a.plan else [];
    DropAccepted(c, plan);
    ext := LookTooEarly(run, plan);
    DropChanges(Last(ext).hub.cluster);
    ext := ArrivesAndDrops(ext);
  }

  /** The reconcile in flight lands its patch and creates a work, and the cleanup, which has looked, releases the cluster. */
  lemma ArrivesAndDrops(run: seq<World>) returns (ext: seq<World>)
    requires IsRun(run)
    requires var w := Last(run);
             && w.hub.cluster.Some? && w.hub.cluster.value.obj.deleting && w.hub.works == map[]
             && WorkInFlight(w.hub, w.hub.cluster.value, w.applier)
             && MayDrop(w.cleanup) && w.cleanup.seen == w.hub.cluster.value
             && var left := Without(w.cleanup.seen.obj.finalizers, OwnFinalizers);
                left != w.cleanup.seen.obj.finalizers && Accepts(Landed(w.hub.cluster.value, w.applier).obj, left)
    ensures IsRun(ext) && run <= ext && |ext| > |run| && Litters(ext)
  {
    ext := ApplierArrives(run);
    ext := CreateNow(ext);
    ext := DropNow(ext);
  }

  /** What stays when the cache hides it. */
  function Hidden(h: Hub, k: Cache): (r: Hub)
    requires h.cluster.Some?
  {
    h.(cluster := Some(Reduced(h.cluster.value, {})), works := map[],
       addons := if map[] in k.addons then h.addons else map[], binding := if None in k.bindings then h.binding else None)
  }

  lemma HiddenIsLess(h: Hub, k: Cache)
    requires h.cluster.Some?
    ensures var h' := Hidden(h, k);
            && h' == h.(cluster := Some(Reduced(h.cluster.value, {})), works := h'.works, addons := h'.addons, binding := h'.binding)
            && WorksShrink(h.works, h'.works) && (forall n | n in h'.addons :: n in h.addons)
            && (h'.binding == None || h'.binding == h.binding)
            && map[] in Fed(k.addons, h'.addons) && None in Fed(k.bindings, h'.binding)
  {
  }

  lemma HiddenRestLitters(run: seq<World>) returns (ext: seq<World>)
    requires IsRun(run) && Last(run).cleanup.Idle? && Unreleased(Last(run).hub.cluster)
    requires Hides(Last(run).hub, Last(run).cache)
    ensures IsRun(ext) && run <= ext && |ext| > |run| && Litters(ext)
  {
    var w := Last(run);
    HiddenIsLess(w.hub, w.cache);
    ext := EverythingGoes(run, {}, Hidden(w.hub, w.cache));
    ext := Show(ext, Last(ext).hub.cluster, map[], None);
    ext := LooksAndDrops(ext);
  }

  /** A cleanup that is shown nothing releases what is there. */
  lemma LooksAndDrops(run: seq<World>) returns (ext: seq<World>)
    requires IsRun(run) && Last(run).cleanup.Idle? && Unreleased(Last(run).hub.cluster) && Last(run).hub.works == map[]
    requires Last(run).hub.addons != map[] || Last(run).hub.binding.Some?
    requires var k := Last(run).cache;
             && k.clusters != [] && k.clusters[0] == Last(run).hub.cluster
             && k.addons != [] && k.addons[0] == map[] && k.bindings != [] && k.bindings[0].None?
    ensures IsRun(ext) && run <= ext && |ext| > |run| && Litters(ext)
  {
    DropChanges(Last(run).hub.cluster);
    ext := CleanupBegins(run);
    ext := CleanupSeesNothing(ext);
    ext := DropNow(ext);
  }

  /** The looks of the cleanup under way find nothing of this hub that they have not missed. */
  predicate Unseen(h: Hub, c: Cleanup) {
    && c.Active? && (c.noAddons || h.addons == map[]) && (c.noBinding || h.binding.None?)
    && (c.noWorks || h.WorksWithin({}))
    && (c.seen.OnHosting() ==> c.noHosting || h.HostingWithin(c.seen.hosting, {}))
  }

  /** Only what the cleanup under way has missed stays, and it goes on to the end. */
  lemma MissedRestStays(run: seq<World>, h': Hub) returns (ext: seq<World>)
    requires IsRun(run) && !Last(run).hub.Live() && MayStillDrop(Last(run).hub, Last(run).cleanup)
    requires SameMode(Last(run).cleanup.seen, Last(run).hub.cluster.value)
    requires var h := Last(run).hub;
             h' == h.(works := h'.works, addons := h'.addons, binding := h'.binding) && HubShrinks(h, h')
    requires Unseen(h', Last(run).cleanup)
    ensures IsRun(ext) && run <= ext && AboutToDrop(Last(ext)) && Last(ext).hub == h'
  {
    ext := SomeGoes(run, h');
    ext := Refresh(ext);
    ext := CleanupSeesNothing(ext);
  }

  lemma MisledLitters(run: seq<World>) returns (ext: seq<World>)
    requires IsRun(run) && Unreleased(Last(run).hub.cluster) && Misled(Last(run))
    ensures IsRun(ext) && run <= ext && |ext| > |run| && Litters(ext)
  {
    PrecedesThroughout(run, |run| - 1);
    var h' := MissedRest(Last(run).hub, Last(run).cleanup);
    ext := MissedRestStays(run, h');
    ext := DropNow(ext);
  }

  /** One thing the cleanup under way has missed, and nothing else. */
  lemma MissedRest(h: Hub, c: Cleanup) returns (h': Hub)
    requires c.Active? && h.cluster.Some? && SameMode(c.seen, h.cluster.value) && Missed(h, c)
    ensures h' == h.(works := h'.works, addons := h'.addons, binding := h'.binding) && HubShrinks(h, h')
    ensures Unseen(h', c) && !h'.Clean(h'.cluster.value)
  {
    h' := h.(works := map[], addons := map[], binding := None);
    if k :| k in h.works && Overlooked(h, c, k) {
      h' := h'.(works := map[k := h.works[k]]);
      assert k in h'.works && (IsOwn(h', k) || IsHosted(h', c.seen, k));
    } else if c.noAddons && h.addons != map[] {
      h' := h'.(addons := h.addons);
    } else {
      h' := h'.(binding := h.binding);
    }
  }

  lemma LitteredRelease(run: seq<World>) returns (ext: seq<World>)
    requires IsRun(run) && Unreleased(Last(run).hub.cluster) && (CanLitter(Last(run)) || Misled(Last(run)))
    ensures IsRun(ext) && run <= ext && |ext| > |run| && Litters(ext)
  {
    var w := Last(run);
    var c := w.hub.cluster.value;
    if Misled(w) {
      ext := MisledLitters(run);
    } else if WorkInFlight(w.hub, c, w.applier) {
      ext := EndCleanup(run);
      ext := LateWorkLitters(ext);
    } else if WorkToCome(w.hub, c, w.cache) {
      var v :| v in w.cache.clusters && Starts(v) && Spoils(w.hub, c, v.value);
      ext := EndCleanup(run);
      ext := StartsFrom(ext, v);
      ext := LateWorkLitters(ext);
    } else {
      ext := EndCleanup(run);
      ext := HiddenRestLitters(ext);
    }
  }

  // ---- the theorems ----

  /** Every continuation of `run` releases the cluster only when nothing of it is left. */
  ghost predicate AlwaysClean(run: seq<World>) {
    forall ext: seq<World>, i: nat ::
      IsRun(ext) && run <= ext && 0 < |run| <= i < |ext| && ext[i].last == Acts(DropFinalizers) ==>
        ext[i - 1].hub.cluster.Some? && ext[i - 1].hub.Clean(ext[i - 1].hub.cluster.value)
  }

  lemma DropIsClean(run: seq<World>, e: nat, i: nat)
    requires IsRun(run) && e < i < |run| && Tidy(run[e]) && run[i].last == Acts(DropFinalizers)
    ensures run[i - 1].hub.cluster.Some? && run[i - 1].hub.Clean(run[i - 1].hub.cluster.value)
  {
    TidyFromThenOn(run, e, i - 1);
    assert StepAt(run, i);
    TidyDrop(run[i - 1], run[i]);
  }

  /** The exact condition for clean releases, at any moment after the deletion, with or without a cleanup under way. */
  lemma CleanReleaseExactlyWhenNoLateWork(run: seq<World>)
    requires IsRun(run) && Unreleased(Last(run).hub.cluster)
    ensures AlwaysClean(run) <==> !CanLitter(Last(run)) && !Misled(Last(run))
  {
    if CanLitter(Last(run)) || Misled(Last(run)) {
      var ext := LitteredRelease(run);
      assert IsRun(ext) && run <= ext && 0 < |run| <= |ext| - 1 < |ext| && ext[|ext| - 1].last == Acts(DropFinalizers);
    } else {
      PrecedesThroughout(run, |run| - 1);
      forall ext: seq<World>, i: nat | IsRun(ext) && run <= ext && 0 < |run| <= i < |ext| && ext[i].last == Acts(DropFinalizers)
        ensures ext[i - 1].hub.cluster.Some? && ext[i - 1].hub.Clean(ext[i - 1].hub.cluster.value)
      {
        assert ext[|run| - 1] == Last(run);
        DropIsClean(ext, |run| - 1, i);
      }
    }
  }

  /** At the deletion itself the cache still shows the live cluster, so a late work can come wherever works can be created. */
  lemma DeletionInvitesLateWorks(run: seq<World>)
    requires IsRun(run) && |run| > 1 && Last(run).last.UserDelete? && Last(run).hub.cluster.Some?
    requires var h, c := Last(run).hub, Last(run).hub.cluster.value;
             c.HasApplier() && (c.mode.Default? || c.hosting == h.name ==> Open(h))
    ensures CanLitter(Last(run))
  {
    var w, w' := run[|run| - 2], Last(run);
    assert StepAt(run, |run| - 1);
    TrailsThroughout(run, |run| - 2);
    var v := w.hub.cluster;
    assert v in w.cache.clusters && v in w'.cache.clusters;
    assert WorkToCome(w'.hub, w'.hub.cluster.value, w'.cache);
  }

  /** A settled deletion is tidy: the exact condition is met once the cache has seen the deletion. */
  lemma SettledIsTidy(w: World)
    requires Settled(w) && Trails(w.hub, w.cache)
    ensures w.hub.cluster.Some? ==> Tidy(w)
  {
    if w.cleanup.Active? {
      forall k | k in w.hub.works ensures !Overlooked(w.hub, w.cleanup, k) {
      }
    }
  }
}
