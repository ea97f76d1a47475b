/**
 When the namespace controller may delete the namespace of a deleted cluster. Its
 finalizers protect the namespace exactly when no patch that rests on a reading from
 before the deletion, held by a reconcile or still in the cache, can remove them.
 */
module NamespaceSafety {
  import opened Common
  import opened Kube
  import opened DetachProtocol
  import opened DetachSteps
  import opened DetachRuns

  /** A finalizer list at which the namespace controller always turns away. */
  predicate Blocks(fs: seq<Finalizer>) {
    ManifestWork in fs || |Only(fs, {Import})| > 1
  }

  /** The server would take `plan`, and the namespace would lose its protection. */
  predicate Clobbers(c: Cluster, plan: seq<Finalizer>) {
    Accepts(c.obj, plan) && !Blocks(plan)
  }

  /** Whoever acts on this reading may yet compute such a patch from a stale count of no works. */
  predicate ReadingClobbers(c: Cluster, seen: Cluster) {
    ManifestWork in seen.obj.finalizers && Clobbers(c, Without(seen.obj.finalizers, {ManifestWork}))
  }

  /** Some reconcile in flight holds, or may still compute, such a patch. */
  predicate InFlight(c: Cluster, plan: Option<seq<Finalizer>>, a: Applier) {
    || (plan.Some? && Clobbers(c, plan.value))
    || (a.Patching? && Clobbers(c, a.plan))
    || (a.Read? && ReadingClobbers(c, a.seen))
  }

  /** A cached state that frees the namespace by itself, or that leads a new reconcile to such a patch. */
  predicate Misleads(c: Cluster, v: Option<Cluster>) {
    || ReleasesNamespace(v)
    || (Starts(v) && ReadingClobbers(c, v.value))
    || (IsLive(v) && Import !in v.value.obj.finalizers && Clobbers(c, v.value.obj.finalizers + [Import]))
  }

  predicate CanClobber(w: World) {
    w.hub.cluster.Some? &&
    var c := w.hub.cluster.value;
    InFlight(c, w.metaPlan, w.applier) || exists v | v in w.cache.clusters :: Misleads(c, v)
  }

  predicate OnlyImportLeft(c: Option<Cluster>) {
    c.Some? ==> c.value.obj.deleting && forall f | f in c.value.obj.finalizers :: f == Import
  }

  // ---- the invariant ----

  /** A cleanup has completed, or the finalizers hold the namespace and nothing can take them away. */
  predicate Held(w: World) {
    w.completed || (w.hub.cluster.Some? && Blocks(w.hub.cluster.value.obj.finalizers) && !CanClobber(w))
  }

  predicate Protected(w: World) {
    && !w.hub.Live() && Trails(w.hub, w.cache)
    && Held(w)
    && (w.nsctl.NsActive? && w.nsctl.clusterOk ==> OnlyImportLeft(w.hub.cluster) && w.completed)
  }

  /** The addons the namespace controller does not see are not there. */
  predicate NoAddonMissed(w: World) {
    && (map[] in w.cache.addons ==> w.hub.addons == map[])
    && (w.nsctl.NsActive? && w.nsctl.addonsOk ==> w.hub.addons == map[])
  }

  lemma {:induction false} OnlyImportsKept(fs: seq<Finalizer>, gone: set<Finalizer>)
    requires Import !in gone
    ensures Only(Without(fs, gone), {Import}) == Only(fs, {Import})
  {
    if fs != [] {
      OnlyImportsKept(fs[1..], gone);
      if fs[0] !in gone {
        assert Without(fs, gone)[1..] == Without(fs[1..], gone);
      }
    }
  }

  lemma ShrinkingKeepsBlocks(fs: seq<Finalizer>, gone: set<Finalizer>)
    requires Blocks(fs) && gone !! OwnFinalizers
    ensures Blocks(Without(fs, gone))
  {
    assert Import in OwnFinalizers && ManifestWork in OwnFinalizers;
    OnlyImportsKept(fs, gone);
  }

  lemma BlockedIsNotReleased(c: Cluster)
    requires Blocks(c.obj.finalizers)
    ensures !ReleasesNamespace(Some(c))
  {
    OnlyLength(c.obj.finalizers, {Import});
  }

  /** A reading that misleads later misleads already now, as the list only shrinks. */
  lemma MisleadsEarlier(c: Cluster, c': Cluster, v: Option<Cluster>)
    requires c.obj.deleting && c'.obj.deleting && Precedes(c, c') && Misleads(c', v)
    ensures Misleads(c, v)
  {
  }

  /** What the applier holds after a move it held, or could read, before it. */
  lemma ApplierComesFrom(e: ApplierEvent, h: Hub, k: Cache, a: Applier, h': Hub, a': Applier, c: Cluster, c': Cluster)
    requires ApplierMoves(e, h, k, a, h', a') && c.obj.deleting && c'.obj.deleting && Precedes(c, c')
    requires InFlight(c', None, a')
    ensures InFlight(c, None, a) || exists v | v in k.clusters :: Misleads(c, v)
  {
    if e.ApplierBegin? {
      assert k.clusters[0] in k.clusters && Misleads(c, k.clusters[0]);
    }
  }

  lemma PlanComesFrom(e: MetaEvent, h: Hub, k: Cache, p: Option<seq<Finalizer>>, h': Hub, p': Option<seq<Finalizer>>, c: Cluster, c': Cluster)
    requires MetaMoves(e, h, k, p, h', p') && c.obj.deleting && c'.obj.deleting && Precedes(c, c')
    requires p'.Some? && Clobbers(c', p'.value)
    ensures exists v | v in k.clusters :: Misleads(c, v)
  {
    assert k.clusters[0] in k.clusters && Misleads(c, k.clusters[0]);
  }

  /** What is in flight after a step was in flight, or could be read, before it. */
  lemma FlightComesFrom(w: World, w': World)
    requires Moves(w, w') && w.hub.cluster.Some? && w'.hub.cluster.Some?
    requires w.hub.cluster.value.obj.deleting && w'.hub.cluster.value.obj.deleting
    requires Precedes(w.hub.cluster.value, w'.hub.cluster.value)
    requires InFlight(w'.hub.cluster.value, w'.metaPlan, w'.applier)
    ensures CanClobber(w)
  {
    var c, c' := w.hub.cluster.value, w'.hub.cluster.value;
    OthersLeaveAdders(w, w');
    if InFlight(c', None, w'.applier) {
      if w'.last.Applies? {
        ApplierComesFrom(w'.last.applier, w.hub, w.cache, w.applier, w'.hub, w'.applier, c, c');
      } else {
        assert InFlight(c, None, w.applier);
      }
    } else if w'.last.Tags? {
      PlanComesFrom(w'.last.meta, w.hub, w.cache, w.metaPlan, w'.hub, w'.metaPlan, c, c');
    }
  }

  lemma ClobberComesFrom(w: World, w': World)
    requires Moves(w, w') && Feeds(w, w') && Trails(w.hub, w.cache) && !w.hub.Live() && w'.hub.cluster.Some?
    requires Blocks(w'.hub.cluster.value.obj.finalizers) && CanClobber(w')
    ensures CanClobber(w)
  {
    StepMovesCluster(w, w');
    var c, c' := w.hub.cluster.value, w'.hub.cluster.value;
    if InFlight(c', w'.metaPlan, w'.applier) {
      FlightComesFrom(w, w');
    } else {
      var v :| v in w'.cache.clusters && Misleads(c', v);
      CachedBefore(w, w', v);
      BlockedIsNotReleased(c');
      MisleadsEarlier(c, c', v);
    }
  }

  lemma CachedBefore(w: World, w': World, v: Option<Cluster>)
    requires Moves(w, w') && Feeds(w, w') && Follows(w.cache, w.hub) && v in w'.cache.clusters
    ensures v in w.cache.clusters || v == w'.hub.cluster
  {
    if w'.last.CacheSync? {
      SyncLeavesHub(w, w');
    }
    StepFeedsCache(w, w');
  }

  lemma PatchKeepsBlocks(h: Hub, h': Hub, plan: seq<Finalizer>)
    requires PatchesFinalizers(h, h', plan) && !Clobbers(h.cluster.value, plan)
    ensures h'.cluster.Some? && Blocks(h'.cluster.value.obj.finalizers)
  {
  }

  lemma EnvironmentKeepsBlocks(h: Hub, h': Hub, gone: set<Finalizer>)
    requires !h.Live() && h.cluster.Some? && Blocks(h.cluster.value.obj.finalizers) && EnvMoves(h, h', gone)
    ensures h'.cluster.Some? && Blocks(h'.cluster.value.obj.finalizers)
  {
    ShrinkingKeepsBlocks(h.cluster.value.obj.finalizers, gone);
  }

  /** No step but a completed cleanup takes the protection away. */
  lemma StepKeepsBlocks(w: World, w': World)
    requires Moves(w, w') && !w.hub.Live() && !w'.completed
    requires w.hub.cluster.Some? && Blocks(w.hub.cluster.value.obj.finalizers)
    requires !InFlight(w.hub.cluster.value, w.metaPlan, w.applier)
    ensures w'.hub.cluster.Some? && Blocks(w'.hub.cluster.value.obj.finalizers)
  {
    CompletedStays(w, w');
    OthersLeaveAdders(w, w');
    if w'.last.Environment? {
      EnvironmentKeepsBlocks(w.hub, w'.hub, w'.last.gone);
    } else if w'.last == Applies(ApplierPatch) {
      PatchKeepsBlocks(w.hub, w'.hub, w.applier.plan);
    } else if w'.last == Tags(MetaPatch) {
      if w'.hub != w.hub {
        PatchKeepsBlocks(w.hub, w'.hub, w.metaPlan.value);
      }
    } else if !WritesCluster(w'.last) {
      OtherStepsKeepCluster(w, w');
    }
  }

  lemma StepKeepsHeld(w: World, w': World)
    requires !w.hub.Live() && Trails(w.hub, w.cache) && Held(w) && Moves(w, w') && Feeds(w, w')
    ensures Held(w')
  {
    CompletedStays(w, w');
    if !w'.completed {
      StepKeepsBlocks(w, w');
      if CanClobber(w') {
        ClobberComesFrom(w, w');
      }
    }
  }

  lemma OnlyImportStays(c: Option<Cluster>, c': Option<Cluster>)
    requires !IsLive(c) && ClusterMoves(c, c') && OnlyImportLeft(c)
    ensures OnlyImportLeft(c')
  {
  }

  /** A shown state that frees the namespace tells that it is free. */
  lemma ShownReleased(w: World, v: Option<Cluster>)
    requires !w.hub.Live() && Trails(w.hub, w.cache) && Held(w) && v in w.cache.clusters && ReleasesNamespace(v)
    ensures OnlyImportLeft(w.hub.cluster) && w.completed
  {
  }

  /** The namespace controller goes on only when the cluster it is shown, and so the current one, is released. */
  lemma GoingOnIsReleased(w: World, w': World)
    requires Protected(w) && Moves(w, w')
    requires w'.nsctl.NsActive? && w'.nsctl.clusterOk
    ensures OnlyImportLeft(w.hub.cluster) && w.completed
  {
    OthersLeaveNsControl(w, w');
    if !(w.nsctl.NsActive? && w.nsctl.clusterOk) {
      assert w.cache.clusters[0] in w.cache.clusters;
      ShownReleased(w, w.cache.clusters[0]);
    }
  }

  lemma StepKeepsNsControl(w: World, w': World)
    requires Protected(w) && Moves(w, w') && w'.nsctl.NsActive? && w'.nsctl.clusterOk
    ensures OnlyImportLeft(w'.hub.cluster) && w'.completed
  {
    GoingOnIsReleased(w, w');
    StepMovesCluster(w, w');
    OnlyImportStays(w.hub.cluster, w'.hub.cluster);
    CompletedStays(w, w');
  }

  lemma StepKeepsProtection(w: World, w': World)
    requires Protected(w) && Moves(w, w') && Feeds(w, w')
    ensures Protected(w')
  {
    StepTrails(w, w');
    StepMovesCluster(w, w');
    StepKeepsHeld(w, w');
    if w'.nsctl.NsActive? && w'.nsctl.clusterOk {
      StepKeepsNsControl(w, w');
    }
  }

  lemma ProtectedFromThenOn(run: seq<World>, e: nat, i: nat)
    requires IsRun(run) && e <= i < |run| && Protected(run[e])
    ensures Protected(run[i])
  {
    forall w, w' | Protected(w) && Step(w, w') ensures Protected(w') {
      StepKeepsProtection(w, w');
    }
    RunSteps(run);
    Induction(run, e, i, Protected, Step);
  }

  lemma {:induction false} CompletedInBetween(run: seq<World>, e: nat, i: nat)
    requires IsRun(run) && e <= i < |run|
    ensures run[i].completed && !run[e].completed ==> exists j :: e < j <= i && run[j].last == Acts(DropFinalizers)
  {
    if i > e {
      CompletedInBetween(run, e, i - 1);
      assert StepAt(run, i);
      CompletedStays(run[i - 1], run[i]);
    }
  }

  lemma AddonsSeen(w: World, w': World)
    requires Moves(w, w') && NoAddonMissed(w)
    ensures w'.nsctl.NsActive? && w'.nsctl.addonsOk ==> w.hub.addons == map[]
  {
    OthersLeaveNsControl(w, w');
    if w.cache.addons != [] {
      assert w.cache.addons[0] in w.cache.addons;
    }
  }

  lemma StepMissesNoAddon(w: World, w': World)
    requires Moves(w, w') && Feeds(w, w') && !w.hub.Live() && Follows(w.cache, w.hub) && NoAddonMissed(w)
    ensures NoAddonMissed(w')
  {
    StepShrinks(w, w');
    AddonsSeen(w, w');
    if w'.last.CacheSync? {
      SyncLeavesHub(w, w');
    }
    StepFeedsCache(w, w');
    assert w.hub.addons == map[] ==> w'.hub.addons == map[];
  }

  lemma NoAddonMissedFromThenOn(run: seq<World>, e: nat, i: nat)
    requires IsRun(run) && e <= i < |run| && !run[e].hub.Live() && NoAddonMissed(run[e])
    ensures NoAddonMissed(run[i])
  {
    var P := (w: World) => !w.hub.Live() && Trails(w.hub, w.cache) && NoAddonMissed(w);
    forall w, w' | P(w) && Step(w, w') ensures P(w') {
      StepMissesNoAddon(w, w');
      StepTrails(w, w');
      StepMovesCluster(w, w');
    }
    TrailsThroughout(run, e);
    RunSteps(run);
    Induction(run, e, i, P, Step);
  }

  lemma DeletedAfterLooking(w: World, w': World)
    requires Moves(w, w') && w'.last == Deletes(NsDelete)
    ensures w.nsctl == NsActive(true, true)
  {
  }

  lemma ReleasedByThen(run: seq<World>, e: nat, i: nat)
    requires IsRun(run) && e < i < |run| && Protected(run[e]) && run[i].last == Deletes(NsDelete)
    ensures run[i - 1].completed && OnlyImportLeft(run[i - 1].hub.cluster)
  {
    ProtectedFromThenOn(run, e, i - 1);
    assert StepAt(run, i);
    DeletedAfterLooking(run[i - 1], run[i]);
  }

  lemma AddonsGoneByThen(run: seq<World>, e: nat, i: nat)
    requires IsRun(run) && e < i < |run| && !run[e].hub.Live() && NoAddonMissed(run[e]) && run[i].last == Deletes(NsDelete)
    ensures run[i - 1].hub.addons == map[]
  {
    NoAddonMissedFromThenOn(run, e, i - 1);
    assert StepAt(run, i);
    DeletedAfterLooking(run[i - 1], run[i]);
  }

  // ---- the theorems ----

  /**
   From a protected state on, the namespace is deleted only after a cleanup has
   completed, with no finalizer but the import one left, and, unless the cache hides
   addons, with every addon gone.
   */
  lemma NamespaceWaitsForCleanup(run: seq<World>, e: nat, i: nat)
    requires IsRun(run) && e < i < |run| && Protected(run[e])
    requires run[i].last == Deletes(NsDelete)
    ensures run[i - 1].completed
    ensures !run[e].completed ==> exists j :: e < j < i && run[j].last == Acts(DropFinalizers)
    ensures OnlyImportLeft(run[i - 1].hub.cluster)
    ensures NoAddonMissed(run[e]) ==> run[i - 1].hub.addons == map[]
  {
    ReleasedByThen(run, e, i);
    CompletedInBetween(run, e, i - 1);
    if NoAddonMissed(run[e]) {
      AddonsGoneByThen(run, e, i);
    }
  }

  /** The namespace can be deleted and its controller is between reconciles. */
  predicate NamespaceReady(w: World) {
    w.nsctl.NsIdle? && Concerns(w.hub.ns)
  }

  // ---- without protection the namespace can be lost ----

  /** `v` differs from `w` only in the cluster, its cache and the controllers that patch it. */
  predicate OnlyPatchersMoved(w: World, v: World) {
    && v == w.(hub := v.hub, cache := v.cache, applier := v.applier, metaPlan := v.metaPlan, last := v.last)
    && v.hub == w.hub.(cluster := v.hub.cluster)
  }

  /** A controller starts from a stale reading in the cache. */
  lemma TakeStaleReading(run: seq<World>, v: Option<Cluster>) returns (ext: seq<World>)
    requires IsRun(run) && Last(run).hub.cluster.Some? && v in Last(run).cache.clusters
    requires Misleads(Last(run).hub.cluster.value, v) && !ReleasesNamespace(v)
    ensures IsRun(ext) && run <= ext && OnlyPatchersMoved(Last(run), Last(ext))
    ensures Last(ext).hub == Last(run).hub
    ensures InFlight(Last(ext).hub.cluster.value, Last(ext).metaPlan, Last(ext).applier)
  {
    Followed(run);
    ext := EndApplier(run);
    ext := EndMeta(ext);
    Followed(ext);
    var k := Last(ext).cache;
    ext := Show(ext, v, k.addons[0], k.bindings[0]);
    Followed(ext);
    if Starts(v) && ReadingClobbers(Last(run).hub.cluster.value, v.value) {
      ext := ApplierMove(ext, ApplierBegin, Last(ext).hub, Read(v.value));
    } else {
      ext := Ponder(ext, Last(ext).(metaPlan := Some(v.value.obj.finalizers + [Import]), last := Tags(MetaBegin)));
    }
  }

  /** The applier, if it has yet to plan, plans on a stale count of no works. */
  lemma ApplierPlans(run: seq<World>) returns (ext: seq<World>)
    requires IsRun(run) && Last(run).hub.cluster.Some?
    requires var w := Last(run);
             InFlight(w.hub.cluster.value, None, w.applier)
    ensures IsRun(ext) && run <= ext
    ensures var w, u := Last(run), Last(ext);
            && u == w.(applier := u.applier, last := u.last)
            && u.applier.Patching? && Clobbers(w.hub.cluster.value, u.applier.plan)
  {
    Followed(run);
    var w := Last(run);
    ext := run;
    if w.applier.Read? {
      var plan := Without(w.applier.seen.obj.finalizers, {ManifestWork});
      ext := ApplierMove(run, ApplierPlan(0), w.hub, Patching(w.applier.seen, plan));
    }
  }

  /** The cluster after the late patch. */
  predicate Unprotected(c: Option<Cluster>) {
    c.Some? ==> c.value.obj.deleting && !Blocks(c.value.obj.finalizers)
  }

  lemma ApplierClobbers(run: seq<World>) returns (ext: seq<World>)
    requires IsRun(run)
    requires var u := Last(run);
             && u.hub.cluster.Some? && u.hub.cluster.value.obj.deleting
             && u.applier.Patching? && Clobbers(u.hub.cluster.value, u.applier.plan)
    ensures IsRun(ext) && run <= ext && OnlyPatchersMoved(Last(run), Last(ext)) && Unprotected(Last(ext).hub.cluster)
  {
    var u := Last(run);
    var c := u.hub.cluster.value;
    Followed(run);
    var h' := u.hub.(cluster := PutCluster(c, Patched(c.obj, u.applier.plan)));
    ext := ApplierMove(run, ApplierPatch, h', Applying(u.applier.seen));
  }

  lemma MetaClobbers(run: seq<World>) returns (ext: seq<World>)
    requires IsRun(run)
    requires var u := Last(run);
             && u.hub.cluster.Some? && u.hub.cluster.value.obj.deleting
             && u.metaPlan.Some? && Clobbers(u.hub.cluster.value, u.metaPlan.value)
    ensures IsRun(ext) && run <= ext && OnlyPatchersMoved(Last(run), Last(ext)) && Unprotected(Last(ext).hub.cluster)
  {
    var u := Last(run);
    var c := u.hub.cluster.value;
    Followed(run);
    var h' := u.hub.(cluster := PutCluster(c, Patched(c.obj, u.metaPlan.value)));
    ext := Put(run, u.(hub := h', cache := Watched(u.cache, h'), metaPlan := None, last := Tags(MetaPatch)));
  }

  /** The late patch lands: the finalizers are gone although no cleanup has run. */
  lemma ClobberNow(run: seq<World>) returns (ext: seq<World>)
    requires IsRun(run)
    requires var w := Last(run);
             && w.hub.cluster.Some? && w.hub.cluster.value.obj.deleting
             && InFlight(w.hub.cluster.value, w.metaPlan, w.applier)
    ensures IsRun(ext) && run <= ext && OnlyPatchersMoved(Last(run), Last(ext)) && Unprotected(Last(ext).hub.cluster)
  {
    var w := Last(run);
    if w.metaPlan.Some? && Clobbers(w.hub.cluster.value, w.metaPlan.value) {
      ext := MetaClobbers(run);
    } else {
      ext := ApplierPlans(run);
      ext := ApplierClobbers(ext);
    }
  }

  lemma {:induction false} OnlyImportsRemain(fs: seq<Finalizer>, gone: set<Finalizer>)
    requires Import !in gone && forall f | f in fs && f != Import :: f in gone
    ensures Without(fs, gone) == Only(fs, {Import})
  {
    if fs != [] {
      assert forall f | f in fs[1..] :: f in fs;
      assert fs[0] in fs;
      OnlyImportsRemain(fs[1..], gone);
    }
  }

  /** What the other owners leave of an unprotected cluster. */
  lemma OthersLeave(c: Cluster) returns (gone: set<Finalizer>, left: seq<Finalizer>)
    requires !Blocks(c.obj.finalizers)
    ensures gone !! OwnFinalizers && left == Without(c.obj.finalizers, gone) && (left == [] || left == [Import])
  {
    gone := set f | f in c.obj.finalizers && f != Import;
    OnlyImportsRemain(c.obj.finalizers, gone);
    left := Without(c.obj.finalizers, gone);
    assert |left| <= 1 && forall f | f in left :: f == Import;
    assert left == [] || (left[0] in left && left == [Import]);
  }

  /** The other owners let go, and the cluster no longer holds the namespace back. */
  lemma OthersLetGo(run: seq<World>) returns (ext: seq<World>)
    requires IsRun(run) && Unprotected(Last(run).hub.cluster)
    ensures IsRun(ext) && run <= ext && OnlyPatchersMoved(Last(run), Last(ext)) && ReleasesNamespace(Last(ext).hub.cluster)
  {
    var w := Last(run);
    ext := run;
    if w.hub.cluster.Some? {
      Followed(run);
      var c := w.hub.cluster.value;
      var gone, left := OthersLeave(c);
      var h' := w.hub.(cluster := if left == [] then None else Some(c.(obj := Obj(left, true))));
      assert EnvMoves(w.hub, h', gone);
      ext := EnvMove(run, gone, h');
    }
  }

  /** The namespace controller reads a cluster that does not hold it back. */
  lemma ReadReleased(run: seq<World>) returns (ext: seq<World>)
    requires IsRun(run) && Last(run).nsctl.NsIdle?
    requires var k := Last(run).cache; Follows(k, Last(run).hub) && Concerns(k.namespaces[0]) && ReleasesNamespace(k.clusters[0])
    ensures IsRun(ext) && run <= ext && Last(ext) == Last(run).(nsctl := NsActive(true, false), last := Deletes(NsSawCluster))
  {
    Followed(run);
    ext := NsMove(run, NsBegin, Last(run).hub, NsActive(false, false));
    ext := NsMove(ext, NsSawCluster, Last(ext).hub, NsActive(true, false));
  }

  lemma DeletesNamespace(run: seq<World>) returns (ext: seq<World>)
    requires IsRun(run) && Last(run).nsctl == NsActive(true, true) && Last(run).hub.ns.Some?
    ensures IsRun(ext) && run <= ext && |ext| == |run| + 1 && Last(ext).last == Deletes(NsDelete)
  {
    var h := Last(run).hub;
    ext := NsMove(run, NsDelete, h.(ns := Some(h.ns.value.(deleting := true))), NsActive(true, true));
  }

  /** The addons go, and the cache shows it. */
  lemma AddonsGo(run: seq<World>) returns (ext: seq<World>)
    requires IsRun(run) && !Last(run).hub.Live()
    ensures IsRun(ext) && run <= ext
    ensures var h := Last(run).hub.(addons := map[]); Last(ext) == Last(run).(hub := h, cache := UpToDate(h), last := CacheSync)
  {
    ext := SomeGoes(run, Last(run).hub.(addons := map[]));
    ext := Refresh(ext);
  }

  lemma NamespaceGoesOn(run: seq<World>) returns (ext: seq<World>)
    requires IsRun(run) && Last(run).nsctl == NsActive(true, false) && Last(run).hub.ns.Some? && !Last(run).hub.Live()
    ensures IsRun(ext) && run <= ext && |ext| > |run| && Last(ext).last == Deletes(NsDelete)
    ensures ext[|ext| - 2].completed == Last(run).completed
  {
    ext := AddonsGo(run);
    Followed(ext);
    ext := NsMove(ext, NsSawAddons, Last(ext).hub, NsActive(true, true));
    ext := DeletesNamespace(ext);
  }

  /** Once the cluster is unprotected the namespace may go. */
  lemma NamespaceGoes(run: seq<World>) returns (ext: seq<World>)
    requires IsRun(run) && NamespaceReady(Last(run)) && Unprotected(Last(run).hub.cluster)
    ensures IsRun(ext) && run <= ext && |ext| > |run| && Last(ext).last == Deletes(NsDelete)
    ensures ext[|ext| - 2].completed == Last(run).completed
  {
    ext := OthersLetGo(run);
    ext := Refresh(ext);
    ext := ReadReleased(ext);
    ext := NamespaceGoesOn(ext);
  }

  /** The controller is shown a state that frees the namespace. */
  lemma MisreadRelease(run: seq<World>, v: Option<Cluster>) returns (ext: seq<World>)
    requires IsRun(run) && NamespaceReady(Last(run)) && !Last(run).hub.Live()
    requires v in Last(run).cache.clusters && ReleasesNamespace(v)
    ensures IsRun(ext) && run <= ext && |ext| > |run| && Last(ext).last == Deletes(NsDelete)
    ensures ext[|ext| - 2].completed == Last(run).completed
  {
    Followed(run);
    var k := Last(run).cache;
    ext := Show(run, v, k.addons[0], k.bindings[0]);
    ext := ReadReleased(ext);
    ext := NamespaceGoesOn(ext);
  }

  /** Without protection the namespace may go although no cleanup ever completed. */
  lemma UnheldNamespaceIsLost(run: seq<World>) returns (ext: seq<World>)
    requires IsRun(run) && !Last(run).hub.Live() && NamespaceReady(Last(run)) && !Held(Last(run))
    ensures IsRun(ext) && run <= ext && |ext| > |run|
    ensures Last(ext).last == Deletes(NsDelete) && !ext[|ext| - 2].completed
  {
    var w := Last(run);
    if Unprotected(w.hub.cluster) {
      ext := NamespaceGoes(run);
    } else if InFlight(w.hub.cluster.value, w.metaPlan, w.applier) {
      ext := ClobberNow(run);
      ext := NamespaceGoes(ext);
    } else {
      var v :| v in w.cache.clusters && Misleads(w.hub.cluster.value, v);
      if ReleasesNamespace(v) {
        ext := MisreadRelease(run, v);
      } else {
        ext := TakeStaleReading(run, v);
        ext := ClobberNow(ext);
        ext := NamespaceGoes(ext);
      }
    }
  }

  /** Every continuation of `run` deletes the namespace only after a cleanup has completed. */
  ghost predicate AlwaysWaits(run: seq<World>) {
    forall ext: seq<World>, i: nat ::
      IsRun(ext) && run <= ext && 0 < |run| <= i < |ext| && ext[i].last == Deletes(NsDelete) ==> ext[i - 1].completed
  }

  /**
   The exact condition at any moment after the deletion: a cleanup has completed, or
   the finalizers hold the namespace and no reading in flight or in the cache can undo that.
   */
  lemma NamespaceSafeExactlyWhenNoStalePatch(run: seq<World>)
    requires IsRun(run) && !Last(run).hub.Live() && NamespaceReady(Last(run))
    ensures AlwaysWaits(run) <==> Held(Last(run))
  {
    if Held(Last(run)) {
      Followed(run);
      forall ext: seq<World>, i: nat | IsRun(ext) && run <= ext && |run| <= i < |ext| && ext[i].last == Deletes(NsDelete)
        ensures ext[i - 1].completed
      {
        assert ext[|run| - 1] == Last(run);
        NamespaceWaitsForCleanup(ext, |run| - 1, i);
      }
    } else {
      var ext := UnheldNamespaceIsLost(run);
      assert IsRun(ext) && run <= ext && |run| <= |ext| - 1 < |ext| && ext[|ext| - 1].last == Deletes(NsDelete);
    }
  }

  /**
   At the deletion itself the cache still shows the live cluster, so the finalizers do
   not hold the namespace yet, with or without the manifestwork one among them. The
   exceptions are a list that names the import finalizer twice, and a cluster that no
   applier cares for.
   */
  lemma DeletionIsExposed(run: seq<World>)
    requires IsRun(run) && |run| > 1 && Last(run).last.UserDelete?
    requires Last(run).hub.cluster.Some? ==>
               var c := Last(run).hub.cluster.value;
               |Only(c.obj.finalizers, {Import})| <= 1 && (ManifestWork in c.obj.finalizers ==> c.HasApplier())
    ensures !Held(Last(run))
  {
    var w, w' := run[|run| - 2], Last(run);
    assert StepAt(run, |run| - 1);
    UntouchedThroughout(run, |run| - 2);
    var v := w.hub.cluster;
    assert v in w.cache.clusters && v in w'.cache.clusters;
    if w'.hub.cluster.Some? && ManifestWork in v.value.obj.finalizers {
      LiveReadingMisleads(v.value, w'.hub.cluster.value);
    }
  }

  /** A live reading of a cluster misleads once the cluster is marked. */
  lemma LiveReadingMisleads(v: Cluster, c: Cluster)
    requires !v.obj.deleting && c == v.(obj := Obj(v.obj.finalizers, true)) && v.HasApplier()
    requires ManifestWork in v.obj.finalizers && |Only(v.obj.finalizers, {Import})| <= 1
    ensures Misleads(c, Some(v))
  {
    OnlyImportsKept(v.obj.finalizers, {ManifestWork});
  }
}
