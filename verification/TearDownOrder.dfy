/**
 The order of the tear-down: which works the cleanup deletes only after which others,
 and exactly when a late work or a lagging cache can break that order.
 */
module TearDownOrder {
  import opened Common
  import opened Kube
  import opened DetachProtocol
  import opened DetachSteps
  import opened DetachRuns
  import opened DetachSafety

  // ---- who may still write where ----

  datatype Place = Own | There(hosting: string)

  /** A work written for `seen` lands in this place. */
  predicate Targets(h: Hub, seen: Cluster, p: Place) {
    match p
    case Own => (seen.mode.Default? || seen.hosting == h.name) && Open(h)
    case There(x) => !seen.mode.Default? && seen.hosting == x && (x == h.name ==> Open(h))
  }

  /** The reconcile in flight will still reach the point where it applies works. */
  predicate Reaches(h: Hub, a: Applier) {
    a.Read? || a.Applying? || (a.Patching? && h.cluster.Some? && Accepts(h.cluster.value.obj, a.plan))
  }

  predicate MayWrite(w: World, p: Place) {
    || (Reaches(w.hub, w.applier) && Targets(w.hub, w.applier.seen, p))
    || exists v | v in w.cache.clusters :: Starts(v) && Targets(w.hub, v.value, p)
  }

  lemma TargetsEarlier(h: Hub, h': Hub, seen: Cluster, p: Place)
    requires RestShrinks(h, h') && Targets(h', seen, p)
    ensures Targets(h, seen, p)
  {
  }

  lemma ReachesFrom(e: ApplierEvent, h: Hub, k: Cache, a: Applier, h': Hub, a': Applier)
    requires ApplierMoves(e, h, k, a, h', a') && ClusterMoves(h.cluster, h'.cluster) && !h.Live() && Reaches(h', a')
    ensures (Reaches(h, a) && a'.seen == a.seen) || (Some(a'.seen) in k.clusters && Starts(Some(a'.seen)))
  {
    if e.ApplierBegin? {
      assert k.clusters[0] in k.clusters;
    }
  }

  lemma ReachedBefore(h: Hub, h': Hub, a: Applier)
    requires ClusterMoves(h.cluster, h'.cluster) && !h.Live() && Reaches(h', a)
    ensures Reaches(h, a)
  {
  }

  /** Who may write after a step could have before it. */
  lemma MayWriteEarlier(w: World, w': World, p: Place)
    requires Moves(w, w') && Feeds(w, w') && !w.hub.Live() && Follows(w.cache, w.hub) && MayWrite(w', p)
    ensures MayWrite(w, p)
  {
    StepMovesCluster(w, w');
    StepShrinks(w, w');
    if w'.last.CacheSync? {
      SyncLeavesHub(w, w');
    }
    StepFeedsCache(w, w');
    OthersLeaveAdders(w, w');
    if v :| v in w'.cache.clusters && Starts(v) && Targets(w'.hub, v.value, p) {
      TargetsEarlier(w.hub, w'.hub, v.value, p);
    } else {
      TargetsEarlier(w.hub, w'.hub, w'.applier.seen, p);
      if w'.last.Applies? {
        ReachesFrom(w'.last.applier, w.hub, w.cache, w.applier, w'.hub, w'.applier);
      } else {
        ReachedBefore(w.hub, w'.hub, w.applier);
      }
    }
  }

  /** A step that creates a work somewhere is one of a controller that may write there. */
  predicate Creates(w: World, w': World, key: Key) {
    && w'.last == Applies(ApplierCreate(key)) && w.applier.Applying?
    && CreatesWork(w.hub, w'.hub, w.applier.seen, key)
  }

  lemma NewWorkIsCreated(w: World, w': World)
    requires Moves(w, w') && !w.hub.Live()
    ensures WorksShrink(w.hub.works, w'.hub.works) || exists key | key in w'.hub.works :: Creates(w, w', key)
  {
    StepShrinks(w, w');
    OthersLeaveAdders(w, w');
    if w'.last.Applies? && w'.last.applier.ApplierCreate? {
      assert Creates(w, w', w'.last.applier.key);
    }
  }

  /** The cache may show that there are no addons although there are. */
  predicate HidesAddons(h: Hub, k: Cache) {
    h.addons != map[] && map[] in k.addons
  }

  /** The cleanup takes the addons for gone, or may yet. */
  predicate Fooled(w: World) {
    w.hub.addons != map[] && ((w.cleanup.Active? && w.cleanup.noAddons) || map[] in w.cache.addons)
  }

  lemma FooledEarlier(w: World, w': World)
    requires Moves(w, w') && Feeds(w, w') && !w.hub.Live() && Follows(w.cache, w.hub) && Fooled(w')
    ensures Fooled(w)
  {
    StepShrinks(w, w');
    if w'.last.CacheSync? {
      SyncLeavesHub(w, w');
    }
    StepFeedsCache(w, w');
    assert w.hub.addons == map[] ==> w'.hub.addons == map[];
    if w'.last.Looks? {
      LookLeavesRest(w, w');
      if w'.cleanup.Active? && w'.cleanup.noAddons {
        FooledByLook(w'.last.look, w.hub, w.cache, w.cleanup, w'.cleanup);
      }
    } else {
      OthersLeaveCleanup(w, w');
    }
  }

  lemma FooledByLook(e: Look, h: Hub, k: Cache, c: Cleanup, c': Cleanup)
    requires CleanupLooks(e, h, k, c, c') && c'.Active? && c'.noAddons
    ensures (c.Active? && c.noAddons) || map[] in k.addons
  {
    if e.SawAddons? {
      assert k.addons[0] in k.addons;
    }
  }

  /** A reading of a cluster that is being deleted. */
  predicate Marked(v: Option<Cluster>) {
    v.Some? && v.value.obj.deleting
  }

  /** What the cache shows of a deleting cluster it showed before, up to what cannot change any more. */
  lemma MarkedBefore(w: World, w': World, v: Option<Cluster>)
    requires Moves(w, w') && Feeds(w, w') && !w.hub.Live() && Follows(w.cache, w.hub) && v in w'.cache.clusters && Marked(v)
    ensures v in w.cache.clusters
            || (Marked(w.hub.cluster) && w.hub.cluster in w.cache.clusters && SameMode(w.hub.cluster.value, v.value))
  {
    StepMovesCluster(w, w');
    if w'.last.CacheSync? {
      SyncLeavesHub(w, w');
    }
    StepFeedsCache(w, w');
  }

  // ---- works in the hosting namespace ----

  /** The cleanup may delete this hosting work now. */
  predicate InOrder(h: Hub, hosting: string, n: WorkName) {
    && h.addons == map[]
    && (n == HostedKlusterlet ==> h.HostingWithin(hosting, {HostedKlusterlet, HostedKubeconfig}))
    && (n == HostedKubeconfig ==> h.HostingWithin(hosting, {HostedKubeconfig}))
  }

  /** A late work may come to this hosting namespace, or a cleanup may not see the addons while works are left there. */
  predicate DisorderAt(w: World, hosting: string) {
    MayWrite(w, There(hosting)) || (HidesAddons(w.hub, w.cache) && !w.hub.HostingWithin(hosting, {}))
  }

  predicate CanDisorder(w: World) {
    exists v | v in w.cache.clusters :: Marked(v) && v.value.OnHosting() && DisorderAt(w, v.value.hosting)
  }

  /** What the cleanup knows of the hosting namespace is enough to keep the order. */
  predicate OrderHolds(w: World) {
    w.cleanup.Active? && w.cleanup.seen.OnHosting() ==>
      var x := w.cleanup.seen.hosting;
      && !MayWrite(w, There(x))
      && (Fooled(w) ==> w.hub.HostingWithin(x, {}) && w.cleanup.hostingSeen in {None, Some({})})
      && (w.cleanup.hostingSeen.Some? ==> w.hub.HostingWithin(x, w.cleanup.hostingSeen.value))
  }

  predicate Ordered(w: World) {
    !w.hub.Live() && Trails(w.hub, w.cache) && !CanDisorder(w) && OrderHolds(w)
  }

  lemma WithinStays(w: World, w': World, x: string, names: set<WorkName>)
    requires Moves(w, w') && !w.hub.Live() && !MayWrite(w, There(x)) && w.hub.HostingWithin(x, names)
    ensures w'.hub.HostingWithin(x, names)
  {
    StepShrinks(w, w');
    NewWorkIsCreated(w, w');
    if key :| key in w'.hub.works && Creates(w, w', key) {
      assert !Targets(w.hub, w.applier.seen, There(x));
    }
  }

  lemma DisorderEarlier(w: World, w': World, x: string)
    requires Moves(w, w') && Feeds(w, w') && !w.hub.Live() && Follows(w.cache, w.hub) && DisorderAt(w', x)
    ensures DisorderAt(w, x)
  {
    if MayWrite(w', There(x)) {
      MayWriteEarlier(w, w', There(x));
    } else if !MayWrite(w, There(x)) {
      HiddenEarlier(w, w');
      if w.hub.HostingWithin(x, {}) {
        WithinStays(w, w', x, {});
      }
    }
  }

  lemma HiddenEarlier(w: World, w': World)
    requires Moves(w, w') && Feeds(w, w') && !w.hub.Live() && Follows(w.cache, w.hub) && HidesAddons(w'.hub, w'.cache)
    ensures HidesAddons(w.hub, w.cache)
  {
    StepShrinks(w, w');
    if w'.last.CacheSync? {
      SyncLeavesHub(w, w');
    }
    StepFeedsCache(w, w');
    assert w.hub.addons == map[] ==> w'.hub.addons == map[];
  }

  lemma CanDisorderEarlier(w: World, w': World)
    requires Moves(w, w') && Feeds(w, w') && !w.hub.Live() && Follows(w.cache, w.hub) && CanDisorder(w')
    ensures CanDisorder(w)
  {
    var v :| v in w'.cache.clusters && Marked(v) && v.value.OnHosting() && DisorderAt(w', v.value.hosting);
    DisorderEarlier(w, w', v.value.hosting);
    MarkedBefore(w, w', v);
  }

  lemma LookKeepsOrder(w: World, w': World)
    requires Ordered(w) && Moves(w, w') && w'.last.Looks? && w'.cleanup.Active? && w'.cleanup.seen.OnHosting()
    requires w'.cache == w.cache
    ensures OrderHolds(w')
  {
    LookLeavesRest(w, w');
    var x := w'.cleanup.seen.hosting;
    assert MayWrite(w', There(x)) <==> MayWrite(w, There(x)) by {
      OthersLeaveAdders(w, w');
    }
    match w'.last.look {
      case CleanupBegin =>
        var v := w.cache.clusters[0];
        assert v in w.cache.clusters && Marked(v) && v.value.hosting == x;
        assert !DisorderAt(w, x);
      case SawAddons =>
        if w'.cleanup.noAddons {
          FooledByLook(SawAddons, w.hub, w.cache, w.cleanup, w'.cleanup);
        }
      case SawHosting =>
        if Fooled(w') {
          NoneFound(w.hub, x, w'.cleanup.hostingSeen.value);
        }
      case _ =>
    }
  }

  lemma NoneFound(h: Hub, x: string, names: set<WorkName>)
    requires h.HostingNames(x, names) && h.HostingWithin(x, {})
    ensures names == {}
  {
    assert forall n | n in names :: h.IsHostingWork(x, Key(x, n));
  }

  lemma OthersKeepOrder(w: World, w': World)
    requires Ordered(w) && Moves(w, w') && Feeds(w, w') && !w'.last.Looks? && w'.cleanup.Active? && w'.cleanup.seen.OnHosting()
    ensures OrderHolds(w')
  {
    OthersLeaveCleanup(w, w');
    var c := w.cleanup;
    var x := c.seen.hosting;
    if MayWrite(w', There(x)) {
      MayWriteEarlier(w, w', There(x));
    }
    if Fooled(w') {
      FooledEarlier(w, w');
      WithinStays(w, w', x, {});
    }
    if c.hostingSeen.Some? {
      WithinStays(w, w', x, c.hostingSeen.value);
    }
  }

  lemma StepKeepsOrder(w: World, w': World)
    requires Ordered(w) && Moves(w, w') && Feeds(w, w')
    ensures Ordered(w')
  {
    StepTrails(w, w');
    StepMovesCluster(w, w');
    if CanDisorder(w') {
      CanDisorderEarlier(w, w');
    }
    if w'.cleanup.Active? && w'.cleanup.seen.OnHosting() {
      if w'.last.Looks? {
        LookLeavesRest(w, w');
        NothingToWatch(w.cache, w.hub);
        LookKeepsOrder(w, w');
      } else {
        OthersKeepOrder(w, w');
      }
    }
  }

  lemma OrderedFromThenOn(run: seq<World>, e: nat, i: nat)
    requires IsRun(run) && e <= i < |run| && Ordered(run[e])
    ensures Ordered(run[i])
  {
    forall w, w' | Ordered(w) && Step(w, w') ensures Ordered(w') {
      StepKeepsOrder(w, w');
    }
    RunSteps(run);
    Induction(run, e, i, Ordered, Step);
  }

  lemma OrderedDelete(w: World, w': World, n: WorkName)
    requires Ordered(w) && Moves(w, w') && w'.last == Acts(DeleteHosting(n))
    ensures w.cleanup.Active? && InOrder(w.hub, w.cleanup.seen.hosting, n)
  {
    ActIsMeant(w, w');
    assert !Fooled(w);
  }

  // ---- breaking the order ----

  /** The last state deletes a hosting work whose turn it is not. */
  predicate Disorders(ext: seq<World>) {
    && |ext| > 1 && Last(ext).last.Acts? && Last(ext).last.act.DeleteHosting?
    && var w := ext[|ext| - 2];
       w.cleanup.Active? && !InOrder(w.hub, w.cleanup.seen.hosting, Last(ext).last.act.hostingWork)
  }

  /** The cleanup begins with a reading in the cache, sees no addons and lists the hosting works. */
  lemma ListsHosting(run: seq<World>, v: Option<Cluster>) returns (ext: seq<World>)
    requires IsRun(run) && Last(run).cleanup.Idle? && v in Last(run).cache.clusters && Marked(v)
    requires map[] in Last(run).cache.addons
    ensures IsRun(ext) && run <= ext
    ensures var w, u := Last(run), Last(ext);
            && u == w.(cache := u.cache, cleanup := u.cleanup, last := u.last)
            && u.cleanup.Active? && u.cleanup.seen == v.value && u.cleanup.noAddons
            && u.cleanup.hostingSeen == Some(HostingSet(w.hub, v.value.hosting))
  {
    Followed(run);
    ext := Show(run, v, map[], Last(run).cache.bindings[0]);
    ext := LookNow(ext, CleanupBegin, Begun(v));
    var c := Begun(v).(noAddons := true);
    ext := LookNow(ext, SawAddons, c);
    var names := HostingSet(Last(ext).hub, v.value.hosting);
    ext := LookNow(ext, SawHosting, c.(noHosting := c.noHosting || names == {}, hostingSeen := Some(names)));
  }

  lemma DeletesNow(run: seq<World>, n: WorkName) returns (ext: seq<World>)
    requires IsRun(run) && MayDeleteHosting(Last(run).cleanup, n) && Key(Last(run).cleanup.seen.hosting, n) in Last(run).hub.works
    requires !InOrder(Last(run).hub, Last(run).cleanup.seen.hosting, n)
    ensures IsRun(ext) && run <= ext && |ext| > |run| && Disorders(ext)
  {
    var w := Last(run);
    var key := Key(w.cleanup.seen.hosting, n);
    var h' := w.hub.(works := PutWork(w.hub.works, key, Deleted(w.hub.works[key].obj)));
    ext := ActNow(run, DeleteHosting(n), h');
  }

  /** The work whose turn it is. */
  lemma SomeTurn(h: Hub, x: string, names: set<WorkName>) returns (n: WorkName)
    requires h.HostingNames(x, names) && !h.HostingWithin(x, {})
    ensures n in names && Key(x, n) in h.works
    ensures n == HostedKlusterlet ==> names <= {HostedKlusterlet, HostedKubeconfig}
    ensures n == HostedKubeconfig ==> names <= {HostedKubeconfig}
  {
    var k :| k in h.works && h.IsHostingWork(x, k);
    n := k.name;
    if m :| m in names && m != HostedKlusterlet && m != HostedKubeconfig {
      n := m;
    } else if HostedKlusterlet in names {
      n := HostedKlusterlet;
    }
    assert h.IsHostingWork(x, Key(x, n));
  }

  lemma HiddenAddonsDisorder(run: seq<World>, v: Option<Cluster>) returns (ext: seq<World>)
    requires IsRun(run) && Last(run).cleanup.Idle? && v in Last(run).cache.clusters && Marked(v) && v.value.OnHosting()
    requires HidesAddons(Last(run).hub, Last(run).cache) && !Last(run).hub.HostingWithin(v.value.hosting, {})
    ensures IsRun(ext) && run <= ext && |ext| > |run| && Disorders(ext)
  {
    ext := ListsHosting(run, v);
    var n := SomeTurn(Last(run).hub, v.value.hosting, HostingSet(Last(run).hub, v.value.hosting));
    ext := DeletesNow(ext, n);
  }

  /** The states from a live one on contain every deleting one. */
  lemma MarkedIsLater(states: seq<Option<Cluster>>, later: seq<Option<Cluster>>, v: Option<Cluster>)
    requires CatchesUp(states, later) && LiveFirst(states) && IsLive(later[0]) && v in states && Marked(v)
    ensures v in later
  {
    var j :| 0 <= j < |states| && states[j] == v;
    var i := |states| - |later|;
    assert later[0] == states[i];
    assert i < j;
    assert later[j - i] == v;
  }

  /** The reconcile in flight reaches the point where it applies works; the cluster may be gone by then. */
  lemma ApplierGetsThere(run: seq<World>) returns (ext: seq<World>)
    requires IsRun(run) && !Last(run).hub.Live() && Reaches(Last(run).hub, Last(run).applier)
    ensures IsRun(ext) && run <= ext && !Last(ext).hub.Live()
    ensures var w, u := Last(run), Last(ext);
            && u == w.(hub := w.hub.(cluster := u.hub.cluster), cache := u.cache, applier := Applying(w.applier.seen), last := u.last)
            && forall v | v in w.cache.clusters :: v in u.cache.clusters
  {
    var w := Last(run);
    ext := run;
    if w.applier.Read? {
      var count := if ManifestWork in w.applier.seen.obj.finalizers then 1 else 0;
      ext := ApplierMove(run, ApplierPlan(count), w.hub, Applying(w.applier.seen));
    } else if w.applier.Patching? {
      var c := w.hub.cluster.value;
      var h' := w.hub.(cluster := PutCluster(c, Patched(c.obj, w.applier.plan)));
      ext := ApplierMove(run, ApplierPatch, h', Applying(w.applier.seen));
    }
  }

  /** An applier that can write in this place is brought to do so, and `v` can still be shown. */
  lemma WriterReady(run: seq<World>, v: Option<Cluster>, p: Place) returns (ext: seq<World>)
    requires IsRun(run) && !Last(run).hub.Live() && v in Last(run).cache.clusters && Marked(v) && MayWrite(Last(run), p)
    ensures IsRun(ext) && run <= ext && !Last(ext).hub.Live() && v in Last(ext).cache.clusters
    ensures var w, u := Last(run), Last(ext);
            && u == w.(hub := w.hub.(cluster := u.hub.cluster), cache := u.cache, applier := u.applier, last := u.last)
            && u.applier.Applying? && Targets(u.hub, u.applier.seen, p)
  {
    var w := Last(run);
    ext := run;
    if !(Reaches(w.hub, w.applier) && Targets(w.hub, w.applier.seen, p)) {
      var u :| u in w.cache.clusters && Starts(u) && Targets(w.hub, u.value, p);
      ext := StartsFrom(run, u);
      Followed(run);
      MarkedIsLater(w.cache.clusters, Last(ext).cache.clusters, v);
    }
    ext := ApplierGetsThere(ext);
  }

  lemma CreateThere(run: seq<World>, x: string, n: WorkName) returns (ext: seq<World>)
    requires IsRun(run) && Last(run).applier.Applying? && Targets(Last(run).hub, Last(run).applier.seen, There(x))
    requires Key(x, n) !in Last(run).hub.works
    ensures IsRun(ext) && run <= ext
    ensures var w, u := Last(run), Last(ext);
            && u == w.(hub := w.hub.(works := w.hub.works[Key(x, n) := Work(Obj([], false), Some(w.hub.name), false)]), cache := u.cache, last := u.last)
            && (forall v | v in w.cache.clusters :: v in u.cache.clusters) && (forall v | v in w.cache.addons :: v in u.cache.addons)
  {
    var w := Last(run);
    var h' := w.hub.(works := w.hub.works[Key(x, n) := Work(Obj([], false), Some(w.hub.name), false)]);
    ext := ApplierMove(run, ApplierCreate(Key(x, n)), h', w.applier);
  }

  /** Works and addons go; `v` can still be shown, and so can an empty list of addons. */
  lemma AllGone(run: seq<World>, v: Option<Cluster>) returns (ext: seq<World>)
    requires IsRun(run) && !Last(run).hub.Live() && v in Last(run).cache.clusters
    ensures IsRun(ext) && run <= ext && v in Last(ext).cache.clusters && map[] in Last(ext).cache.addons
    ensures var w, u := Last(run), Last(ext);
            u == w.(hub := w.hub.(works := map[], addons := map[]), cache := u.cache, last := u.last)
  {
    ext := SomeGoes(run, Last(run).hub.(works := map[], addons := map[]));
  }

  lemma LateWorkDisorders(run: seq<World>, v: Option<Cluster>) returns (ext: seq<World>)
    requires IsRun(run) && !Last(run).hub.Live() && Last(run).cleanup.Idle?
    requires v in Last(run).cache.clusters && Marked(v) && v.value.OnHosting() && MayWrite(Last(run), There(v.value.hosting))
    ensures IsRun(ext) && run <= ext && |ext| > |run| && Disorders(ext)
  {
    var x := v.value.hosting;
    ext := WriterReady(run, v, There(x));
    ext := AllGone(ext, v);
    ext := CreateThere(ext, x, HostedKubeconfig);
    OneHostingWork(Last(ext).hub, x, HostedKubeconfig);
    ext := ListsHosting(ext, v);
    ext := CreateThere(ext, x, HostedKlusterlet);
    assert Last(ext).hub.IsHostingWork(x, Key(x, HostedKlusterlet));
    ext := DeletesNow(ext, HostedKubeconfig);
  }

  lemma OneHostingWork(h: Hub, x: string, n: WorkName)
    requires h.works == map[Key(x, n) := Work(Obj([], false), Some(h.name), false)]
    ensures HostingSet(h, x) == {n}
  {
    assert h.IsHostingWork(x, Key(x, n));
  }

  // ---- the theorem ----

  /** Every continuation of `run` deletes hosting works in order only, whether or not the cluster object is there. */
  ghost predicate AlwaysInOrder(run: seq<World>) {
    forall ext: seq<World>, i: nat, n: WorkName ::
      IsRun(ext) && run <= ext && 0 < |run| <= i < |ext| && ext[i].last == Acts(DeleteHosting(n)) ==>
        ext[i - 1].cleanup.Active? && InOrder(ext[i - 1].hub, ext[i - 1].cleanup.seen.hosting, n)
  }

  lemma DisorderedRun(run: seq<World>) returns (ext: seq<World>)
    requires IsRun(run) && !Last(run).hub.Live() && Last(run).cleanup.Idle? && CanDisorder(Last(run))
    ensures IsRun(ext) && run <= ext && |ext| > |run| && Disorders(ext)
  {
    var w := Last(run);
    var v :| v in w.cache.clusters && Marked(v) && v.value.OnHosting() && DisorderAt(w, v.value.hosting);
    if MayWrite(w, There(v.value.hosting)) {
      ext := LateWorkDisorders(run, v);
    } else {
      ext := HiddenAddonsDisorder(run, v);
    }
  }

  lemma DeletedInOrder(run: seq<World>, e: nat, i: nat, n: WorkName)
    requires IsRun(run) && e < i < |run| && Ordered(run[e]) && run[i].last == Acts(DeleteHosting(n))
    ensures run[i - 1].cleanup.Active? && InOrder(run[i - 1].hub, run[i - 1].cleanup.seen.hosting, n)
  {
    OrderedFromThenOn(run, e, i - 1);
    assert StepAt(run, i);
    OrderedDelete(run[i - 1], run[i], n);
  }

  /** The exact condition for the hosting order, at any moment after the deletion at which the cleanup is between reconciles. */
  lemma HostingOrderExactlyWhenNoLateWork(run: seq<World>)
    requires IsRun(run) && !Last(run).hub.Live() && Last(run).cleanup.Idle?
    ensures AlwaysInOrder(run) <==> !CanDisorder(Last(run))
  {
    if CanDisorder(Last(run)) {
      var ext := DisorderedRun(run);
      var n := Last(ext).last.act.hostingWork;
      assert IsRun(ext) && run <= ext && 0 < |run| <= |ext| - 1 < |ext| && ext[|ext| - 1].last == Acts(DeleteHosting(n));
    } else {
      Followed(run);
      forall ext: seq<World>, i: nat, n: WorkName
        | IsRun(ext) && run <= ext && 0 < |run| <= i < |ext| && ext[i].last == Acts(DeleteHosting(n))
        ensures ext[i - 1].cleanup.Active? && InOrder(ext[i - 1].hub, ext[i - 1].cleanup.seen.hosting, n)
      {
        assert ext[|run| - 1] == Last(run);
        DeletedInOrder(ext, |run| - 1, i, n);
      }
    }
  }

  // ---- the orderly path strips the CRD work last ----

  /** No addon is left, and at most the CRD work. */
  predicate LastOfAll(h: Hub) {
    h.addons == map[] && h.WorksWithin({KlusterletCrds})
  }

  predicate CrdIsThere(h: Hub) {
    Key(h.name, KlusterletCrds) in h.works
  }

  /** A cleanup may yet take the orderly path. */
  predicate MayGoOrderly(w: World) {
    w.hub.cluster.Some? || exists v | v in w.cache.clusters :: Marked(v) && !v.value.NeedsForce()
  }

  /** A late work may come to the cluster's namespace, or a cleanup may not see the addons while the CRD work is there. */
  predicate CanMisforce(w: World) {
    MayGoOrderly(w) && (MayWrite(w, Own) || (HidesAddons(w.hub, w.cache) && CrdIsThere(w.hub)))
  }

  predicate ForceHolds(w: World) {
    w.cleanup.Active? && !w.cleanup.seen.NeedsForce() ==>
      && !MayWrite(w, Own)
      && (Fooled(w) ==> !CrdIsThere(w.hub))
      && (w.cleanup.crdReady ==> w.hub.WorksWithin({KlusterletCrds}))
  }

  predicate Patient(w: World) {
    !w.hub.Live() && Trails(w.hub, w.cache) && !CanMisforce(w) && ForceHolds(w)
  }

  lemma OwnStays(w: World, w': World)
    requires Moves(w, w') && !w.hub.Live() && !MayWrite(w, Own)
    ensures w'.hub.name == w.hub.name
    ensures forall k | k in w'.hub.works && k.ns == w.hub.name :: k in w.hub.works
  {
    StepShrinks(w, w');
    NewWorkIsCreated(w, w');
    if key :| key in w'.hub.works && Creates(w, w', key) {
      assert !Targets(w.hub, w.applier.seen, Own);
    }
  }

  lemma GoesOrderlyEarlier(w: World, w': World)
    requires Moves(w, w') && Feeds(w, w') && !w.hub.Live() && Follows(w.cache, w.hub) && MayGoOrderly(w')
    ensures MayGoOrderly(w)
  {
    StepMovesCluster(w, w');
    if v :| v in w'.cache.clusters && Marked(v) && !v.value.NeedsForce() {
      MarkedBefore(w, w', v);
    }
  }

  lemma CanMisforceEarlier(w: World, w': World)
    requires Moves(w, w') && Feeds(w, w') && !w.hub.Live() && Follows(w.cache, w.hub) && CanMisforce(w')
    ensures CanMisforce(w)
  {
    GoesOrderlyEarlier(w, w');
    if MayWrite(w', Own) {
      MayWriteEarlier(w, w', Own);
    } else if !MayWrite(w, Own) {
      HiddenEarlier(w, w');
      OwnStays(w, w');
    }
  }

  lemma LookKeepsPatience(w: World, w': World)
    requires Patient(w) && Moves(w, w') && w'.last.Looks? && w'.cleanup.Active? && !w'.cleanup.seen.NeedsForce()
    requires w'.cache == w.cache
    ensures ForceHolds(w')
  {
    LookLeavesRest(w, w');
    assert MayWrite(w', Own) <==> MayWrite(w, Own) by {
      OthersLeaveAdders(w, w');
    }
    if w'.last.look.CleanupBegin? {
      var v := w.cache.clusters[0];
      assert v in w.cache.clusters && Marked(v) && MayGoOrderly(w);
    } else if w'.cleanup.noAddons {
      FooledByLook(w'.last.look, w.hub, w.cache, w.cleanup, w'.cleanup);
    }
  }

  lemma OthersKeepPatience(w: World, w': World)
    requires Patient(w) && Moves(w, w') && Feeds(w, w') && !w'.last.Looks? && w'.cleanup.Active? && !w'.cleanup.seen.NeedsForce()
    ensures ForceHolds(w')
  {
    OthersLeaveCleanup(w, w');
    OwnStays(w, w');
    if MayWrite(w', Own) {
      MayWriteEarlier(w, w', Own);
    }
    if Fooled(w') {
      FooledEarlier(w, w');
    }
  }

  lemma StepKeepsPatience(w: World, w': World)
    requires Patient(w) && Moves(w, w') && Feeds(w, w')
    ensures Patient(w')
  {
    StepTrails(w, w');
    StepMovesCluster(w, w');
    if CanMisforce(w') {
      CanMisforceEarlier(w, w');
    }
    if w'.cleanup.Active? && !w'.cleanup.seen.NeedsForce() {
      if w'.last.Looks? {
        LookLeavesRest(w, w');
        NothingToWatch(w.cache, w.hub);
        LookKeepsPatience(w, w');
      } else {
        OthersKeepPatience(w, w');
      }
    }
  }

  lemma PatientFromThenOn(run: seq<World>, e: nat, i: nat)
    requires IsRun(run) && e <= i < |run| && Patient(run[e])
    ensures Patient(run[i])
  {
    forall w, w' | Patient(w) && Step(w, w') ensures Patient(w') {
      StepKeepsPatience(w, w');
    }
    RunSteps(run);
    Induction(run, e, i, Patient, Step);
  }

  /** The step strips or deletes a work outside a forced tear-down. */
  predicate OrderlyForce(w: World, w': World) {
    w'.last.Acts? && w'.last.act.ForceWork? && w.cleanup.Active? && !w.cleanup.seen.NeedsForce()
  }

  lemma PatientForce(w: World, w': World)
    requires Patient(w) && Moves(w, w') && OrderlyForce(w, w')
    ensures w'.last.act.work == KlusterletCrds && LastOfAll(w.hub)
  {
    ActIsMeant(w, w');
    assert !Fooled(w);
  }

  predicate Misforces(ext: seq<World>) {
    |ext| > 1 && OrderlyForce(ext[|ext| - 2], Last(ext)) && !LastOfAll(ext[|ext| - 2].hub)
  }

  /** The cleanup begins on the orderly path, sees no addons and a CRD work that is ready. */
  lemma SeesCrdReady(run: seq<World>, v: Option<Cluster>) returns (ext: seq<World>)
    requires IsRun(run) && Last(run).cleanup.Idle? && v in Last(run).cache.clusters && Marked(v)
    requires map[] in Last(run).cache.addons && Last(run).hub.CrdReady()
    ensures IsRun(ext) && run <= ext
    ensures var w, u := Last(run), Last(ext);
            && u == w.(cache := u.cache, cleanup := u.cleanup, last := u.last)
            && u.cleanup.Active? && u.cleanup.seen == v.value && u.cleanup.noAddons && u.cleanup.crdReady
  {
    Followed(run);
    ext := Show(run, v, map[], Last(run).cache.bindings[0]);
    ext := LookNow(ext, CleanupBegin, Begun(v));
    var c := Begun(v).(noAddons := true);
    ext := LookNow(ext, SawAddons, c);
    ext := LookNow(ext, SawWorks, c.(noWorks := c.noWorks || Last(ext).hub.WorksWithin({}), crdReady := true));
  }

  lemma ForcesNow(run: seq<World>) returns (ext: seq<World>)
    requires IsRun(run) && CrdIsThere(Last(run).hub) && !LastOfAll(Last(run).hub)
    requires var c := Last(run).cleanup; c.Active? && !c.seen.NeedsForce() && c.noAddons && c.crdReady
    ensures IsRun(ext) && run <= ext && |ext| > |run| && Misforces(ext)
  {
    var w := Last(run);
    var key := Key(w.hub.name, KlusterletCrds);
    var h' := w.hub.(works := PutWork(w.hub.works, key, Deleted(w.hub.works[key].obj)));
    ext := ActNow(run, ForceWork(KlusterletCrds, Delete), h');
  }

  /** The cluster becomes available, so that a cleanup takes the orderly path. */
  lemma OrderlyReading(run: seq<World>) returns (ext: seq<World>, v: Option<Cluster>)
    requires IsRun(run) && !Last(run).hub.Live() && MayGoOrderly(Last(run))
    ensures IsRun(ext) && run <= ext && !Last(ext).hub.Live()
    ensures v in Last(ext).cache.clusters && Marked(v) && !v.value.NeedsForce()
    ensures var w, u := Last(run), Last(ext);
            && u == w.(hub := w.hub.(cluster := u.hub.cluster), cache := u.cache, last := u.last)
            && (forall x | x in w.cache.clusters :: x in u.cache.clusters) && (forall x | x in w.cache.addons :: x in u.cache.addons)
            && (w.hub.cluster.Some? <==> u.hub.cluster.Some?)
            && (w.hub.cluster.Some? ==> u.hub.cluster.value.obj == w.hub.cluster.value.obj)
  {
    var w := Last(run);
    ext := run;
    if x :| x in w.cache.clusters && Marked(x) && !x.value.NeedsForce() {
      v := x;
    } else {
      v := Some(w.hub.cluster.value.(accepted := true, available := Some(True)));
      Followed(run);
      TurnsAvailable(w.hub);
      ext := EnvMove(run, {}, w.hub.(cluster := v));
    }
  }

  lemma TurnsAvailable(h: Hub)
    requires h.cluster.Some? && !h.Live() && h.cluster.value.obj.finalizers != []
    ensures EnvMoves(h, h.(cluster := Some(h.cluster.value.(accepted := true, available := Some(True)))), {})
  {
    WithoutLength(h.cluster.value.obj.finalizers, {});
  }

  /** Only the CRD work stays, its agent has begun to remove the CRD, and the addons become `addons`. */
  lemma CrdStays(run: seq<World>, v: Option<Cluster>, addons: map<string, Obj>) returns (ext: seq<World>)
    requires IsRun(run) && !Last(run).hub.Live() && CrdIsThere(Last(run).hub) && v in Last(run).cache.clusters
    requires addons == map[] || (addons == Last(run).hub.addons && map[] in Last(run).cache.addons)
    ensures IsRun(ext) && run <= ext && v in Last(ext).cache.clusters && map[] in Last(ext).cache.addons
    ensures var w, u := Last(run), Last(ext);
            && u == w.(hub := w.hub.(works := u.hub.works, addons := addons), cache := u.cache, last := u.last)
            && CrdIsThere(u.hub) && u.hub.CrdReady() && u.hub.works.Keys == {Key(u.hub.name, KlusterletCrds)}
  {
    var h := Last(run).hub;
    var key := Key(h.name, KlusterletCrds);
    ext := SomeGoes(run, h.(works := map[key := h.works[key].(agentDeleting := true)], addons := addons));
  }

  lemma HiddenAddonsMisforce(run: seq<World>, v: Option<Cluster>) returns (ext: seq<World>)
    requires IsRun(run) && !Last(run).hub.Live() && Last(run).cleanup.Idle?
    requires v in Last(run).cache.clusters && Marked(v) && !v.value.NeedsForce()
    requires HidesAddons(Last(run).hub, Last(run).cache) && CrdIsThere(Last(run).hub)
    ensures IsRun(ext) && run <= ext && |ext| > |run| && Misforces(ext)
  {
    ext := CrdStays(run, v, Last(run).hub.addons);
    ext := SeesCrdReady(ext, v);
    ext := ForcesNow(ext);
  }

  lemma CreateOwn(run: seq<World>, n: WorkName) returns (ext: seq<World>)
    requires IsRun(run) && Last(run).applier.Applying? && Targets(Last(run).hub, Last(run).applier.seen, Own)
    requires Key(Last(run).hub.name, n) !in Last(run).hub.works
    ensures IsRun(ext) && run <= ext
    ensures var w, u := Last(run), Last(ext);
            && u == w.(hub := w.hub.(works := u.hub.works), cache := u.cache, last := u.last)
            && u.hub.works.Keys == w.hub.works.Keys + {Key(w.hub.name, n)}
            && (forall v | v in w.cache.clusters :: v in u.cache.clusters)
  {
    var w := Last(run);
    var key := Key(w.hub.name, n);
    var mark := if w.applier.seen.mode.Default? then None else Some(w.hub.name);
    var h' := w.hub.(works := w.hub.works[key := Work(Obj([], false), mark, false)]);
    ext := ApplierMove(run, ApplierCreate(key), h', w.applier);
  }

  lemma LateWorkMisforces(run: seq<World>, v: Option<Cluster>) returns (ext: seq<World>)
    requires IsRun(run) && !Last(run).hub.Live() && Last(run).cleanup.Idle?
    requires v in Last(run).cache.clusters && Marked(v) && !v.value.NeedsForce() && MayWrite(Last(run), Own)
    ensures IsRun(ext) && run <= ext && |ext| > |run| && Misforces(ext)
  {
    ext := WriterReady(run, v, Own);
    ext := AllGone(ext, v);
    ext := CreateOwn(ext, KlusterletCrds);
    ext := CrdStays(ext, v, map[]);
    ext := SeesCrdReady(ext, v);
    ext := CreateOwn(ext, Named("klusterlet"));
    assert Key(Last(ext).hub.name, Named("klusterlet")) in Last(ext).hub.works;
    ext := ForcesNow(ext);
  }

  lemma MisforcedRun(run: seq<World>) returns (ext: seq<World>)
    requires IsRun(run) && !Last(run).hub.Live() && Last(run).cleanup.Idle? && CanMisforce(Last(run))
    ensures IsRun(ext) && run <= ext && |ext| > |run| && Misforces(ext)
  {
    var w := Last(run);
    var v;
    ext, v := OrderlyReading(run);
    if MayWrite(w, Own) {
      StillMayWrite(w, Last(ext), Own);
      ext := LateWorkMisforces(ext, v);
    } else {
      ext := HiddenAddonsMisforce(ext, v);
    }
  }

  lemma StillMayWrite(w: World, u: World, p: Place)
    requires MayWrite(w, p) && u.applier == w.applier && u.hub == w.hub.(cluster := u.hub.cluster)
    requires forall x | x in w.cache.clusters :: x in u.cache.clusters
    requires (w.hub.cluster.Some? <==> u.hub.cluster.Some?) && (w.hub.cluster.Some? ==> u.hub.cluster.value.obj == w.hub.cluster.value.obj)
    ensures MayWrite(u, p)
  {
    if v :| v in w.cache.clusters && Starts(v) && Targets(w.hub, v.value, p) {
      assert v in u.cache.clusters && Targets(u.hub, v.value, p);
    }
  }

  /** Every continuation of `run` strips, outside a forced tear-down, the CRD work only, and as the last thing left. */
  ghost predicate AlwaysForcesLast(run: seq<World>) {
    forall ext: seq<World>, i: nat ::
      IsRun(ext) && run <= ext && 0 < |run| <= i < |ext| && OrderlyForce(ext[i - 1], ext[i]) ==>
        ext[i].last.act.work == KlusterletCrds && LastOfAll(ext[i - 1].hub)
  }

  lemma ForcedLast(run: seq<World>, e: nat, i: nat)
    requires IsRun(run) && e < i < |run| && Patient(run[e]) && OrderlyForce(run[i - 1], run[i])
    ensures run[i].last.act.work == KlusterletCrds && LastOfAll(run[i - 1].hub)
  {
    PatientFromThenOn(run, e, i - 1);
    assert StepAt(run, i);
    PatientForce(run[i - 1], run[i]);
  }

  /** The exact condition for the orderly path, at any moment after the deletion at which the cleanup is between reconciles. */
  lemma OrderlyForceIsLastExactly(run: seq<World>)
    requires IsRun(run) && !Last(run).hub.Live() && Last(run).cleanup.Idle?
    ensures AlwaysForcesLast(run) <==> !CanMisforce(Last(run))
  {
    if CanMisforce(Last(run)) {
      var ext := MisforcedRun(run);
      assert IsRun(ext) && run <= ext && 0 < |run| <= |ext| - 1 < |ext| && OrderlyForce(ext[|ext| - 1 - 1], ext[|ext| - 1]);
    } else {
      Followed(run);
      forall ext: seq<World>, i: nat
        | IsRun(ext) && run <= ext && 0 < |run| <= i < |ext| && OrderlyForce(ext[i - 1], ext[i])
        ensures ext[i].last.act.work == KlusterletCrds && LastOfAll(ext[i - 1].hub)
      {
        assert ext[|run| - 1] == Last(run);
        ForcedLast(ext, |run| - 1, i);
      }
    }
  }

  /** Once the deletion has settled neither order can break. */
  lemma SettledIsOrderly(w: World)
    requires Settled(w)
    ensures !CanDisorder(w) && !CanMisforce(w)
  {
    assert forall p :: !MayWrite(w, p);
  }
}
