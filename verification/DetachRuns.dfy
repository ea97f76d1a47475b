/** Building runs of the detach protocol step by step. */
module DetachRuns {
  import opened Common
  import opened Kube
  import opened DetachProtocol
  import opened DetachSteps

  /** The state a run ends in. */
  function Last(run: seq<World>): (w: World)
    requires run != []
  {
    run[|run| - 1]
  }

  lemma Extend(run: seq<World>, w: World)
    requires IsRun(run) && Step(Last(run), w)
    ensures IsRun(run + [w])
  {
    var ext := run + [w];
    forall i | 0 < i < |ext|
      ensures StepAt(ext, i)
    {
      if i < |run| {
        assert ext[i - 1] == run[i - 1] && ext[i] == run[i] && StepAt(run, i);
      }
    }
  }

  lemma Followed(run: seq<World>)
    requires IsRun(run)
    ensures Trails(Last(run).hub, Last(run).cache)
    ensures Watched(Last(run).cache, Last(run).hub) == Last(run).cache
  {
    TrailsThroughout(run, |run| - 1);
    NothingToWatch(Last(run).cache, Last(run).hub);
  }

  /** Take one step to `w`. */
  lemma Take(run: seq<World>, w: World) returns (ext: seq<World>)
    requires IsRun(run) && Step(Last(run), w)
    ensures IsRun(ext) && run <= ext && |ext| == |run| + 1 && Last(ext) == w
    ensures Trails(w.hub, w.cache)
  {
    Extend(run, w);
    ext := run + [w];
    Followed(ext);
  }

  /** Take a step that leaves the server, and so the cache, as it is. */
  lemma Ponder(run: seq<World>, w: World) returns (ext: seq<World>)
    requires IsRun(run) && Moves(Last(run), w)
    requires w.hub == Last(run).hub && w.cache == Last(run).cache && !w.last.CacheSync?
    ensures IsRun(ext) && run <= ext && |ext| == |run| + 1 && Last(ext) == w
  {
    Followed(run);
    ext := Take(run, w);
  }

  /** Take a step that makes the server's state `h`. */
  lemma Put(run: seq<World>, w: World) returns (ext: seq<World>)
    requires IsRun(run) && Moves(Last(run), w) && w.cache == Watched(Last(run).cache, w.hub) && !w.last.CacheSync?
    ensures IsRun(ext) && run <= ext && |ext| == |run| + 1 && Last(ext) == w
    ensures Trails(w.hub, w.cache)
  {
    ext := Take(run, w);
  }

  /** The cleanup controller looks. */
  lemma LookNow(run: seq<World>, e: Look, c: Cleanup) returns (ext: seq<World>)
    requires IsRun(run) && CleanupLooks(e, Last(run).hub, Last(run).cache, Last(run).cleanup, c)
    ensures IsRun(ext) && run <= ext && Last(ext) == Last(run).(cleanup := c, last := Looks(e))
  {
    ext := Ponder(run, Last(run).(cleanup := c, last := Looks(e)));
  }

  /** The cleanup controller writes. */
  lemma ActNow(run: seq<World>, e: Act, h: Hub) returns (ext: seq<World>)
    requires IsRun(run) && CleanupActs(e, Last(run).hub, Last(run).cleanup, h)
    ensures IsRun(ext) && run <= ext && |ext| == |run| + 1 && Last(ext).last == Acts(e)
  {
    var w := Last(run);
    ext := Put(run, w.(hub := h, cache := Watched(w.cache, h), completed := w.completed || e.DropFinalizers?, last := Acts(e)));
  }

  /** The namespace controller moves. */
  lemma NsMove(run: seq<World>, e: NsEvent, h: Hub, c: NsControl) returns (ext: seq<World>)
    requires IsRun(run) && NsMoves(e, Last(run).hub, Last(run).cache, Last(run).nsctl, h, c)
    ensures IsRun(ext) && run <= ext && |ext| == |run| + 1
    ensures Last(ext) == Last(run).(hub := h, cache := Watched(Last(run).cache, h), nsctl := c, last := Deletes(e))
    ensures h == Last(run).hub ==> Last(ext).cache == Last(run).cache
  {
    Followed(run);
    ext := Put(run, Last(run).(hub := h, cache := Watched(Last(run).cache, h), nsctl := c, last := Deletes(e)));
  }

  /** An applier moves. */
  lemma ApplierMove(run: seq<World>, e: ApplierEvent, h: Hub, a: Applier) returns (ext: seq<World>)
    requires IsRun(run) && ApplierMoves(e, Last(run).hub, Last(run).cache, Last(run).applier, h, a)
    ensures IsRun(ext) && run <= ext && |ext| == |run| + 1
    ensures Last(ext) == Last(run).(hub := h, cache := Watched(Last(run).cache, h), applier := a, last := Applies(e))
    ensures h == Last(run).hub ==> Last(ext).cache == Last(run).cache
    ensures forall v | v in Last(run).cache.clusters :: v in Last(ext).cache.clusters
    ensures forall v | v in Last(run).cache.addons :: v in Last(ext).cache.addons
  {
    Followed(run);
    ext := Put(run, Last(run).(hub := h, cache := Watched(Last(run).cache, h), applier := a, last := Applies(e)));
  }

  /** The environment moves. */
  lemma EnvMove(run: seq<World>, gone: set<Finalizer>, h: Hub) returns (ext: seq<World>)
    requires IsRun(run) && EnvMoves(Last(run).hub, h, gone)
    ensures IsRun(ext) && run <= ext && Last(ext) == Last(run).(hub := h, cache := Watched(Last(run).cache, h), last := Environment(gone))
    ensures forall v | v in Last(run).cache.clusters :: v in Last(ext).cache.clusters
    ensures forall v | v in Last(run).cache.addons :: v in Last(ext).cache.addons
    ensures h.cluster in Last(ext).cache.clusters && h.addons in Last(ext).cache.addons
  {
    ext := Put(run, Last(run).(hub := h, cache := Watched(Last(run).cache, h), last := Environment(gone)));
  }

  /** The applier's reconcile ends. */
  lemma EndApplier(run: seq<World>) returns (ext: seq<World>)
    requires IsRun(run)
    ensures IsRun(ext) && run <= ext && Last(ext) == Last(run).(applier := Resting, last := Applies(ApplierEnd))
  {
    ext := ApplierMove(run, ApplierEnd, Last(run).hub, Resting);
  }

  /** The managedcluster controller's patch, if one is due, fails. */
  lemma EndMeta(run: seq<World>) returns (ext: seq<World>)
    requires IsRun(run)
    ensures IsRun(ext) && run <= ext && Last(ext) == Last(run).(metaPlan := None, last := Last(ext).last)
  {
    ext := run;
    if Last(run).metaPlan.Some? {
      ext := Ponder(run, Last(run).(metaPlan := None, last := Tags(MetaPatch)));
    }
  }

  lemma EndCleanup(run: seq<World>) returns (ext: seq<World>)
    requires IsRun(run)
    ensures IsRun(ext) && run <= ext && Last(ext) == Last(run).(cleanup := Idle, last := CleanupEnd)
  {
    ext := Ponder(run, Last(run).(cleanup := Idle, last := CleanupEnd));
  }

  /** The states of one kind from `v` on. */
  lemma From<T(!new)>(states: seq<T>, v: T) returns (later: seq<T>)
    requires v in states
    ensures CatchesUp(states, later) && later[0] == v && later[|later| - 1] == states[|states| - 1]
  {
    var i :| 0 <= i < |states| && states[i] == v;
    later := states[i..];
  }

  /** The cache moves on until it shows these states. */
  lemma Show(run: seq<World>, cluster: Option<Cluster>, addons: map<string, Obj>, binding: Option<Obj>) returns (ext: seq<World>)
    requires IsRun(run)
    requires cluster in Last(run).cache.clusters && addons in Last(run).cache.addons && binding in Last(run).cache.bindings
    ensures IsRun(ext) && run <= ext && Last(ext) == Last(run).(cache := Last(ext).cache, last := CacheSync)
    ensures var k := Last(ext).cache;
            && Follows(k, Last(ext).hub)
            && k.clusters[0] == cluster && k.addons[0] == addons && k.bindings[0] == binding
            && k.namespaces[0] == Last(ext).hub.ns
            && Syncs(Last(run).cache, k)
  {
    Followed(run);
    var w := Last(run);
    var clusters := From(w.cache.clusters, cluster);
    var addonLists := From(w.cache.addons, addons);
    var bindings := From(w.cache.bindings, binding);
    ext := Take(run, w.(cache := Cache(clusters, addonLists, bindings, [w.hub.ns]), last := CacheSync));
  }

  /** The cache catches up. */
  lemma Refresh(run: seq<World>) returns (ext: seq<World>)
    requires IsRun(run)
    ensures IsRun(ext) && run <= ext && Last(ext) == Last(run).(cache := UpToDate(Last(run).hub), last := CacheSync)
  {
    Followed(run);
    ext := Take(run, Last(run).(cache := UpToDate(Last(run).hub), last := CacheSync));
  }

  /** Some of what is there goes; the cluster stays as it is. */
  lemma SomeGoes(run: seq<World>, h': Hub) returns (ext: seq<World>)
    requires IsRun(run) && !Last(run).hub.Live()
    requires var h := Last(run).hub;
             h' == h.(works := h'.works, addons := h'.addons, binding := h'.binding) && HubShrinks(h, h')
    ensures IsRun(ext) && run <= ext
    ensures Last(ext) == Last(run).(hub := h', cache := Watched(Last(run).cache, h'), last := Environment({}))
    ensures forall v | v in Last(run).cache.clusters :: v in Last(ext).cache.clusters
    ensures forall v | v in Last(run).cache.addons :: v in Last(ext).cache.addons
    ensures h'.addons in Last(ext).cache.addons
  {
    var w := Last(run);
    Followed(run);
    if w.hub.cluster.Some? {
      WithoutLength(w.hub.cluster.value.obj.finalizers, {});
    }
    ext := EnvMove(run, {}, h');
  }

  /** An applier starts from a stale reading. */
  lemma StartsFrom(run: seq<World>, v: Option<Cluster>) returns (ext: seq<World>)
    requires IsRun(run) && v in Last(run).cache.clusters && Starts(v)
    ensures IsRun(ext) && run <= ext
    ensures Last(ext) == Last(run).(cache := Last(ext).cache, applier := Read(v.value), last := Last(ext).last)
    ensures CatchesUp(Last(run).cache.clusters, Last(ext).cache.clusters) && Last(ext).cache.clusters[0] == v
  {
    ext := EndApplier(run);
    Followed(ext);
    var k := Last(ext).cache;
    ext := Show(ext, v, k.addons[0], k.bindings[0]);
    ext := ApplierMove(ext, ApplierBegin, Last(ext).hub, Read(v.value));
  }
}
