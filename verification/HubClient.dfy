/**
 The API server and the shared cache as the controllers see them. Reads of the
 cluster, the addons, the namespace and, at the end of a cleanup, the binding are
 answered from the cache; the others, and all writes, go to the server. Each call
 first lets everybody else move, then acts, and records its step in the ghost `run`; a call that writes
 demands what the protocol demands of that step. Code written against this class
 therefore can do nothing that is not a run of the protocol.
 */
module HubClients {
  import opened Common
  import opened Kube
  import opened DetachProtocol
  import opened DetachSteps
  import opened DetachRuns

  datatype Who = Cleaner | NsDeleter | Adder | Tagger

  /** How a write ended. */
  datatype Outcome = Done | NotFound | Failed

  /** Nothing the controller knew in this reconcile is forgotten. */
  predicate Learned(a: Cleanup, b: Cleanup) {
    match a
    case Idle => b.Idle?
    case Orphaned => b.Orphaned?
    case Active(seen, noWorks, noAddons, noBinding, noHosting, crdReady, _) =>
      && b.Active? && b.seen == seen
      && (noWorks ==> b.noWorks) && (noAddons ==> b.noAddons) && (noBinding ==> b.noBinding)
      && (noHosting ==> b.noHosting) && (crdReady ==> b.crdReady)
  }

  /** The works of one namespace, by name. */
  function WorksOf(h: Hub, ns: string): (r: map<WorkName, Work>)
    ensures forall n :: n in r <==> Key(ns, n) in h.works
    ensures forall n | n in r :: r[n] == h.works[Key(ns, n)]
  {
    map k | k in h.works && k.ns == ns :: k.name := h.works[k]
  }

  /** What a listing of the cluster's own works tells. */
  lemma WorksSeen(h: Hub)
    ensures WorksOf(h, h.name) == map[] ==> h.WorksWithin({})
    ensures WorksOf(h, h.name).Keys == {KlusterletCrds} && WorksOf(h, h.name)[KlusterletCrds].agentDeleting ==> h.CrdReady()
  {
    assert forall k | k in h.works && k.ns == h.name :: k == Key(h.name, k.name) && k.name in WorksOf(h, h.name).Keys;
  }

  class HubClient {
    var hub: Hub
    var cache: Cache
    const quiet: bool       // no call fails, nobody else moves and the cache is up to date
    ghost var run: seq<World>

    ghost predicate Valid()
      reads this
    {
      IsRun(run) && Now().hub == hub && Now().cache == cache && Follows(cache, hub)
    }

    ghost function Now(): World
      reads this
      requires run != []
    {
      run[|run| - 1]
    }

    constructor (h: Hub, quiet: bool, ghost w: World)
      requires Start(w) && w.hub == h
      ensures Valid() && hub == h && this.quiet == quiet && run == [w]
    {
      this.hub := h;
      this.cache := UpToDate(h);
      this.quiet := quiet;
      this.run := [w];
    }

    /** Record the step to `w`, whose hub and cache are the ones just written. */
    ghost method Record(w: World)
      requires IsRun(run) && Step(Now(), w) && w.hub == hub && w.cache == cache && Follows(cache, hub)
      modifies this`run
      ensures Valid() && run == old(run) + [w] && Now() == w
    {
      Extend(run, w);
      run := run + [w];
    }

    /** Record a step that leaves the server alone. */
    ghost method Note(w: World)
      requires Valid() && w.hub == hub && w.cache == cache && !w.last.CacheSync? && Moves(Now(), w)
      modifies this`run
      ensures Valid() && old(run) <= run && Now() == w
    {
      NothingToWatch(cache, hub);
      Record(w);
    }

    /** Record a look of the cleanup controller. */
    ghost method NoteLook(e: Look, c: Cleanup)
      requires Valid() && CleanupLooks(e, hub, cache, Now().cleanup, c)
      modifies this`run
      ensures Valid() && old(run) <= run && Now() == old(Now()).(cleanup := c, last := Looks(e))
    {
      Note(Now().(cleanup := c, last := Looks(e)));
    }

    /** The cache catches up. */
    method CatchUp()
      requires Valid()
      modifies this
      ensures Valid() && old(run) <= run && hub == old(hub) && cache == UpToDate(hub)
      ensures Now() == old(Now()).(cache := cache, last := CacheSync)
    {
      NothingToWatch(cache, hub);
      cache := UpToDate(hub);
      Record(Now().(cache := cache, last := CacheSync));
    }

    /** Put `next` on the server, as the step to `w`. */
    method Commit(next: Hub, ghost w: World)
      requires Valid() && w.hub == next && w.cache == Watched(cache, next) && !w.last.CacheSync? && Moves(Now(), w)
      modifies this
      ensures Valid() && hub == next && Now() == w && old(run) <= run
    {
      hub := next;
      cache := Watched(cache, next);
      Record(w);
    }

    /** Whatever the others do between two calls of `who`: callers know this contract and nothing more. */
    method Interfere(ghost who: Who)
      requires Valid()
      modifies this
      ensures Valid() && old(run) <= run
      ensures who.Cleaner? ==> Now().cleanup == old(Now().cleanup)
      ensures who.NsDeleter? ==> Now().nsctl == old(Now().nsctl)
      ensures who.Adder? ==> Now().applier == old(Now().applier)
      ensures who.Tagger? ==> Now().metaPlan == old(Now().metaPlan)
      ensures hub.name == old(hub.name)
      ensures quiet ==> hub == old(hub) && cache == UpToDate(hub)
    {
      if quiet {
        CatchUp();
      }
    }

    /** Whether the call at hand fails, as calls may unless all is quiet. */
    method Fails() returns (failed: bool)
      ensures quiet ==> !failed
    {
      failed := *;
      failed := failed && !quiet;
    }

    // ---- reads of the cleanup controller ----

    /** Read the managed cluster and begin a reconcile. */
    method GetCluster() returns (r: Result<Option<Cluster>>)
      requires Valid() && Now().cleanup.Idle?
      modifies this
      ensures Valid() && old(run) <= run && hub.name == old(hub.name)
      ensures match r
              case Err => Now().cleanup.Idle?
              case Ok(None) => Now().cleanup.Orphaned?
              case Ok(Some(c)) =>
                if c.obj.deleting then Now().cleanup == Active(c, false, false, false, false, false, None)
                else Now().cleanup.Idle?
      ensures quiet ==> hub == old(hub) && r == Ok(hub.cluster)
    {
      Interfere(Cleaner);
      var failed := Fails();
      if failed {
        return Err;
      }
      var shown := cache.clusters[0];
      r := Ok(shown);
      NoteLook(CleanupBegin, Begun(shown));
    }

    method ListWorks() returns (r: Result<map<WorkName, Work>>)
      requires Valid() && !Now().cleanup.Idle?
      modifies this
      ensures Valid() && old(run) <= run && hub.name == old(hub.name)
      ensures Learned(old(Now().cleanup), Now().cleanup)
      ensures Now().cleanup.Active? && r.Ok? && r.value == map[] ==> Now().cleanup.noWorks
      ensures Now().cleanup.Active? && r.Ok? && r.value.Keys == {KlusterletCrds} && r.value[KlusterletCrds].agentDeleting
              ==> Now().cleanup.crdReady
      ensures quiet ==> hub == old(hub) && r == Ok(WorksOf(hub, hub.name))
    {
      Interfere(Cleaner);
      var failed := Fails();
      if failed {
        return Err;
      }
      r := Ok(WorksOf(hub, hub.name));
      if Now().cleanup.Active? {
        ghost var c := Now().cleanup;
        WorksSeen(hub);
        NoteLook(SawWorks, c.(noWorks := c.noWorks || hub.WorksWithin({}), crdReady := c.crdReady || hub.CrdReady()));
      }
    }

    method ListAddons() returns (r: Result<set<string>>)
      requires Valid() && !Now().cleanup.Idle?
      modifies this
      ensures Valid() && old(run) <= run && hub.name == old(hub.name)
      ensures Learned(old(Now().cleanup), Now().cleanup)
      ensures Now().cleanup.Active? && r.Ok? && r.value == {} ==> Now().cleanup.noAddons
      ensures quiet ==> hub == old(hub) && r == Ok(hub.addons.Keys)
    {
      Interfere(Cleaner);
      var failed := Fails();
      if failed {
        return Err;
      }
      r := Ok(cache.addons[0].Keys);
      if Now().cleanup.Active? {
        ghost var c := Now().cleanup;
        NoteLook(SawAddons, c.(noAddons := c.noAddons || cache.addons[0] == map[]));
      }
    }

    /** The binding the cache shows. */
    method ShownBinding() returns (r: Result<Option<Obj>>)
      requires Valid() && Now().cleanup.Active?
      modifies this
      ensures Valid() && old(run) <= run && hub.name == old(hub.name)
      ensures Learned(old(Now().cleanup), Now().cleanup)
      ensures r == Ok(None) ==> Now().cleanup.noBinding
      ensures quiet ==> hub == old(hub) && r == Ok(hub.binding)
    {
      Interfere(Cleaner);
      var failed := Fails();
      if failed {
        return Err;
      }
      r := Ok(cache.bindings[0]);
      ghost var c := Now().cleanup;
      NoteLook(SawBinding, c.(noBinding := c.noBinding || cache.bindings[0].None?));
    }

    method ListHosting(hosting: string) returns (r: Result<set<WorkName>>)
      requires Valid() && Now().cleanup.Active? && Now().cleanup.seen.hosting == hosting
      modifies this
      ensures Valid() && old(run) <= run && hub.name == old(hub.name)
      ensures Learned(old(Now().cleanup), Now().cleanup)
      ensures r.Ok? ==> Now().cleanup.hostingSeen == Some(r.value)
      ensures r.Ok? && r.value == {} ==> Now().cleanup.noHosting
      ensures quiet ==> hub == old(hub) && r == Ok(HostingSet(hub, hosting))
    {
      Interfere(Cleaner);
      var failed := Fails();
      if failed {
        return Err;
      }
      r := Ok(HostingSet(hub, hosting));
      ghost var c := Now().cleanup;
      NoteLook(SawHosting, c.(noHosting := c.noHosting || r.value == {}, hostingSeen := Some(r.value)));
    }

    /** Reads that teach the controller nothing the protocol speaks of. */
    method GetNamespace() returns (r: Result<bool>)
      requires Valid()
      modifies this
      ensures Valid() && old(run) <= run && hub.name == old(hub.name)
      ensures Now().cleanup == old(Now().cleanup)
      ensures quiet ==> hub == old(hub) && r == Ok(hub.ns.Some?)
    {
      Interfere(Cleaner);
      var failed := Fails();
      if failed {
        return Err;
      }
      r := Ok(hub.ns.Some?);
    }

    /** The binding on the server. */
    method GetBinding() returns (r: Result<Option<Obj>>)
      requires Valid()
      modifies this
      ensures Valid() && old(run) <= run && hub.name == old(hub.name)
      ensures Now().cleanup == old(Now().cleanup)
      ensures quiet ==> hub == old(hub) && r == Ok(hub.binding)
    {
      Interfere(Cleaner);
      var failed := Fails();
      if failed {
        return Err;
      }
      r := Ok(hub.binding);
    }

    method GetAddon(n: string) returns (r: Result<Option<Obj>>)
      requires Valid()
      modifies this
      ensures Valid() && old(run) <= run && hub.name == old(hub.name)
      ensures Now().cleanup == old(Now().cleanup)
      ensures quiet ==> hub == old(hub) && r == Ok(if n in hub.addons then Some(hub.addons[n]) else None)
    {
      Interfere(Cleaner);
      var failed := Fails();
      if failed {
        return Err;
      }
      var shown := cache.addons[0];
      r := Ok(if n in shown then Some(shown[n]) else None);
    }

    method GetWork(n: WorkName) returns (r: Result<Option<Obj>>)
      requires Valid()
      modifies this
      ensures Valid() && old(run) <= run && hub.name == old(hub.name)
      ensures Now().cleanup == old(Now().cleanup)
      ensures quiet ==>
                && hub == old(hub)
                && r == Ok(if Key(hub.name, n) in hub.works then Some(hub.works[Key(hub.name, n)].obj) else None)
    {
      Interfere(Cleaner);
      var failed := Fails();
      if failed {
        return Err;
      }
      r := Ok(if Key(hub.name, n) in hub.works then Some(hub.works[Key(hub.name, n)].obj) else None);
    }

    // ---- writes of the cleanup controller ----

    method WriteAddon(n: string, wr: Write) returns (r: Outcome)
      requires Valid() && MayForce(Now().cleanup)
      requires wr.Patch? ==> forall f | f in wr.finalizers :: f in HostingFinalizers
      modifies this
      ensures Valid() && old(run) <= run && hub.name == old(hub.name)
      ensures Now().cleanup == old(Now().cleanup)
      ensures quiet && n !in old(hub.addons) ==> r.NotFound? && hub == old(hub)
      ensures quiet && n in old(hub.addons) && Allowed(old(hub.addons)[n], wr) ==>
                r.Done? && hub == old(hub).(addons := PutAddon(old(hub.addons), n, Written(old(hub.addons)[n], wr)))
    {
      Interfere(Cleaner);
      var failed := Fails();
      if failed {
        return Failed;
      }
      if n !in hub.addons {
        return NotFound;
      }
      if !Allowed(hub.addons[n], wr) {
        return Failed;
      }
      var next := hub.(addons := PutAddon(hub.addons, n, Written(hub.addons[n], wr)));
      Commit(next, Now().(hub := next, cache := Watched(cache, next), last := Acts(ForceAddon(n, wr))));
      r := Done;
    }

    method WriteWork(n: WorkName, wr: Write) returns (r: Outcome)
      requires Valid() && MayForceWork(Now().cleanup, n)
      requires wr.Patch? ==> wr.finalizers == []
      modifies this
      ensures Valid() && old(run) <= run && hub.name == old(hub.name)
      ensures Now().cleanup == old(Now().cleanup)
      ensures quiet && Key(hub.name, n) !in old(hub.works) ==> r.NotFound? && hub == old(hub)
      ensures quiet && Key(hub.name, n) in old(hub.works) ==>
                var k := Key(hub.name, n);
                && r.Done?
                && hub == old(hub).(works := PutWork(old(hub.works), k, Written(old(hub.works)[k].obj, wr)))
    {
      Interfere(Cleaner);
      var failed := Fails();
      if failed {
        return Failed;
      }
      var k := Key(hub.name, n);
      if k !in hub.works {
        return NotFound;
      }
      var next := hub.(works := PutWork(hub.works, k, Written(hub.works[k].obj, wr)));
      Commit(next, Now().(hub := next, cache := Watched(cache, next), last := Acts(ForceWork(n, wr))));
      r := Done;
    }

    method WriteBinding(wr: Write) returns (r: Outcome)
      requires Valid() && MayForce(Now().cleanup)
      requires wr.Patch? ==> wr.finalizers == []
      modifies this
      ensures Valid() && old(run) <= run && hub.name == old(hub.name)
      ensures Now().cleanup == old(Now().cleanup)
      ensures quiet && old(hub.binding).None? ==> r.NotFound? && hub == old(hub)
      ensures quiet && old(hub.binding).Some? ==>
                r.Done? && hub == old(hub).(binding := Written(old(hub.binding).value, wr))
    {
      Interfere(Cleaner);
      var failed := Fails();
      if failed {
        return Failed;
      }
      if hub.binding.None? {
        return NotFound;
      }
      var next := hub.(binding := Written(hub.binding.value, wr));
      Commit(next, Now().(hub := next, cache := Watched(cache, next), last := Acts(ForceBinding(wr))));
      r := Done;
    }

    method DeleteHostingWork(hosting: string, n: WorkName) returns (r: Outcome)
      requires Valid() && MayDeleteHosting(Now().cleanup, n) && Now().cleanup.seen.hosting == hosting
      modifies this
      ensures Valid() && old(run) <= run && hub.name == old(hub.name)
      ensures Now().cleanup == old(Now().cleanup)
      ensures quiet && Key(hosting, n) in old(hub.works) ==>
                var k := Key(hosting, n);
                && r.Done?
                && hub == old(hub).(works := PutWork(old(hub.works), k, Deleted(old(hub.works)[k].obj)))
    {
      Interfere(Cleaner);
      var failed := Fails();
      if failed {
        return Failed;
      }
      var k := Key(hosting, n);
      if k !in hub.works {
        return NotFound;
      }
      var next := hub.(works := PutWork(hub.works, k, Deleted(hub.works[k].obj)));
      Commit(next, Now().(hub := next, cache := Watched(cache, next), last := Acts(DeleteHosting(n))));
      r := Done;
    }

    /** Patch the cluster with the finalizers its reading leaves after dropping our own two. */
    method PatchCluster(seen: Cluster, left: seq<Finalizer>) returns (r: Outcome)
      requires Valid() && MayDrop(Now().cleanup) && Now().cleanup.seen == seen
      requires left == Without(seen.obj.finalizers, OwnFinalizers) && left != seen.obj.finalizers
      modifies this
      ensures Valid() && old(run) <= run && hub.name == old(hub.name)
      ensures Now().cleanup == old(Now().cleanup)
      ensures quiet && old(hub.cluster) == Some(seen) ==>
                && r.Done?
                && hub == old(hub).(cluster := PutCluster(seen, Patched(seen.obj, left)))
    {
      Interfere(Cleaner);
      var failed := Fails();
      if failed {
        return Failed;
      }
      if hub.cluster.None? {
        return NotFound;
      }
      if !Accepts(hub.cluster.value.obj, left) {
        return Failed;
      }
      var next := hub.(cluster := PutCluster(hub.cluster.value, Patched(hub.cluster.value.obj, left)));
      Commit(next, Now().(hub := next, cache := Watched(cache, next), completed := true, last := Acts(DropFinalizers)));
      r := Done;
    }

    /** The reconcile returns. */
    ghost method EndCleanup()
      requires Valid()
      modifies this`run
      ensures Valid() && old(run) <= run && Now().cleanup.Idle?
    {
      Note(Now().(cleanup := Idle, last := CleanupEnd));
    }

    // ---- the namespace controller ----

    method NsGetNamespace() returns (r: Result<Option<Namespace>>)
      requires Valid() && Now().nsctl.NsIdle?
      modifies this
      ensures Valid() && old(run) <= run
      ensures r.Ok? && Concerns(r.value) ==> Now().nsctl == NsActive(false, false)
      ensures !Now().nsctl.NsIdle? ==> Now().nsctl == NsActive(false, false)
      ensures quiet ==> hub == old(hub) && r == Ok(hub.ns)
    {
      Interfere(NsDeleter);
      var failed := Fails();
      if failed {
        return Err;
      }
      r := Ok(cache.namespaces[0]);
      if Concerns(cache.namespaces[0]) {
        Note(Now().(nsctl := NsActive(false, false), last := Deletes(NsBegin)));
      }
    }

    method NsGetCluster() returns (r: Result<Option<Cluster>>)
      requires Valid() && Now().nsctl == NsActive(false, false)
      modifies this
      ensures Valid() && old(run) <= run
      ensures r.Ok? && ReleasesNamespace(r.value) ==> Now().nsctl == NsActive(true, false)
      ensures quiet ==> hub == old(hub) && r == Ok(hub.cluster)
    {
      Interfere(NsDeleter);
      var failed := Fails();
      if failed {
        return Err;
      }
      r := Ok(cache.clusters[0]);
      Note(Now().(nsctl := if ReleasesNamespace(cache.clusters[0]) then NsActive(true, false) else NsIdle, last := Deletes(NsSawCluster)));
    }

    method NsListAddons() returns (r: Result<set<string>>)
      requires Valid() && Now().nsctl == NsActive(true, false)
      modifies this
      ensures Valid() && old(run) <= run
      ensures r == Ok({}) ==> Now().nsctl == NsActive(true, true)
      ensures quiet ==> hub == old(hub) && r == Ok(hub.addons.Keys)
    {
      Interfere(NsDeleter);
      var failed := Fails();
      if failed {
        return Err;
      }
      r := Ok(cache.addons[0].Keys);
      Note(Now().(nsctl := if cache.addons[0] == map[] then NsActive(true, true) else NsIdle, last := Deletes(NsSawAddons)));
    }

    method NsDeleteNamespace() returns (r: Outcome)
      requires Valid() && Now().nsctl == NsActive(true, true)
      modifies this
      ensures Valid() && old(run) <= run
      ensures quiet && old(hub.ns).Some? ==>
                r.Done? && hub == old(hub).(ns := Some(old(hub.ns).value.(deleting := true)))
    {
      Interfere(NsDeleter);
      var failed := Fails();
      if failed {
        return Failed;
      }
      if hub.ns.None? {
        return NotFound;
      }
      var next := hub.(ns := Some(hub.ns.value.(deleting := true)));
      Commit(next, Now().(hub := next, cache := Watched(cache, next), last := Deletes(NsDelete)));
      r := Done;
    }

    ghost method EndNs()
      requires Valid()
      modifies this`run
      ensures Valid() && old(run) <= run && Now().nsctl.NsIdle?
    {
      Note(Now().(nsctl := NsIdle, last := Deletes(NsEnd)));
    }

    // ---- the controllers that add finalizers and works ----

    method AdderGetCluster() returns (r: Result<Option<Cluster>>)
      requires Valid() && Now().applier.Resting?
      modifies this
      ensures Valid() && old(run) <= run
      ensures if r.Ok? && Starts(r.value) then Now().applier == Read(r.value.value) else Now().applier.Resting?
      ensures quiet ==> hub == old(hub) && r == Ok(hub.cluster)
    {
      Interfere(Adder);
      var failed := Fails();
      if failed {
        return Err;
      }
      var shown := cache.clusters[0];
      r := Ok(shown);
      if Starts(shown) {
        Note(Now().(applier := Read(shown.value), last := Applies(ApplierBegin)));
      }
    }

    /** Decide on the finalizer patch once the works are counted. */
    ghost method Decide(works: nat)
      requires Valid() && Now().applier.Read?
      modifies this`run
      ensures Valid() && old(run) <= run
      ensures var seen := old(Now().applier.seen);
              Now().applier == Planned(seen, works)
    {
      Note(Now().(applier := Planned(Now().applier.seen, works), last := Applies(ApplierPlan(works))));
    }

    method AdderPatch(plan: seq<Finalizer>) returns (r: Outcome)
      requires Valid() && Now().applier.Patching? && Now().applier.plan == plan
      modifies this
      ensures Valid() && old(run) <= run
      ensures r.Done? ==> Now().applier == Applying(old(Now().applier.seen))
      ensures quiet && old(hub.Live()) ==>
                r.Done? && hub == old(hub).(cluster := Some(old(hub.cluster).value.(obj := Obj(plan, false))))
    {
      Interfere(Adder);
      var failed := Fails();
      if failed {
        return Failed;
      }
      if hub.cluster.None? {
        return NotFound;
      }
      if !Accepts(hub.cluster.value.obj, plan) {
        return Failed;
      }
      var next := hub.(cluster := PutCluster(hub.cluster.value, Patched(hub.cluster.value.obj, plan)));
      Commit(next, Now().(hub := next, cache := Watched(cache, next), applier := Applying(Now().applier.seen), last := Applies(ApplierPatch)));
      r := Done;
    }

    /** Create a work unless it is there; none can be created in a closed namespace. */
    method AdderApply(k: Key, work: Work) returns (r: Outcome)
      requires Valid() && Now().applier.Applying?
      requires var seen := Now().applier.seen;
               && k.ns == (if seen.mode.Default? then hub.name else seen.hosting)
               && work.hostedFor == (if seen.mode.Default? then None else Some(hub.name))
      modifies this
      ensures Valid() && old(run) <= run && hub.name == old(hub.name)
      ensures Now().applier == old(Now().applier)
      ensures quiet ==> (r.Done? <==> k in old(hub.works) || k.ns != hub.name || Open(old(hub)))
      ensures quiet ==>
                hub == if r.Done? && k !in old(hub.works) then old(hub).(works := old(hub.works)[k := work]) else old(hub)
    {
      Interfere(Adder);
      var failed := Fails();
      if failed {
        return Failed;
      }
      if k in hub.works {
        return Done;
      }
      if k.ns == hub.name && !Open(hub) {
        return Failed;
      }
      var next := hub.(works := hub.works[k := work]);
      Commit(next, Now().(hub := next, cache := Watched(cache, next), last := Applies(ApplierCreate(k))));
      r := Done;
    }

    ghost method EndAdder()
      requires Valid()
      modifies this`run
      ensures Valid() && old(run) <= run && Now().applier.Resting?
    {
      Note(Now().(applier := Resting, last := Applies(ApplierEnd)));
    }

    /** The managedcluster controller reads the cluster; a missing import finalizer is to be added. */
    method TaggerGetCluster() returns (r: Result<Option<Cluster>>)
      requires Valid() && Now().metaPlan.None?
      modifies this
      ensures Valid() && old(run) <= run
      ensures r.Ok? && r.value.Some? && !r.value.value.obj.deleting && Import !in r.value.value.obj.finalizers
              ==> Now().metaPlan == Some(r.value.value.obj.finalizers + [Import])
      ensures !(r.Ok? && r.value.Some? && !r.value.value.obj.deleting && Import !in r.value.value.obj.finalizers)
              ==> Now().metaPlan.None?
      ensures quiet ==> hub == old(hub) && r == Ok(hub.cluster)
    {
      Interfere(Tagger);
      var failed := Fails();
      if failed {
        return Err;
      }
      var shown := cache.clusters[0];
      r := Ok(shown);
      if IsLive(shown) && Import !in shown.value.obj.finalizers {
        Note(Now().(metaPlan := Some(shown.value.obj.finalizers + [Import]), last := Tags(MetaBegin)));
      }
    }

    method TaggerPatch(plan: seq<Finalizer>) returns (r: Outcome)
      requires Valid() && Now().metaPlan == Some(plan)
      modifies this
      ensures Valid() && old(run) <= run && Now().metaPlan.None?
      ensures quiet && old(hub.Live()) ==>
                r.Done? && hub == old(hub).(cluster := Some(old(hub.cluster).value.(obj := Obj(plan, false))))
    {
      Interfere(Tagger);
      var failed := Fails();
      if failed || hub.cluster.None? || !Accepts(hub.cluster.value.obj, plan) {
        Note(Now().(metaPlan := None, last := Tags(MetaPatch)));
        return if failed then Failed else if hub.cluster.None? then NotFound else Failed;
      }
      var next := hub.(cluster := PutCluster(hub.cluster.value, Patched(hub.cluster.value.obj, plan)));
      Commit(next, Now().(hub := next, cache := Watched(cache, next), metaPlan := None, last := Tags(MetaPatch)));
      r := Done;
    }
  }
}
