/**
 The detach protocol as a transition system. The shared state is one managed
 cluster and everything the tear-down touches. Every API call of every
 controller is a step of its own, so any other controller, or the environment,
 may act between a reading and the write that rests on it.
 */
module DetachProtocol {
  import opened Common
  import opened Kube

  // ---- the shared state ----

  datatype Status = True | False | Unknown

  /** Work names the controllers build from the cluster name; all others are `Named`. */
  datatype WorkName = KlusterletCrds | HostedKlusterlet | HostedKubeconfig | Named(name: string)

  datatype Key = Key(ns: string, name: WorkName)

  /** `hostedFor`: the label that names the cluster a hosting work is for. */
  datatype Work = Work(obj: Obj, hostedFor: Option<string>, agentDeleting: bool)

  /** Where the agent runs. Default stands for every mode in which it runs on the cluster itself. */
  datatype Mode = Default | Hosted | SingletonHosted

  datatype Cluster = Cluster(obj: Obj, mode: Mode, hosting: string, accepted: bool, available: Option<Status>)
  {
    /** The cluster's agent runs elsewhere and the place is known. */
    predicate OnHosting() {
      !mode.Default? && hosting != ""
    }

    /**
     Some controller gives the cluster works and the manifestwork finalizer: the
     manifestwork controller, or the hosted one once the place is known. No
     controller does for SingletonHosted.
     */
    predicate HasApplier() {
      mode.Default? || (mode.Hosted? && hosting != "")
    }

    predicate Unavailable() {
      available == Some(False) || available == Some(Unknown)
    }

    predicate NeedsForce() {
      !accepted || Unavailable()
    }
  }

  datatype Namespace = Namespace(labelled: bool, retained: bool, deleting: bool)

  datatype Hub = Hub(
    name: string,
    cluster: Option<Cluster>,
    ns: Option<Namespace>,
    addons: map<string, Obj>,
    works: map<Key, Work>,
    binding: Option<Obj>)
  {
    /** The managed cluster exists and nobody has asked to delete it. */
    predicate Live() {
      IsLive(cluster)
    }

    predicate WorksWithin(allowed: set<WorkName>) {
      forall k | k in works && k.ns == name :: k.name in allowed
    }

    /** At most the CRD work is left, and its agent has begun to remove the CRD. */
    predicate CrdReady() {
      && WorksWithin({KlusterletCrds})
      && (Key(name, KlusterletCrds) in works ==> works[Key(name, KlusterletCrds)].agentDeleting)
    }

    /** `k` is a work of this cluster in the namespace of its hosting cluster. */
    predicate IsHostingWork(hosting: string, k: Key) {
      k in works && k.ns == hosting && works[k].hostedFor == Some(name)
    }

    predicate HostingWithin(hosting: string, allowed: set<WorkName>) {
      forall k | k in works && IsHostingWork(hosting, k) :: k.name in allowed
    }

    /** `names` is exactly the listing of the cluster's works in the hosting namespace. */
    predicate HostingNames(hosting: string, names: set<WorkName>) {
      && HostingWithin(hosting, names)
      && forall n | n in names :: IsHostingWork(hosting, Key(hosting, n))
    }

    /** Nothing of the cluster is left that a tear-down must remove. */
    predicate Clean(c: Cluster) {
      && WorksWithin({})
      && addons == map[]
      && binding.None?
      && (c.OnHosting() ==> HostingWithin(c.hosting, {}))
    }
  }

  /** The names of the cluster's works in the hosting namespace. */
  function HostingSet(h: Hub, hosting: string): (r: set<WorkName>)
    ensures forall n :: n in r <==> h.IsHostingWork(hosting, Key(hosting, n))
    ensures h.HostingNames(hosting, r)
  {
    set k | k in h.works && h.IsHostingWork(hosting, k) :: k.name
  }

  function PutWork(works: map<Key, Work>, k: Key, o: Option<Obj>): (r: map<Key, Work>)
    requires k in works
  {
    match o
    case None => works - {k}
    case Some(obj) => works[k := works[k].(obj := obj)]
  }

  function PutAddon(addons: map<string, Obj>, n: string, o: Option<Obj>): (r: map<string, Obj>)
    requires n in addons
  {
    match o
    case None => addons - {n}
    case Some(obj) => addons[n := obj]
  }

  /** The cluster after its object became `o`. */
  function PutCluster(c: Cluster, o: Option<Obj>): (r: Option<Cluster>)
  {
    match o
    case None => None
    case Some(obj) => Some(c.(obj := obj))
  }

  // ---- the cache the controllers share ----

  /**
   The cache of the manager's client. For each kind it holds the states it has not
   yet left behind, oldest first: a cached read returns the first of them, and the
   last is the server's current one. The kinds catch up independently.
   */
  datatype Cache = Cache(
    clusters: seq<Option<Cluster>>,
    addons: seq<map<string, Obj>>,
    bindings: seq<Option<Obj>>,
    namespaces: seq<Option<Namespace>>)

  /** The states of one kind once the server's is `v`. */
  function Fed<T(==,!new)>(states: seq<T>, v: T): (r: seq<T>)
    ensures r != [] && r[|r| - 1] == v
    ensures forall x :: x in r <==> x in states || x == v
  {
    if states != [] && states[|states| - 1] == v then states else states + [v]
  }

  function Watched(c: Cache, h: Hub): (r: Cache)
  {
    Cache(Fed(c.clusters, h.cluster), Fed(c.addons, h.addons), Fed(c.bindings, h.binding), Fed(c.namespaces, h.ns))
  }

  /** The oldest states are left behind. */
  predicate CatchesUp<T(==)>(states: seq<T>, later: seq<T>) {
    0 < |later| <= |states| && later == states[|states| - |later|..]
  }

  predicate Syncs(c: Cache, c': Cache) {
    && CatchesUp(c.clusters, c'.clusters)
    && CatchesUp(c.addons, c'.addons)
    && CatchesUp(c.bindings, c'.bindings)
    && CatchesUp(c.namespaces, c'.namespaces)
  }

  /** Every kind ends at the current state. */
  predicate Follows(c: Cache, h: Hub) {
    && c.clusters != [] && c.clusters[|c.clusters| - 1] == h.cluster
    && c.addons != [] && c.addons[|c.addons| - 1] == h.addons
    && c.bindings != [] && c.bindings[|c.bindings| - 1] == h.binding
    && c.namespaces != [] && c.namespaces[|c.namespaces| - 1] == h.ns
  }

  function UpToDate(h: Hub): (c: Cache)
  {
    Cache([h.cluster], [h.addons], [h.binding], [h.ns])
  }

  // ---- what each controller remembers inside one reconcile ----

  /**
   The cleanup controller: the cluster it read, and which listings of this
   reconcile came back empty. `hostingSeen` is its last listing of the works
   in the hosting namespace.
   */
  datatype Cleanup =
    | Idle
    | Orphaned
    | Active(seen: Cluster, noWorks: bool, noAddons: bool, noBinding: bool, noHosting: bool,
             crdReady: bool, hostingSeen: Option<set<WorkName>>)

  datatype NsControl = NsIdle | NsActive(clusterOk: bool, addonsOk: bool)

  /** The manifestwork controller, or the hosted one: whichever owns the cluster's mode. */
  datatype Applier =
    | Resting
    | Read(seen: Cluster)
    | Patching(seen: Cluster, plan: seq<Finalizer>)
    | Applying(seen: Cluster)

  /** A read of the cleanup controller. */
  datatype Look = CleanupBegin | SawWorks | SawAddons | SawBinding | SawHosting

  /** A write of the cleanup controller. */
  datatype Act =
    | ForceAddon(addon: string, addonWrite: Write)
    | ForceWork(work: WorkName, workWrite: Write)
    | ForceBinding(bindingWrite: Write)
    | DeleteHosting(hostingWork: WorkName)
    | DropFinalizers

  datatype NsEvent = NsBegin | NsSawCluster | NsSawAddons | NsDelete | NsEnd

  datatype ApplierEvent = ApplierBegin | ApplierPlan(count: nat) | ApplierPatch | ApplierCreate(key: Key) | ApplierEnd

  datatype MetaEvent = MetaBegin | MetaPatch

  datatype Event =
    | CacheSync
    | Environment(gone: set<Finalizer>)
    | UserDelete
    | Looks(look: Look)
    | Acts(act: Act)
    | CleanupEnd
    | Deletes(ns: NsEvent)
    | Applies(applier: ApplierEvent)
    | Tags(meta: MetaEvent)

  /** `metaPlan` is the finalizer list the managedcluster controller is about to patch. */
  datatype World = World(
    hub: Hub,
    cache: Cache,
    cleanup: Cleanup,
    nsctl: NsControl,
    applier: Applier,
    metaPlan: Option<seq<Finalizer>>,
    completed: bool,
    last: Event)

  // ---- the environment ----

  /**
   Other components may do anything to a live cluster. Once it is being deleted
   they only take its resources away and drop finalizers of their own.
   */
  predicate EnvMoves(h: Hub, h': Hub, gone: set<Finalizer>) {
    && h'.name == h.name
    && if h.Live() then h'.Live() else Shrinks(h, h', gone)
  }

  predicate Shrinks(h: Hub, h': Hub, gone: set<Finalizer>) {
    && ClusterShrinks(h.cluster, h'.cluster, gone)
    && (h'.ns.Some? ==> h.ns.Some? && (h.ns.value.deleting ==> h'.ns.value.deleting))
    && (forall n | n in h'.addons :: n in h.addons)
    && WorksShrink(h.works, h'.works)
    && (h.binding.None? ==> h'.binding.None?)
  }

  predicate WorksShrink(ws: map<Key, Work>, ws': map<Key, Work>) {
    forall k | k in ws' :: k in ws && ws'[k].hostedFor == ws[k].hostedFor
  }

  predicate ClusterShrinks(c: Option<Cluster>, c': Option<Cluster>, gone: set<Finalizer>) {
    match c
    case None => c'.None?
    case Some(v) =>
      var left := Without(v.obj.finalizers, gone);
      && gone !! OwnFinalizers
      && (c'.None? <==> left == [])
      && (c'.Some? ==> c'.value.obj == Obj(left, true) && SameMode(v, c'.value))
  }

  predicate SameMode(a: Cluster, b: Cluster) {
    a.mode == b.mode && a.hosting == b.hosting
  }

  // ---- the cleanup controller ----

  /** The cleanup controller after it was shown this cluster. */
  function Begun(shown: Option<Cluster>): (c: Cleanup)
  {
    match shown
    case None => Orphaned
    case Some(v) => if v.obj.deleting then Active(v, false, false, false, false, false, None) else Idle
  }

  /** Only a forced reconcile, an orphan one, or the last step of an orderly one may force. */
  predicate MayForceWork(c: Cleanup, n: WorkName) {
    || c.Orphaned?
    || (c.Active? && c.seen.NeedsForce())
    || (c.Active? && c.noAddons && c.crdReady && n == KlusterletCrds)
  }

  predicate MayForce(c: Cleanup) {
    c.Orphaned? || (c.Active? && c.seen.NeedsForce())
  }

  /** Addon works first, then the klusterlet work, then the kubeconfig work. */
  predicate MayDeleteHosting(c: Cleanup, n: WorkName) {
    && c.Active?
    && c.seen.OnHosting()
    && c.noAddons
    && c.hostingSeen.Some?
    && n in c.hostingSeen.value
    && (n == HostedKlusterlet ==> c.hostingSeen.value <= {HostedKlusterlet, HostedKubeconfig})
    && (n == HostedKubeconfig ==> c.hostingSeen.value <= {HostedKubeconfig})
  }

  predicate MayDrop(c: Cleanup) {
    && c.Active?
    && c.noWorks && c.noAddons && c.noBinding
    && (c.seen.OnHosting() ==> c.noHosting)
  }

  /** A request to delete an object, or to replace its finalizers. */
  datatype Write = Delete | Patch(finalizers: seq<Finalizer>)

  predicate Allowed(o: Obj, wr: Write) {
    wr.Patch? ==> Accepts(o, wr.finalizers)
  }

  function Written(o: Obj, wr: Write): (r: Option<Obj>)
    requires Allowed(o, wr)
  {
    match wr
    case Delete => Deleted(o)
    case Patch(fs) => Patched(o, fs)
  }

  /** A forced write strips an object bare, but leaves an addon what cleans up its hosting cluster. */
  predicate ForcesAddon(h: Hub, h': Hub, n: string, wr: Write) {
    && n in h.addons
    && Allowed(h.addons[n], wr)
    && (wr.Patch? ==> forall f | f in wr.finalizers :: f in HostingFinalizers)
    && h' == h.(addons := PutAddon(h.addons, n, Written(h.addons[n], wr)))
  }

  predicate ForcesWork(h: Hub, h': Hub, n: WorkName, wr: Write) {
    var k := Key(h.name, n);
    && k in h.works
    && (wr.Patch? ==> wr.finalizers == [])
    && h' == h.(works := PutWork(h.works, k, Written(h.works[k].obj, wr)))
  }

  predicate ForcesBinding(h: Hub, h': Hub, wr: Write) {
    && h.binding.Some?
    && (wr.Patch? ==> wr.finalizers == [])
    && h' == h.(binding := Written(h.binding.value, wr))
  }

  predicate DeletesHosting(h: Hub, h': Hub, hosting: string, n: WorkName) {
    var k := Key(hosting, n);
    && k in h.works
    && h' == h.(works := PutWork(h.works, k, Deleted(h.works[k].obj)))
  }

  predicate DropsFinalizers(h: Hub, h': Hub, seen: Cluster) {
    var left := Without(seen.obj.finalizers, OwnFinalizers);
    && left != seen.obj.finalizers
    && h.cluster.Some?
    && Accepts(h.cluster.value.obj, left)
    && h' == h.(cluster := PutCluster(h.cluster.value, Patched(h.cluster.value.obj, left)))
  }

  // ---- the namespace controller ----

  /** A cluster namespace that is not retained and not being deleted. */
  predicate Concerns(ns: Option<Namespace>) {
    ns.Some? && ns.value.labelled && !ns.value.retained && !ns.value.deleting
  }

  /** What the controller asks of the cluster before it goes on. */
  predicate ReleasesNamespace(c: Option<Cluster>) {
    match c
    case None => true
    case Some(v) => v.obj.deleting && (v.obj.finalizers == [] || v.obj.finalizers == [Import])
  }

  // ---- controllers that add finalizers and works ----

  predicate IsLive(c: Option<Cluster>) {
    c.Some? && !c.value.obj.deleting
  }

  /** The finalizer list an applier patches after counting the works, None for no patch. */
  function PlanFor(fs: seq<Finalizer>, works: nat): (r: Option<seq<Finalizer>>)
  {
    if works == 0 then
      if ManifestWork in fs then Some(Without(fs, {ManifestWork})) else None
    else
      if ManifestWork in fs then None else Some(fs + [ManifestWork])
  }

  predicate PatchesFinalizers(h: Hub, h': Hub, plan: seq<Finalizer>) {
    && h.cluster.Some?
    && Accepts(h.cluster.value.obj, plan)
    && h' == h.(cluster := PutCluster(h.cluster.value, Patched(h.cluster.value.obj, plan)))
  }

  /** Objects can be created in the cluster's own namespace. */
  predicate Open(h: Hub) {
    h.ns.Some? && !h.ns.value.deleting
  }

  /**
   The manifestwork controller writes in the cluster namespace, the hosted one in the
   hosting one. An update of a work that is there changes nothing the protocol speaks of.
   */
  predicate CreatesWork(h: Hub, h': Hub, seen: Cluster, k: Key) {
    && k !in h.works && k in h'.works
    && h' == h.(works := h.works[k := h'.works[k]])
    && k.ns == (if seen.mode.Default? then h.name else seen.hosting)
    && h'.works[k].hostedFor == (if seen.mode.Default? then None else Some(h.name))
    && (k.ns == h.name ==> Open(h))
  }

  // ---- the moves of each controller ----

  /** Reads of the cluster, the addons and, at the end, the binding are cached; the others are not. */
  predicate CleanupLooks(e: Look, h: Hub, k: Cache, c: Cleanup, c': Cleanup) {
    match e
    case CleanupBegin => c.Idle? && k.clusters != [] && c' == Begun(k.clusters[0])
    case SawWorks =>
      c.Active? && c' == c.(noWorks := c.noWorks || h.WorksWithin({}), crdReady := c.crdReady || h.CrdReady())
    case SawAddons => c.Active? && k.addons != [] && c' == c.(noAddons := c.noAddons || k.addons[0] == map[])
    case SawBinding => c.Active? && k.bindings != [] && c' == c.(noBinding := c.noBinding || k.bindings[0].None?)
    case SawHosting =>
      && c.Active? && c'.Active? && c'.hostingSeen.Some?
      && h.HostingNames(c.seen.hosting, c'.hostingSeen.value)
      && c' == c.(noHosting := c.noHosting || c'.hostingSeen.value == {}, hostingSeen := c'.hostingSeen)
  }

  predicate CleanupActs(e: Act, h: Hub, c: Cleanup, h': Hub) {
    match e
    case ForceAddon(n, wr) => MayForce(c) && ForcesAddon(h, h', n, wr)
    case ForceWork(n, wr) => MayForceWork(c, n) && ForcesWork(h, h', n, wr)
    case ForceBinding(wr) => MayForce(c) && ForcesBinding(h, h', wr)
    case DeleteHosting(n) => MayDeleteHosting(c, n) && DeletesHosting(h, h', c.seen.hosting, n)
    case DropFinalizers => MayDrop(c) && DropsFinalizers(h, h', c.seen)
  }

  /** All reads of the namespace controller are cached. */
  predicate NsMoves(e: NsEvent, h: Hub, k: Cache, c: NsControl, h': Hub, c': NsControl) {
    match e
    case NsBegin => c.NsIdle? && k.namespaces != [] && Concerns(k.namespaces[0]) && c' == NsActive(false, false) && h' == h
    case NsSawCluster =>
      c.NsActive? && k.clusters != [] && c' == (if ReleasesNamespace(k.clusters[0]) then c.(clusterOk := true) else NsIdle) && h' == h
    case NsSawAddons =>
      c.NsActive? && c.clusterOk && k.addons != [] && c' == (if k.addons[0] == map[] then c.(addonsOk := true) else NsIdle) && h' == h
    case NsDelete =>
      c == NsActive(true, true) && c' == c && h.ns.Some? && h' == h.(ns := Some(h.ns.value.(deleting := true)))
    case NsEnd => c' == NsIdle && h' == h
  }

  predicate ApplierMoves(e: ApplierEvent, h: Hub, k: Cache, a: Applier, h': Hub, a': Applier) {
    match e
    case ApplierBegin => a.Resting? && k.clusters != [] && Starts(k.clusters[0]) && a' == Read(k.clusters[0].value) && h' == h
    case ApplierPlan(count) => a.Read? && a' == Planned(a.seen, count) && h' == h
    case ApplierPatch => a.Patching? && a' == Applying(a.seen) && PatchesFinalizers(h, h', a.plan)
    case ApplierCreate(key) => a.Applying? && a' == a && CreatesWork(h, h', a.seen, key)
    case ApplierEnd => a' == Resting && h' == h
  }

  /** A reading on which an applier goes to work. */
  predicate Starts(shown: Option<Cluster>) {
    IsLive(shown) && shown.value.HasApplier()
  }

  function Planned(seen: Cluster, count: nat): (a: Applier)
  {
    var plan := PlanFor(seen.obj.finalizers, count);
    if plan.Some? then Patching(seen, plan.value) else Applying(seen)
  }

  predicate MetaMoves(e: MetaEvent, h: Hub, k: Cache, p: Option<seq<Finalizer>>, h': Hub, p': Option<seq<Finalizer>>) {
    match e
    case MetaBegin =>
      && p.None? && k.clusters != [] && IsLive(k.clusters[0]) && Import !in k.clusters[0].value.obj.finalizers
      && p' == Some(k.clusters[0].value.obj.finalizers + [Import]) && h' == h
    case MetaPatch => p.Some? && p'.None? && (h' == h || PatchesFinalizers(h, h', p.value))
  }

  // ---- the step relation ----

  /** A move of somebody, and the cache as it follows. */
  predicate Step(w: World, w': World) {
    Moves(w, w') && Feeds(w, w')
  }

  /** Every write of the server reaches the cache sooner or later. */
  predicate Feeds(w: World, w': World) {
    if w'.last.CacheSync? then Syncs(w.cache, w'.cache) else w'.cache == Watched(w.cache, w'.hub)
  }

  /** What each controller remembers; `completed` tells that a cleanup has dropped our finalizers. */
  predicate SameCleaner(w: World, w': World) {
    w'.cleanup == w.cleanup && w'.completed == w.completed
  }

  predicate SameAdders(w: World, w': World) {
    w'.applier == w.applier && w'.metaPlan == w.metaPlan
  }

  predicate Moves(w: World, w': World) {
    match w'.last
    case CacheSync => w'.hub == w.hub && SameCleaner(w, w') && SameAdders(w, w') && w'.nsctl == w.nsctl
    case Environment(gone) =>
      EnvMoves(w.hub, w'.hub, gone) && SameCleaner(w, w') && SameAdders(w, w') && w'.nsctl == w.nsctl
    case UserDelete =>
      UserDeletes(w.hub, w'.hub) && SameCleaner(w, w') && SameAdders(w, w') && w'.nsctl == w.nsctl
    case Looks(e) =>
      && CleanupLooks(e, w.hub, w.cache, w.cleanup, w'.cleanup)
      && w'.hub == w.hub && w'.completed == w.completed && SameAdders(w, w') && w'.nsctl == w.nsctl
    case Acts(e) =>
      && CleanupActs(e, w.hub, w.cleanup, w'.hub)
      && w'.cleanup == w.cleanup && w'.completed == (w.completed || e.DropFinalizers?)
      && SameAdders(w, w') && w'.nsctl == w.nsctl
    case CleanupEnd =>
      w'.hub == w.hub && w'.cleanup == Idle && w'.completed == w.completed && SameAdders(w, w') && w'.nsctl == w.nsctl
    case Deletes(e) =>
      NsMoves(e, w.hub, w.cache, w.nsctl, w'.hub, w'.nsctl) && SameCleaner(w, w') && SameAdders(w, w')
    case Applies(e) =>
      && ApplierMoves(e, w.hub, w.cache, w.applier, w'.hub, w'.applier)
      && SameCleaner(w, w') && w'.metaPlan == w.metaPlan && w'.nsctl == w.nsctl
    case Tags(e) =>
      && MetaMoves(e, w.hub, w.cache, w.metaPlan, w'.hub, w'.metaPlan)
      && SameCleaner(w, w') && w'.applier == w.applier && w'.nsctl == w.nsctl
  }

  predicate UserDeletes(h: Hub, h': Hub) {
    h.Live() && h' == h.(cluster := PutCluster(h.cluster.value, Deleted(h.cluster.value.obj)))
  }

  /** Every controller is between reconciles, the cluster is live and the cache shows it as it is. */
  predicate Start(w: World) {
    && w.hub.Live() && w.cache == UpToDate(w.hub)
    && w.cleanup.Idle? && w.nsctl.NsIdle? && w.applier.Resting? && w.metaPlan.None? && !w.completed
  }

  predicate IsRun(run: seq<World>) {
    && run != []
    && Start(run[0])
    && forall i | 0 < i < |run| :: StepAt(run, i)
  }

  /** The `i`-th state of the run is one step from the one before. */
  predicate StepAt(run: seq<World>, i: nat)
    requires 0 < i < |run|
  {
    Step(run[i - 1], run[i])
  }
}
