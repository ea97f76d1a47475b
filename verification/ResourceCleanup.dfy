/**
 The resource cleanup controller, call by call. Every method keeps the ghost run
 a run of the protocol whatever happens in between; and when all is quiet (no
 failing call, nobody else moving) it has exactly the effect its specification
 function names.
 */
module ResourceCleanup {
  import opened Common
  import opened Kube
  import opened DetachProtocol
  import opened HubClients

  // ---- the quiet effect of each part ----

  function HostingPart(o: Obj): (r: seq<Finalizer>)
  {
    Only(o.finalizers, HostingFinalizers)
  }

  /** Addons after a forced deletion of those in `done`. */
  function ForceAddons(m: map<string, Obj>, done: set<string>): (r: map<string, Obj>)
  {
    map n | n in m && (n in done ==> HostingPart(m[n]) != []) :: if n in done then Obj(HostingPart(m[n]), true) else m[n]
  }

  /** Works without those of namespace `ns` that are in `done`. */
  function DropWorks(works: map<Key, Work>, ns: string, done: set<WorkName>): (r: map<Key, Work>)
  {
    map k | k in works && !(k.ns == ns && k.name in done) :: works[k]
  }

  /** Works after deletion requests for the names `done` of namespace `ns`. */
  function RequestWorks(works: map<Key, Work>, ns: string, done: set<WorkName>): (r: map<Key, Work>)
  {
    map k | k in works && (k.ns == ns && k.name in done ==> works[k].obj.finalizers != []) ::
      if k.ns == ns && k.name in done then works[k].(obj := works[k].obj.(deleting := true)) else works[k]
  }

  /** Which hosting works the next turn asks to delete. */
  function HostingTargets(names: set<WorkName>): (r: set<WorkName>)
  {
    var others := names - {HostedKlusterlet, HostedKubeconfig};
    if others != {} then others
    else if HostedKlusterlet in names then {HostedKlusterlet}
    else if HostedKubeconfig in names then {HostedKubeconfig}
    else {}
  }

  function HostingTurn(h: Hub, hosting: string): (r: Hub)
  {
    h.(works := RequestWorks(h.works, hosting, HostingTargets(HostingSet(h, hosting))))
  }

  /** The cluster's own namespace after its addons and works were forced. */
  function ForcedOwn(h: Hub): (r: Hub)
  {
    h.(addons := ForceAddons(h.addons, h.addons.Keys), works := DropWorks(h.works, h.name, WorksOf(h, h.name).Keys))
  }

  function AfterForce(h: Hub, c: Cluster): (r: Hub)
  {
    if h.ns.None? then h else ForcedRest(ForcedOwn(h), c)
  }

  /** The hosting works and the binding, once the cluster's own namespace was forced. */
  function ForcedRest(h: Hub, c: Cluster): (r: Hub)
  {
    if !c.OnHosting() then h.(binding := None)
    else if h.addons != map[] then h
    else HostingTurn(h, c.hosting).(binding := None)
  }

  function AfterOrphan(h: Hub): (r: Hub)
  {
    if h.ns.None? then h else ForcedOwn(h).(binding := None)
  }

  function AfterOrderly(h: Hub, c: Cluster): (r: Hub)
  {
    if h.addons != map[] then h else OrderlyRest(h, c)
  }

  /** Works and hosting works, once the addons are gone. */
  function OrderlyRest(h: Hub, c: Cluster): (r: Hub)
  {
    var listed := WorksOf(h, h.name);
    if |listed| > 1 then h
    else if listed.Keys == {KlusterletCrds} then
      if listed[KlusterletCrds].agentDeleting then h.(works := DropWorks(h.works, h.name, {KlusterletCrds})) else h
    else if c.OnHosting() && listed == map[] then HostingTurn(h, c.hosting)
    else h
  }

  function AfterDrop(h: Hub, c: Cluster): (r: Hub)
  {
    var left := Without(c.obj.finalizers, OwnFinalizers);
    if left == c.obj.finalizers then h else h.(cluster := PutCluster(c, Patched(c.obj, left)))
  }

  /** One reconcile from start to end, undisturbed. */
  function QuietReconcile(h: Hub): (r: Hub)
  {
    match h.cluster
    case None => AfterOrphan(h)
    case Some(c) =>
      if !c.obj.deleting then h else CleanedUp(h, c)
  }

  /** The cleanup of a deleting cluster, forced or orderly, and its release when that leaves nothing. */
  function CleanedUp(h: Hub, c: Cluster): (r: Hub)
  {
    var h1 := if c.NeedsForce() then AfterForce(h, c) else AfterOrderly(h, c);
    if h1.Clean(c) then AfterDrop(h1, c) else h1
  }

  /** A marked object without finalizers has already disappeared. */
  predicate WellFormed(h: Hub) {
    && (forall n | n in h.addons :: h.addons[n].deleting ==> h.addons[n].finalizers != [])
    && (h.binding.Some? && h.binding.value.deleting ==> h.binding.value.finalizers != [])
  }

  // ---- addons ----

  /** The loop that keeps the hosting finalizers of an addon. */
  method KeepHosting(fs: seq<Finalizer>) returns (r: seq<Finalizer>)
    ensures r == Only(fs, HostingFinalizers)
  {
    r := [];
    for i := 0 to |fs|
      invariant r + Only(fs[i..], HostingFinalizers) == Only(fs, HostingFinalizers)
    {
      assert fs[i..][1..] == fs[i + 1..];
      if fs[i] in HostingFinalizers {
        r := r + [fs[i]];
      }
    }
  }

  /** A delete request unless one is under way, then a patch if it would change anything. */
  lemma StripEffect(m: map<string, Obj>, n: string)
    requires n in m && (m[n].deleting ==> m[n].finalizers != [])
    ensures var kept := HostingPart(m[n]);
            var m1 := if m[n].deleting then m else PutAddon(m, n, Deleted(m[n]));
            && (n in m1 ==> m1[n] == Obj(m[n].finalizers, true))
            && (|kept| == |m[n].finalizers| ==> m1 == ForceAddons(m, {n}))
            && (n !in m1 ==> m1 == ForceAddons(m, {n}))
            && (n in m1 && |kept| != |m[n].finalizers| ==>
                  Accepts(m1[n], kept) && PutAddon(m1, n, Patched(m1[n], kept)) == ForceAddons(m, {n}))
  {
    OnlyLength(m[n].finalizers, HostingFinalizers);
    ForceOneAddon(m, n);
    MarkOneAddon(m, n);
  }

  lemma ForceOneAddon(m: map<string, Obj>, n: string)
    requires n in m
    ensures var kept := HostingPart(m[n]);
            ForceAddons(m, {n}) == if kept == [] then m - {n} else m[n := Obj(kept, true)]
  {
  }

  lemma MarkOneAddon(m: map<string, Obj>, n: string)
    requires n in m && (m[n].deleting ==> m[n].finalizers != [])
    ensures var m1 := if m[n].deleting then m else PutAddon(m, n, Deleted(m[n]));
            m1 == if m[n].finalizers == [] then m - {n} else m[n := Obj(m[n].finalizers, true)]
  {
  }

  method ForceDeleteAddon(api: HubClient, n: string) returns (err: bool)
    requires api.Valid() && MayForce(api.Now().cleanup)
    modifies api
    ensures api.Valid() && old(api.run) <= api.run && api.hub.name == old(api.hub.name)
    ensures api.Now().cleanup == old(api.Now().cleanup)
    ensures api.quiet && WellFormed(old(api.hub)) ==>
              !err && api.hub == old(api.hub).(addons := ForceAddons(old(api.hub.addons), {n}))
  {
    var got := api.GetAddon(n);
    if got.Err? {
      return true;
    }
    if got.value.None? {
      assert api.quiet ==> ForceAddons(api.hub.addons, {n}) == api.hub.addons;
      return false;
    }
    var addon := got.value.value;
    if api.quiet && WellFormed(api.hub) {
      StripEffect(api.hub.addons, n);
    }
    if !addon.deleting {
      var st := api.WriteAddon(n, Delete);
      if st.NotFound? {
        return false;
      }
      if st.Failed? {
        return true;
      }
    }
    var kept := KeepHosting(addon.finalizers);
    if |kept| != |addon.finalizers| {
      var st := api.WriteAddon(n, Patch(kept));
      if st.Failed? {
        return true;
      }
    }
    return false;
  }

  lemma ForceAddonsStep(m: map<string, Obj>, done: set<string>, n: string)
    requires n !in done
    ensures ForceAddons(ForceAddons(m, done), {n}) == ForceAddons(m, done + {n})
  {
  }

  lemma NoneForced(m: map<string, Obj>)
    ensures ForceAddons(m, {}) == m
  {
  }

  lemma StillWellFormed(h: Hub, done: set<string>)
    requires WellFormed(h)
    ensures WellFormed(h.(addons := ForceAddons(h.addons, done)))
  {
  }

  method ForceDeleteAllAddons(api: HubClient) returns (err: bool)
    requires api.Valid() && MayForce(api.Now().cleanup)
    modifies api
    ensures api.Valid() && old(api.run) <= api.run && api.hub.name == old(api.hub.name)
    ensures Learned(old(api.Now().cleanup), api.Now().cleanup)
    ensures api.quiet && WellFormed(old(api.hub)) ==>
              !err && api.hub == old(api.hub).(addons := ForceAddons(old(api.hub.addons), old(api.hub.addons).Keys))
  {
    var listed := api.ListAddons();
    if listed.Err? {
      return true;
    }
    var todo := listed.value;
    ghost var first, done: set<string> := api.hub, {};
    NoneForced(first.addons);
    while todo != {}
      invariant api.Valid() && old(api.run) <= api.run && api.hub.name == old(api.hub.name)
      invariant done !! todo && done + todo == listed.value
      invariant Learned(old(api.Now().cleanup), api.Now().cleanup) && MayForce(api.Now().cleanup)
      invariant api.quiet && WellFormed(first) ==> api.hub == first.(addons := ForceAddons(first.addons, done))
      decreases todo
    {
      var n :| n in todo;
      if WellFormed(first) {
        StillWellFormed(first, done);
      }
      err := ForceDeleteAddon(api, n);
      if err {
        return;
      }
      ForceAddonsStep(first.addons, done, n);
      done := done + {n};
      todo := todo - {n};
    }
    assert done == listed.value;
    return false;
  }

  // ---- works ----

  lemma DropOneWork(works: map<Key, Work>, ns: string, n: WorkName)
    ensures DropWorks(works, ns, {n}) == works - {Key(ns, n)}
    ensures Key(ns, n) !in works ==> works - {Key(ns, n)} == works
  {
  }

  method ForceDeleteWork(api: HubClient, n: WorkName) returns (err: bool)
    requires api.Valid() && MayForceWork(api.Now().cleanup, n)
    modifies api
    ensures api.Valid() && old(api.run) <= api.run && api.hub.name == old(api.hub.name)
    ensures api.Now().cleanup == old(api.Now().cleanup)
    ensures api.quiet ==>
              !err && api.hub == old(api.hub).(works := DropWorks(old(api.hub.works), api.hub.name, {n}))
  {
    var got := api.GetWork(n);
    if got.Err? {
      return true;
    }
    DropOneWork(api.hub.works, api.hub.name, n);
    if got.value.None? {
      return false;
    }
    var st := api.WriteWork(n, Delete);
    if st.Failed? {
      return true;
    }
    if st.NotFound? {
      return false;
    }
    err := StripWork(api, n);
  }

  /** Reload a work whose deletion was requested and strip it of its finalizers. */
  method StripWork(api: HubClient, n: WorkName) returns (err: bool)
    requires api.Valid() && MayForceWork(api.Now().cleanup, n)
    modifies api
    ensures api.Valid() && old(api.run) <= api.run && api.hub.name == old(api.hub.name)
    ensures api.Now().cleanup == old(api.Now().cleanup)
    ensures api.quiet && (Key(api.hub.name, n) in old(api.hub.works) ==> Marked(old(api.hub.works)[Key(api.hub.name, n)].obj)) ==>
              !err && api.hub == old(api.hub).(works := old(api.hub.works) - {Key(api.hub.name, n)})
  {
    var got := api.GetWork(n);
    if got.Err? {
      return true;
    }
    if got.value.None? {
      return false;
    }
    if |got.value.value.finalizers| != 0 {
      var st := api.WriteWork(n, Patch([]));
      if st.Failed? {
        return true;
      }
    }
    return false;
  }

  /** An object whose deletion waits for its finalizers. */
  predicate Marked(o: Obj) {
    o.deleting && o.finalizers != []
  }

  lemma DropWorksStep(works: map<Key, Work>, ns: string, done: set<WorkName>, n: WorkName)
    ensures DropWorks(DropWorks(works, ns, done), ns, {n}) == DropWorks(works, ns, done + {n})
  {
  }

  lemma NoneDropped(works: map<Key, Work>, ns: string)
    ensures DropWorks(works, ns, {}) == works
  {
  }

  method ForceDeleteAllWorks(api: HubClient) returns (err: bool)
    requires api.Valid() && MayForce(api.Now().cleanup)
    modifies api
    ensures api.Valid() && old(api.run) <= api.run && api.hub.name == old(api.hub.name)
    ensures Learned(old(api.Now().cleanup), api.Now().cleanup)
    ensures api.quiet ==>
              && !err
              && api.hub == old(api.hub).(works := DropWorks(old(api.hub.works), api.hub.name,
                                                             WorksOf(old(api.hub), api.hub.name).Keys))
  {
    var listed := api.ListWorks();
    if listed.Err? {
      return true;
    }
    var names := listed.value.Keys;
    var todo := names;
    ghost var first, done: set<WorkName> := api.hub, {};
    NoneDropped(first.works, first.name);
    while todo != {}
      invariant api.Valid() && old(api.run) <= api.run && api.hub.name == old(api.hub.name)
      invariant done !! todo && done + todo == names
      invariant Learned(old(api.Now().cleanup), api.Now().cleanup) && MayForce(api.Now().cleanup)
      invariant api.quiet ==> api.hub == first.(works := DropWorks(first.works, first.name, done))
      decreases todo
    {
      var n :| n in todo;
      err := ForceDeleteWork(api, n);
      if err {
        return;
      }
      DropWorksStep(first.works, first.name, done, n);
      done := done + {n};
      todo := todo - {n};
    }
    assert done == names;
    return false;
  }

  // ---- the work role binding ----

  method ForceDeleteBinding(api: HubClient) returns (err: bool)
    requires api.Valid() && MayForce(api.Now().cleanup)
    modifies api
    ensures api.Valid() && old(api.run) <= api.run && api.hub.name == old(api.hub.name)
    ensures Learned(old(api.Now().cleanup), api.Now().cleanup)
    ensures api.quiet && WellFormed(old(api.hub)) ==> !err && api.hub == old(api.hub).(binding := None)
  {
    var got := api.GetBinding();
    if got.Err? {
      return true;
    }
    if got.value.None? {
      return false;
    }
    if !got.value.value.deleting {
      var st := api.WriteBinding(Delete);
      if st.Failed? {
        return true;
      }
    }
    err := StripBinding(api);
  }

  method StripBinding(api: HubClient) returns (err: bool)
    requires api.Valid() && MayForce(api.Now().cleanup)
    modifies api
    ensures api.Valid() && old(api.run) <= api.run && api.hub.name == old(api.hub.name)
    ensures api.Now().cleanup == old(api.Now().cleanup)
    ensures api.quiet && (old(api.hub.binding).Some? ==> Marked(old(api.hub.binding).value)) ==>
              !err && api.hub == old(api.hub).(binding := None)
  {
    var got := api.GetBinding();
    if got.Err? {
      return true;
    }
    if got.value.None? {
      return false;
    }
    if |got.value.value.finalizers| != 0 {
      var st := api.WriteBinding(Patch([]));
      if st.Failed? {
        return true;
      }
    }
    return false;
  }

  // ---- works in the hosting namespace ----

  lemma RequestWorksStep(works: map<Key, Work>, ns: string, done: set<WorkName>, n: WorkName)
    requires n !in done && Key(ns, n) in works
    ensures Key(ns, n) in RequestWorks(works, ns, done)
    ensures var mid := RequestWorks(works, ns, done);
            PutWork(mid, Key(ns, n), Deleted(mid[Key(ns, n)].obj)) == RequestWorks(works, ns, done + {n})
  {
  }

  /** Ask for the deletion of every work in `names`; failures do not stop the loop. */
  method DeleteHostingOthers(api: HubClient, hosting: string, names: set<WorkName>) returns (err: bool)
    requires api.Valid() && api.Now().cleanup.Active? && api.Now().cleanup.seen.hosting == hosting
    requires forall n | n in names :: MayDeleteHosting(api.Now().cleanup, n)
    modifies api
    ensures api.Valid() && old(api.run) <= api.run && api.hub.name == old(api.hub.name)
    ensures api.Now().cleanup == old(api.Now().cleanup)
    ensures api.quiet && (forall n | n in names :: Key(hosting, n) in old(api.hub.works)) ==>
              !err && api.hub == old(api.hub).(works := RequestWorks(old(api.hub.works), hosting, names))
  {
    err := false;
    var todo := names;
    ghost var first := api.hub;
    ghost var known := forall n | n in names :: Key(hosting, n) in first.works;
    assert RequestWorks(first.works, hosting, {}) == first.works;
    ghost var done: set<WorkName> := {};
    while todo != {}
      invariant api.Valid() && old(api.run) <= api.run && api.hub.name == old(api.hub.name)
      invariant api.Now().cleanup == old(api.Now().cleanup)
      invariant done !! todo && done + todo == names
      invariant api.quiet && known ==>
                  !err && api.hub == first.(works := RequestWorks(first.works, hosting, done))
      decreases todo
    {
      var n :| n in todo;
      if known {
        RequestWorksStep(first.works, hosting, done, n);
      }
      var st := api.DeleteHostingWork(hosting, n);
      err := err || st.Failed?;
      done := done + {n};
      todo := todo - {n};
    }
    assert done == names;
  }

  method DeleteHostingWorks(api: HubClient, hosting: string) returns (err: bool)
    requires api.Valid() && api.Now().cleanup.Active? && api.Now().cleanup.noAddons
    requires api.Now().cleanup.seen.OnHosting() && api.Now().cleanup.seen.hosting == hosting
    modifies api
    ensures api.Valid() && old(api.run) <= api.run && api.hub.name == old(api.hub.name)
    ensures Learned(old(api.Now().cleanup), api.Now().cleanup)
    ensures api.quiet ==> !err && api.hub == HostingTurn(old(api.hub), hosting)
  {
    var listed := api.ListHosting(hosting);
    if listed.Err? {
      return true;
    }
    var names := listed.value;
    if names == {} {
      assert RequestWorks(api.hub.works, hosting, {}) == api.hub.works;
      return false;
    }
    var others := names - {HostedKlusterlet, HostedKubeconfig};
    if others == {} {
      if HostedKlusterlet in names {
        err := DeleteLast(api, hosting, HostedKlusterlet);
        return;
      }
      if HostedKubeconfig in names {
        err := DeleteLast(api, hosting, HostedKubeconfig);
        return;
      }
      return false;
    }
    err := DeleteHostingOthers(api, hosting, others);
  }

  /** A delete whose NotFound is an error like any other. */
  method DeleteLast(api: HubClient, hosting: string, n: WorkName) returns (err: bool)
    requires api.Valid() && MayDeleteHosting(api.Now().cleanup, n) && api.Now().cleanup.seen.hosting == hosting
    modifies api
    ensures api.Valid() && old(api.run) <= api.run && api.hub.name == old(api.hub.name)
    ensures api.Now().cleanup == old(api.Now().cleanup)
    ensures api.quiet && Key(hosting, n) in old(api.hub.works) ==>
              !err && api.hub == old(api.hub).(works := RequestWorks(old(api.hub.works), hosting, {n}))
  {
    ghost var first := api.hub;
    var st := api.DeleteHostingWork(hosting, n);
    err := !st.Done?;
    assert RequestWorks(first.works, hosting, {}) == first.works;
    if Key(hosting, n) in first.works {
      RequestWorksStep(first.works, hosting, {}, n);
      assert {} + {n} == {n};
    }
  }

  // ---- the three ways to clean up ----

  /** The addons and the works of the cluster's own namespace; an error with one does not spare the other. */
  method ForceOwn(api: HubClient) returns (err: bool)
    requires api.Valid() && MayForce(api.Now().cleanup)
    modifies api
    ensures api.Valid() && old(api.run) <= api.run && api.hub.name == old(api.hub.name)
    ensures Learned(old(api.Now().cleanup), api.Now().cleanup)
    ensures api.quiet && WellFormed(old(api.hub)) ==> !err && api.hub == ForcedOwn(old(api.hub)) && WellFormed(api.hub)
  {
    var e1 := ForceDeleteAllAddons(api);
    var e2 := ForceDeleteAllWorks(api);
    err := e1 || e2;
  }

  method OrphanCleanup(api: HubClient) returns (err: bool)
    requires api.Valid() && api.Now().cleanup.Orphaned?
    modifies api
    ensures api.Valid() && old(api.run) <= api.run
    ensures api.quiet && WellFormed(old(api.hub)) ==> !err && api.hub == AfterOrphan(old(api.hub))
  {
    var found := api.GetNamespace();
    if found.Err? {
      return true;
    }
    if !found.value {
      return false;
    }
    var e1 := ForceOwn(api);
    var e2 := ForceDeleteBinding(api);
    err := e1 || e2;
  }

  method ForceCleanup(api: HubClient, c: Cluster) returns (err: bool)
    requires api.Valid() && api.Now().cleanup.Active? && api.Now().cleanup.seen == c && c.NeedsForce()
    modifies api
    ensures api.Valid() && old(api.run) <= api.run && api.hub.name == old(api.hub.name)
    ensures Learned(old(api.Now().cleanup), api.Now().cleanup)
    ensures api.quiet && WellFormed(old(api.hub)) ==> !err && api.hub == AfterForce(old(api.hub), c)
  {
    var found := api.GetNamespace();
    if found.Err? {
      return true;
    }
    if !found.value {
      return false;
    }
    var e1 := ForceOwn(api);
    var e2 := ForceRest(api, c);
    err := e1 || e2;
  }

  method ForceRest(api: HubClient, c: Cluster) returns (err: bool)
    requires api.Valid() && api.Now().cleanup.Active? && api.Now().cleanup.seen == c && c.NeedsForce()
    modifies api
    ensures api.Valid() && old(api.run) <= api.run && api.hub.name == old(api.hub.name)
    ensures Learned(old(api.Now().cleanup), api.Now().cleanup)
    ensures api.quiet && WellFormed(old(api.hub)) ==> !err && api.hub == ForcedRest(old(api.hub), c)
  {
    var e1 := false;
    if c.OnHosting() {
      // a failing list is dropped here: only the earlier errors are reported
      var addons := api.ListAddons();
      if addons.Err? || addons.value != {} {
        return false;
      }
      e1 := DeleteHostingWorks(api, c.hosting);
    }
    var e2 := ForceDeleteBinding(api);
    err := e1 || e2;
  }

  method OrderlyCleanup(api: HubClient, c: Cluster) returns (err: bool)
    requires api.Valid() && api.Now().cleanup.Active? && api.Now().cleanup.seen == c
    modifies api
    ensures api.Valid() && old(api.run) <= api.run && api.hub.name == old(api.hub.name)
    ensures Learned(old(api.Now().cleanup), api.Now().cleanup)
    ensures api.quiet ==> !err && api.hub == AfterOrderly(old(api.hub), c)
  {
    var addons := api.ListAddons();
    if addons.Err? || addons.value != {} {
      return addons.Err?;
    }
    err := OrderlyCleanupRest(api, c);
  }

  method OrderlyCleanupRest(api: HubClient, c: Cluster) returns (err: bool)
    requires api.Valid() && api.Now().cleanup.Active? && api.Now().cleanup.seen == c && api.Now().cleanup.noAddons
    modifies api
    ensures api.Valid() && old(api.run) <= api.run && api.hub.name == old(api.hub.name)
    ensures Learned(old(api.Now().cleanup), api.Now().cleanup)
    ensures api.quiet ==> !err && api.hub == OrderlyRest(old(api.hub), c)
  {
    var works := api.ListWorks();
    if works.Err? || |works.value| > 1 {
      return works.Err?;
    }
    if works.value.Keys == {KlusterletCrds} {
      if !works.value[KlusterletCrds].agentDeleting {
        return false;
      }
      err := ForceDeleteWork(api, KlusterletCrds);
      if err {
        return;
      }
    }
    if !c.OnHosting() {
      return false;
    }
    if |works.value| > 0 {
      return false;
    }
    err := DeleteHostingWorks(api, c.hosting);
  }

  // ---- the end of a reconcile ----

  /** Works, addons and binding of the cluster's own namespace. */
  method OwnCompleted(api: HubClient) returns (done: bool, err: bool)
    requires api.Valid() && api.Now().cleanup.Active?
    modifies api
    ensures api.Valid() && old(api.run) <= api.run && api.hub.name == old(api.hub.name)
    ensures Learned(old(api.Now().cleanup), api.Now().cleanup)
    ensures done ==> !err && api.Now().cleanup.noWorks && api.Now().cleanup.noAddons && api.Now().cleanup.noBinding
    ensures api.quiet ==>
              && !err && api.hub == old(api.hub)
              && (done <==> api.hub.WorksWithin({}) && api.hub.addons == map[] && api.hub.binding.None?)
  {
    var works := api.ListWorks();
    if works.Err? || works.value != map[] {
      assert works.Ok? ==> exists n :: n in works.value;
      return false, works.Err?;
    }
    var addons := api.ListAddons();
    if addons.Err? || addons.value != {} {
      return false, addons.Err?;
    }
    var binding := api.ShownBinding();
    if binding.Err? || binding.value.Some? {
      return false, binding.Err?;
    }
    return true, false;
  }

  method CleanupCompleted(api: HubClient, c: Cluster) returns (done: bool, err: bool)
    requires api.Valid() && api.Now().cleanup.Active? && api.Now().cleanup.seen == c
    modifies api
    ensures api.Valid() && old(api.run) <= api.run && api.hub.name == old(api.hub.name)
    ensures Learned(old(api.Now().cleanup), api.Now().cleanup)
    ensures done ==> !err && MayDrop(api.Now().cleanup)
    ensures api.quiet ==> !err && api.hub == old(api.hub) && done == api.hub.Clean(c)
  {
    done, err := OwnCompleted(api);
    if !done || !c.OnHosting() {
      return;
    }
    var hosting := api.ListHosting(c.hosting);
    if hosting.Err? || hosting.value != {} {
      return false, hosting.Err?;
    }
    return true, false;
  }

  method RemoveClusterFinalizers(api: HubClient, c: Cluster) returns (err: bool)
    requires api.Valid() && MayDrop(api.Now().cleanup) && api.Now().cleanup.seen == c
    modifies api
    ensures api.Valid() && old(api.run) <= api.run
    ensures api.quiet && old(api.hub.cluster) == Some(c) ==> !err && api.hub == AfterDrop(old(api.hub), c)
  {
    var copied: seq<Finalizer> := [];
    for i := 0 to |c.obj.finalizers|
      invariant copied + Without(c.obj.finalizers[i..], OwnFinalizers) == Without(c.obj.finalizers, OwnFinalizers)
    {
      assert c.obj.finalizers[i..][1..] == c.obj.finalizers[i + 1..];
      if c.obj.finalizers[i] == Import || c.obj.finalizers[i] == ManifestWork {
        continue;
      }
      copied := copied + [c.obj.finalizers[i]];
    }
    WithoutLength(c.obj.finalizers, OwnFinalizers);
    if |c.obj.finalizers| == |copied| {
      return false;
    }
    var st := api.PatchCluster(c, copied);
    err := st.Failed?;
  }

  method Reconcile(api: HubClient) returns (err: bool)
    requires api.Valid() && api.Now().cleanup.Idle?
    modifies api
    ensures api.Valid() && old(api.run) <= api.run && api.Now().cleanup.Idle?
    ensures api.quiet && WellFormed(old(api.hub)) ==> !err && api.hub == QuietReconcile(old(api.hub))
  {
    var got := api.GetCluster();
    if got.Err? {
      return true;
    }
    if got.value.None? {
      err := OrphanCleanup(api);
      api.EndCleanup();
      return;
    }
    var c := got.value.value;
    if !c.obj.deleting {
      return false;
    }
    // the write of the detaching condition may fail
    err := api.Fails();
    if err {
      api.EndCleanup();
      return;
    }
    err := CleanUp(api, c);
    api.EndCleanup();
  }

  /** The part of a reconcile that a deleting cluster gets. */
  method CleanUp(api: HubClient, c: Cluster) returns (err: bool)
    requires api.Valid() && api.Now().cleanup.Active? && api.Now().cleanup.seen == c
    modifies api
    ensures api.Valid() && old(api.run) <= api.run
    ensures api.quiet && WellFormed(old(api.hub)) && old(api.hub.cluster) == Some(c) ==>
              !err && api.hub == CleanedUp(old(api.hub), c)
  {
    if c.NeedsForce() {
      err := ForceCleanup(api, c);
    } else {
      err := OrderlyCleanup(api, c);
    }
    if err {
      return;
    }
    var done;
    done, err := CleanupCompleted(api, c);
    if done {
      err := RemoveClusterFinalizers(api, c);
    }
  }
}
