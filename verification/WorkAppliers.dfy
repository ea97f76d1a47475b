/**
 The controllers that give a cluster its finalizers and works: manifestwork (or
 hosted) and managedcluster, as steps of the detach protocol.
 */
module WorkAppliers {
  import opened Common
  import opened Kube
  import opened DetachProtocol
  import opened HubClients

  /** The scan that appends a finalizer unless it is there. */
  method AddFinalizer(fs: seq<Finalizer>, f: Finalizer) returns (r: seq<Finalizer>, modified: bool)
    ensures modified <==> f !in fs
    ensures r == if modified then fs + [f] else fs
  {
    for i := 0 to |fs|
      invariant f !in fs[..i]
    {
      if fs[i] == f {
        return fs, false;
      }
      assert fs[..i + 1] == fs[..i] + [fs[i]];
    }
    assert fs[..|fs|] == fs;
    return fs + [f], true;
  }

  /** The loop that copies every other finalizer. */
  method RemoveFinalizer(fs: seq<Finalizer>, f: Finalizer) returns (r: seq<Finalizer>, modified: bool)
    ensures r == Without(fs, {f})
    ensures modified <==> f in fs
  {
    r := [];
    for i := 0 to |fs|
      invariant r + Without(fs[i..], {f}) == Without(fs, {f})
    {
      assert fs[i..][1..] == fs[i + 1..];
      if fs[i] == f {
        continue;
      }
      r := r + [fs[i]];
    }
    WithoutLength(fs, {f});
    modified := |fs| != |r|;
  }

  method AssertManifestWorkFinalizer(api: HubClient, seen: Cluster, works: nat) returns (err: bool)
    requires api.Valid() && api.Now().applier == Read(seen)
    modifies api
    ensures api.Valid() && old(api.run) <= api.run
    ensures !err ==> api.Now().applier == Applying(seen)
    ensures api.quiet && old(api.hub.cluster) == Some(seen) && !seen.obj.deleting ==>
              && !err
              && api.hub.Live()
              && (ManifestWork in api.hub.cluster.value.obj.finalizers <==> works != 0)
              && Without(api.hub.cluster.value.obj.finalizers, {ManifestWork}) == Without(seen.obj.finalizers, {ManifestWork})
              && api.hub == old(api.hub).(cluster := api.hub.cluster)
  {
    api.Decide(works);
    var plan, modified;
    if works == 0 {
      plan, modified := RemoveFinalizer(seen.obj.finalizers, ManifestWork);
      WithoutTwice(seen.obj.finalizers, {ManifestWork}, {ManifestWork});
      assert {ManifestWork} + {ManifestWork} == {ManifestWork};
    } else {
      plan, modified := AddFinalizer(seen.obj.finalizers, ManifestWork);
      WithoutAppend(seen.obj.finalizers, ManifestWork);
    }
    if !modified {
      return false;
    }
    var st := api.AdderPatch(plan);
    err := !st.Done?;
  }

  lemma {:induction false} WithoutAppend(fs: seq<Finalizer>, f: Finalizer)
    ensures Without(fs + [f], {f}) == Without(fs, {f})
  {
    if fs != [] {
      WithoutAppend(fs[1..], f);
      assert (fs + [f])[1..] == fs[1..] + [f];
    }
  }

  /** Where a rendered work goes: the hosting namespace, labelled with the cluster, or the cluster's own. */
  function Placed(cluster: string, c: Cluster, n: WorkName, work: Work): (r: (Key, Work))
  {
    if c.mode.Default? then (Key(cluster, n), work.(hostedFor := None)) else (Key(c.hosting, n), work.(hostedFor := Some(cluster)))
  }

  /** The works once those of the rendered ones that are missing are created, one after the other. */
  function Applied(works: map<Key, Work>, cluster: string, c: Cluster, desired: seq<(WorkName, Work)>): (r: map<Key, Work>)
  {
    if desired == [] then works
    else
      var before := Applied(works, cluster, c, desired[..|desired| - 1]);
      var (k, work) := Placed(cluster, c, desired[|desired| - 1].0, desired[|desired| - 1].1);
      if k in before then before else before[k := work]
  }

  /** Works can be created where the cluster's go. */
  predicate Writable(h: Hub, c: Cluster) {
    c.mode.Default? || c.hosting == h.name ==> Open(h)
  }

  /** One reconcile: `works` is the informer's count, `desired` what the import secret renders to. */
  method ReconcileWorks(api: HubClient, works: nat, desired: seq<(WorkName, Work)>) returns (err: bool)
    requires api.Valid() && api.Now().applier.Resting?
    modifies api
    ensures api.Valid() && old(api.run) <= api.run && api.Now().applier.Resting?
    ensures api.quiet && !Starts(old(api.hub.cluster)) ==> !err && api.hub == old(api.hub)
    ensures Starts(old(api.hub.cluster)) <==>
              match old(api.hub.cluster)
              case None => false
              case Some(c) => !c.obj.deleting && (c.mode == Default || (c.mode == Hosted && c.hosting != ""))
    ensures api.quiet && Starts(old(api.hub.cluster)) && Writable(old(api.hub), old(api.hub.cluster).value) ==>
              && !err && api.hub.Live()
              && (ManifestWork in api.hub.cluster.value.obj.finalizers <==> works != 0)
              && api.hub == old(api.hub).(cluster := api.hub.cluster,
                                          works := Applied(old(api.hub.works), api.hub.name, old(api.hub.cluster).value, desired))
  {
    var got := api.AdderGetCluster();
    if got.Err? || !Starts(got.value) {
      api.EndAdder();
      return got.Err?;
    }
    var seen := got.value.value;
    err := AssertManifestWorkFinalizer(api, seen, works);
    if err {
      api.EndAdder();
      return;
    }
    err := ApplyEach(api, seen, desired);
    api.EndAdder();
  }

  /** Every work is tried; errors are collected. */
  method ApplyEach(api: HubClient, seen: Cluster, desired: seq<(WorkName, Work)>) returns (err: bool)
    requires api.Valid() && api.Now().applier == Applying(seen)
    modifies api
    ensures api.Valid() && old(api.run) <= api.run
    ensures api.quiet && Writable(old(api.hub), seen) ==>
              !err && api.hub == old(api.hub).(works := Applied(old(api.hub.works), api.hub.name, seen, desired))
  {
    err := false;
    ghost var first := api.hub;
    for i := 0 to |desired|
      invariant api.Valid() && old(api.run) <= api.run && api.Now().applier == Applying(seen)
      invariant api.quiet && Writable(first, seen) ==>
                  !err && api.hub == first.(works := Applied(first.works, first.name, seen, desired[..i]))
    {
      assert desired[..i + 1][..i] == desired[..i];
      var (k, work) := Placed(api.hub.name, seen, desired[i].0, desired[i].1);
      var st := api.AdderApply(k, work);
      err := err || !st.Done?;
    }
    assert desired[..|desired|] == desired;
  }

  /** The managedcluster controller keeps the import finalizer on a live cluster. */
  method EnsureImportFinalizer(api: HubClient) returns (err: bool)
    requires api.Valid() && api.Now().metaPlan.None?
    modifies api
    ensures api.Valid() && old(api.run) <= api.run && api.Now().metaPlan.None?
    ensures api.quiet && old(api.hub.Live()) ==>
              && !err && api.hub.Live()
              && Import in api.hub.cluster.value.obj.finalizers
              && old(api.hub.cluster).value.obj.finalizers <= api.hub.cluster.value.obj.finalizers
    ensures api.quiet && !old(api.hub.Live()) ==> api.hub == old(api.hub)
  {
    var got := api.TaggerGetCluster();
    if got.Err? {
      return true;
    }
    if got.value.None? || got.value.value.obj.deleting {
      return false;
    }
    var plan, modified := AddFinalizer(got.value.value.obj.finalizers, Import);
    if !modified {
      return false;
    }
    var st := api.TaggerPatch(plan);
    err := !st.Done?;
  }

  /** Where the cluster's works go. */
  function WorkSpace(cluster: string, c: Cluster): (r: string)
  {
    if c.mode.Default? then cluster else c.hosting
  }

  predicate Rendered(desired: seq<(WorkName, Work)>, n: WorkName) {
    exists i | 0 <= i < |desired| :: desired[i].0 == n
  }

  lemma RenderedLast(desired: seq<(WorkName, Work)>, n: WorkName)
    requires desired != []
    ensures Rendered(desired, n) <==> Rendered(desired[..|desired| - 1], n) || desired[|desired| - 1].0 == n
  {
  }

  lemma {:induction false} AppliedKeys(works: map<Key, Work>, cluster: string, c: Cluster, desired: seq<(WorkName, Work)>)
    ensures forall k :: k in Applied(works, cluster, c, desired)
                        <==> k in works || (k.ns == WorkSpace(cluster, c) && Rendered(desired, k.name))
    ensures forall k | k in works :: Applied(works, cluster, c, desired)[k] == works[k]
  {
    if desired != [] {
      AppliedKeys(works, cluster, c, desired[..|desired| - 1]);
      forall n ensures Rendered(desired, n) <==> Rendered(desired[..|desired| - 1], n) || desired[|desired| - 1].0 == n {
        RenderedLast(desired, n);
      }
    }
  }

  lemma {:induction false} FirstIsApplied(works: map<Key, Work>, cluster: string, c: Cluster, desired: seq<(WorkName, Work)>, i: nat)
    requires i < |desired| && !Rendered(desired[..i], desired[i].0)
    requires Key(WorkSpace(cluster, c), desired[i].0) !in works
    ensures var (k, work) := Placed(cluster, c, desired[i].0, desired[i].1);
            k in Applied(works, cluster, c, desired) && Applied(works, cluster, c, desired)[k] == work
  {
    var init := desired[..|desired| - 1];
    if i == |desired| - 1 {
      AppliedKeys(works, cluster, c, init);
    } else {
      assert init[..i] == desired[..i];
      FirstIsApplied(works, cluster, c, init, i);
    }
  }

  /**
   Key by key: each rendered name is a work where the cluster's go; one that was missing is
   the first rendered under its name, with the hosting label just for hosted clusters.
   Every work that was there is unchanged, and no other appears.
   */
  lemma AppliedExactly(works: map<Key, Work>, cluster: string, c: Cluster, desired: seq<(WorkName, Work)>)
    ensures var after := Applied(works, cluster, c, desired);
            var ns := if c.mode.Default? then cluster else c.hosting;
            && (forall k :: k in after <==> k in works || (k.ns == ns && exists i | 0 <= i < |desired| :: desired[i].0 == k.name))
            && (forall k | k in works :: after[k] == works[k])
            && (forall i | 0 <= i < |desired| && Key(ns, desired[i].0) !in works ::
                  (forall j | 0 <= j < i :: desired[j].0 != desired[i].0) ==>
                    after[Key(ns, desired[i].0)] == desired[i].1.(hostedFor := if c.mode.Default? then None else Some(cluster)))
  {
    var ns := WorkSpace(cluster, c);
    AppliedKeys(works, cluster, c, desired);
    forall k ensures Rendered(desired, k) <==> exists i | 0 <= i < |desired| :: desired[i].0 == k {
    }
    forall i | 0 <= i < |desired| && Key(ns, desired[i].0) !in works && (forall j | 0 <= j < i :: desired[j].0 != desired[i].0)
      ensures Applied(works, cluster, c, desired)[Key(ns, desired[i].0)]
              == desired[i].1.(hostedFor := if c.mode.Default? then None else Some(cluster))
    {
      FirstIsApplied(works, cluster, c, desired, i);
    }
  }
}
