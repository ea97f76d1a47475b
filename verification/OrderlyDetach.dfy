/**
 Progress of the orderly tear-down: it waits until the owners of the addons and works
 have done their part, and then releases the cluster within a fixed number of reconciles.
 */
module OrderlyDetach {
  import opened Common
  import opened Kube
  import opened DetachProtocol
  import opened HubClients
  import opened ResourceCleanup
  import opened ForcedDetach

  /** Deleting, and not to be forced. */
  predicate Orderly(h: Hub, c: Cluster) {
    h.cluster == Some(c) && c.obj.deleting && !c.NeedsForce()
  }

  /** The addons are gone, and of the works at most the CRD one is left, whose agent has begun to remove the CRD. */
  predicate OwnersDone(h: Hub) {
    h.addons == map[] && h.CrdReady()
  }

  predicate CrdLeft(h: Hub) {
    Key(h.name, KlusterletCrds) in h.works
  }

  /** What the listing of the cluster's own works tells, in terms of its length and keys. */
  lemma ListingTells(h: Hub)
    ensures h.CrdReady() <==> WorksOf(h, h.name) == map[]
                              || (WorksOf(h, h.name).Keys == {KlusterletCrds} && WorksOf(h, h.name)[KlusterletCrds].agentDeleting)
    ensures h.WorksWithin({}) <==> WorksOf(h, h.name) == map[]
    ensures |WorksOf(h, h.name)| == |WorksOf(h, h.name).Keys|
  {
    var listed := WorksOf(h, h.name);
    assert forall k | k in h.works && k.ns == h.name :: k == Key(h.name, k.name) && k.name in listed.Keys;
    if h.CrdReady() && listed != map[] {
      assert forall n | n in listed.Keys :: n == KlusterletCrds;
      assert listed.Keys != {};
      var n :| n in listed.Keys;
    }
  }

  /** Until the owners are done, an orderly reconcile changes nothing. */
  lemma OrderlyWaits(h: Hub, c: Cluster)
    requires Orderly(h, c) && !OwnersDone(h)
    ensures QuietReconcile(h) == h
  {
    ListingTells(h);
    var listed := WorksOf(h, h.name);
    if h.addons == map[] && |listed| <= 1 {
      assert listed != map[];
    }
  }

  /** The hub once the CRD work is gone. */
  function WithoutCrd(h: Hub): (r: Hub)
  {
    h.(works := DropWorks(h.works, h.name, {KlusterletCrds}))
  }

  lemma OrderlyTurn(h: Hub, c: Cluster)
    requires Orderly(h, c) && OwnersDone(h)
    ensures AfterOrderly(h, c) == if CrdLeft(h) then WithoutCrd(h) else if c.OnHosting() then HostingTurn(h, c.hosting) else h
    ensures WithoutCrd(h).WorksWithin({}) && (!CrdLeft(h) ==> WithoutCrd(h) == h)
  {
    ListingTells(h);
    var listed := WorksOf(h, h.name);
    if CrdLeft(h) {
      assert KlusterletCrds in listed.Keys;
      assert |{KlusterletCrds}| == 1;
    } else {
      assert listed == map[];
      DropOneWork(h.works, h.name, KlusterletCrds);
    }
  }

  /** Kinds of hosting work that must still go. */
  function KindsToGo(h: Hub, c: Cluster): (r: nat)
    ensures r <= 3
  {
    if c.OnHosting() then KindsLeft(HostingSet(WithoutCrd(h), c.hosting)) else 0
  }

  /** Reconciles that only remove something, before the one that releases the cluster. */
  function Removals(h: Hub, c: Cluster): (r: nat)
    ensures r <= 4
  {
    if KindsToGo(h, c) == 0 then 0 else KindsToGo(h, c) + Count(CrdLeft(h))
  }

  /** Ready to go: the owners are done, and the role binding is gone too. */
  predicate ReadyToGo(h: Hub, c: Cluster) {
    Orderly(h, c) && OwnersDone(h) && h.binding.None?
  }

  lemma CleanWhenNoneToGo(h: Hub, c: Cluster)
    requires h.WorksWithin({}) && h.addons == map[] && h.binding.None?
    ensures h.Clean(c) <==> (c.OnHosting() ==> HostingSet(h, c.hosting) == {})
  {
    if c.OnHosting() {
      CleanExactlyWhenNoKindLeft(h, c);
    }
  }

  lemma GoneMeansReleased(h: Hub, c: Cluster)
    requires ReadyToGo(h, c) && KindsToGo(h, c) == 0
    ensures Released(QuietReconcile(h)) && Released(Round(h, c))
  {
    OrderlyTurn(h, c);
    var r := AfterOrderly(h, c);
    var t := WithoutCrd(h);
    CleanWhenNoneToGo(t, c);
    if !CrdLeft(h) && c.OnHosting() {
      IdleTurn(h, c.hosting);
    }
    SameWorksClean(r, t, c);
    DropReleases(r, c);
  }

  lemma SameWorksClean(a: Hub, b: Hub, c: Cluster)
    requires a.name == b.name && a.works == b.works && a.addons == b.addons && a.binding == b.binding
    ensures a.Clean(c) <==> b.Clean(c)
  {
    assert forall k | k in a.works :: a.IsHostingWork(c.hosting, k) <==> b.IsHostingWork(c.hosting, k);
  }

  lemma TurnKeepsOwn(h: Hub, hosting: string)
    requires h.WorksWithin({})
    ensures HostingTurn(h, hosting).WorksWithin({})
  {
  }

  lemma AgentKeepsOwn(h: Hub, hosting: string)
    requires h.WorksWithin({})
    ensures AgentFinishes(h, hosting).WorksWithin({})
  {
  }

  lemma NothingOfCrd(h: Hub)
    requires h.WorksWithin({})
    ensures WithoutCrd(h) == h && !CrdLeft(h) && h.CrdReady()
  {
    DropOneWork(h.works, h.name, KlusterletCrds);
  }

  /** The agent only takes kinds away. */
  lemma AgentTakesKinds(h: Hub, hosting: string)
    ensures KindsLeft(HostingSet(AgentFinishes(h, hosting), hosting)) <= KindsLeft(HostingSet(h, hosting))
  {
    var t := AgentFinishes(h, hosting);
    forall n | n in HostingSet(t, hosting) ensures n in HostingSet(h, hosting) {
      assert t.IsHostingWork(hosting, Key(hosting, n));
      assert h.IsHostingWork(hosting, Key(hosting, n));
    }
    FewerKinds(HostingSet(t, hosting), HostingSet(h, hosting));
  }

  /** What the agent leaves of a hub that is not yet clean. */
  lemma AgentLeaves(r: Hub, c: Cluster)
    requires Orderly(r, c) && r.addons == map[] && r.binding.None? && r.WorksWithin({}) && c.OnHosting()
    ensures var t := AgentFinishes(r, c.hosting);
            ReadyToGo(t, c) && !CrdLeft(t) && KindsToGo(t, c) == KindsLeft(HostingSet(t, c.hosting))
  {
    var t := AgentFinishes(r, c.hosting);
    AgentKeepsOwn(r, c.hosting);
    NothingOfCrd(t);
  }

  /** Each round releases the cluster or comes one removal closer. */
  lemma OrderlyRoundAdvances(h: Hub, c: Cluster)
    requires ReadyToGo(h, c) && KindsToGo(h, c) > 0
    ensures Released(Round(h, c)) || (ReadyToGo(Round(h, c), c) && Removals(Round(h, c), c) < Removals(h, c))
  {
    OrderlyTurn(h, c);
    var r := AfterOrderly(h, c);
    if r.Clean(c) {
      DropReleases(r, c);
      assert Round(h, c).cluster == QuietReconcile(h).cluster;
    } else {
      assert QuietReconcile(h) == r;
      NotYetClean(h, c);
    }
  }

  lemma NotYetClean(h: Hub, c: Cluster)
    requires ReadyToGo(h, c) && KindsToGo(h, c) > 0
    ensures var t := AgentFinishes(AfterOrderly(h, c), c.hosting); ReadyToGo(t, c) && Removals(t, c) < Removals(h, c)
  {
    OrderlyTurn(h, c);
    var r := AfterOrderly(h, c);
    if CrdLeft(h) {
      AgentTakesKinds(r, c.hosting);
    } else {
      TurnKeepsOwn(h, c.hosting);
      TurnAndAgentTakeOneKind(h, c.hosting);
    }
    AgentLeaves(r, c);
  }

  /**
   Once the owners are done and the binding is gone, and with an agent that finishes the
   deletes requested in the hosting namespace between two reconciles, one round more
   than there are removals, at most five, releases the cluster; one, if it is not hosted.
   */
  lemma OrderlyReleasesInTime(h: Hub, c: Cluster)
    requires ReadyToGo(h, c)
    ensures Released(Rounds(h, c, Removals(h, c) + 1)) && Removals(h, c) <= (if c.OnHosting() then 4 else 0)
  {
    var f := (x: Hub) => Round(x, c);
    var ready := (x: Hub) => ReadyToGo(x, c);
    var left := (x: Hub) => Removals(x, c);
    forall x | Released(x) ensures Released(f(x)) {
      ReleasedStays(x, c);
    }
    forall x | ready(x) ensures Released(f(x)) || (ready(f(x)) && left(f(x)) < left(x)) {
      if KindsToGo(x, c) == 0 {
        GoneMeansReleased(x, c);
      } else {
        OrderlyRoundAdvances(x, c);
      }
    }
    Countdown(f, ready, Released, left, h, Removals(h, c));
  }
}
