/**
 Progress of the forced tear-down: what one undisturbed reconcile leaves behind
 and after how many of them the cluster is released.
 */
module ForcedDetach {
  import opened Common
  import opened Kube
  import opened DetachProtocol
  import opened HubClients
  import opened ResourceCleanup

  /** The cluster no longer carries a finalizer of this repository. */
  predicate Released(h: Hub) {
    h.cluster.Some? ==> forall f | f in h.cluster.value.obj.finalizers :: f !in OwnFinalizers
  }

  /**
   A forced cleanup leaves exactly the addons that hold a hosting finalizer, each
   marked and keeping just those, in order. The binding goes unless such addons keep
   a hosted cluster waiting. Cluster and namespace stay as they are.
   */
  lemma ForceLeavesOnlyHostingAddons(h: Hub, c: Cluster)
    requires h.ns.Some?
    ensures var r := AfterForce(h, c);
            && (forall n :: n in r.addons <==> n in h.addons && HostingPart(h.addons[n]) != [])
            && (forall n | n in r.addons :: r.addons[n] == Obj(HostingPart(h.addons[n]), true))
            && r.binding == (if c.OnHosting() && r.addons != map[] then h.binding else None)
            && r == h.(addons := r.addons, works := r.works, binding := r.binding)
  {
  }

  /** The hosting works whose deletion a forced cleanup requests. */
  function Requested(h: Hub, c: Cluster): (r: set<WorkName>)
  {
    if c.OnHosting() && ForcedOwn(h).addons == map[] then HostingTargets(HostingSet(ForcedOwn(h), c.hosting)) else {}
  }

  /**
   Of the works, a forced cleanup leaves none in the cluster's namespace; elsewhere it
   marks, or removes if nothing holds them, the hosting works whose turn it is, and
   leaves all others as they are.
   */
  lemma ForceOnWorks(h: Hub, c: Cluster)
    requires h.ns.Some?
    ensures var r := AfterForce(h, c);
            && r.WorksWithin({})
            && (forall k | k in r.works :: k in h.works)
            && (forall k | k in h.works && k.ns != h.name ::
                  if c.OnHosting() && k.ns == c.hosting && k.name in Requested(h, c)
                  then if h.works[k].obj.finalizers == [] then k !in r.works
                       else k in r.works && r.works[k] == h.works[k].(obj := h.works[k].obj.(deleting := true))
                  else k in r.works && r.works[k] == h.works[k])
  {
    OwnWorksDropped(h);
    WorksAfterForce(h, c);
    var own := ForcedOwn(h).works;
    assert forall k | k in own && c.OnHosting() && k.ns == c.hosting :: k == Key(c.hosting, k.name);
  }

  /** A forced cleanup requests the hosting works whose turn it is, of those left elsewhere. */
  lemma WorksAfterForce(h: Hub, c: Cluster)
    requires h.ns.Some?
    ensures AfterForce(h, c).name == h.name
    ensures AfterForce(h, c).works == RequestWorks(ForcedOwn(h).works, c.hosting, Requested(h, c))
  {
    var own := ForcedOwn(h).works;
    if Requested(h, c) == {} {
      assert RequestWorks(own, c.hosting, {}) == own;
    }
  }

  /** The works of the namespace are dropped, the others stay. */
  lemma OwnWorksDropped(h: Hub)
    ensures forall k :: k in ForcedOwn(h).works <==> k in h.works && k.ns != h.name
    ensures forall k | k in ForcedOwn(h).works :: ForcedOwn(h).works[k] == h.works[k]
  {
    assert forall k | k in h.works && k.ns == h.name :: k == Key(k.ns, k.name) && k.name in WorksOf(h, h.name);
  }

  /** Deleting, to be forced, with a namespace and no addon that its hosting cluster still needs. */
  predicate ReadyToForce(h: Hub, c: Cluster) {
    && h.cluster == Some(c)
    && c.obj.deleting && c.NeedsForce()
    && h.ns.Some?
    && (forall n | n in h.addons :: HostingPart(h.addons[n]) == [])
  }

  lemma ForceClearsAddons(h: Hub, c: Cluster)
    requires ReadyToForce(h, c)
    ensures AfterForce(h, c).addons == map[] && AfterForce(h, c).binding.None?
    ensures AfterForce(h, c).WorksWithin({})
  {
    ForceLeavesOnlyHostingAddons(h, c);
    ForceOnWorks(h, c);
    assert AfterForce(h, c).addons == map[];
  }

  /** Without a hosting cluster one reconcile releases the cluster. */
  lemma OneForcedReconcileReleases(h: Hub, c: Cluster)
    requires ReadyToForce(h, c) && !c.OnHosting()
    ensures Released(QuietReconcile(h))
  {
    ForceClearsAddons(h, c);
  }

  // ---- with a hosting cluster ----

  /** The hub once the works of the cluster's own namespace are gone. */
  function OwnWorksGone(h: Hub): (r: Hub)
  {
    h.(works := DropWorks(h.works, h.name, WorksOf(h, h.name).Keys))
  }

  function Count(b: bool): (r: nat) { if b then 1 else 0 }

  /** How many kinds of hosting work are left: addon works, the klusterlet, the kubeconfig. */
  function KindsLeft(names: set<WorkName>): (r: nat)
    ensures r <= 3
    ensures r == 0 <==> names == {}
  {
    assert names == {} <==> names - {HostedKlusterlet, HostedKubeconfig} == {} && HostedKlusterlet !in names && HostedKubeconfig !in names;
    Count(names - {HostedKlusterlet, HostedKubeconfig} != {}) + Count(HostedKlusterlet in names) + Count(HostedKubeconfig in names)
  }

  function TurnsLeft(h: Hub, c: Cluster): (r: nat)
  {
    KindsLeft(HostingSet(OwnWorksGone(h), c.hosting))
  }

  /** A delete of a hosting work takes effect at once. */
  predicate HostingDeletesTakeEffect(h: Hub, c: Cluster) {
    forall k | k in h.works && h.IsHostingWork(c.hosting, k) :: h.works[k].obj.finalizers == []
  }

  predicate ReadyToForceHosted(h: Hub, c: Cluster) {
    ReadyToForce(h, c) && c.OnHosting() && HostingDeletesTakeEffect(h, c)
  }

  lemma TurnRemovesTargets(h: Hub, c: Cluster)
    requires HostingDeletesTakeEffect(h, c)
    ensures HostingSet(HostingTurn(h, c.hosting), c.hosting) == HostingSet(h, c.hosting) - HostingTargets(HostingSet(h, c.hosting))
    ensures HostingDeletesTakeEffect(HostingTurn(h, c.hosting), c)
  {
    var names := HostingSet(h, c.hosting);
    var h' := HostingTurn(h, c.hosting);
    forall n
      ensures n in HostingSet(h', c.hosting) <==> n in names && n !in HostingTargets(names)
    {
      var k := Key(c.hosting, n);
      assert n in names <==> h.IsHostingWork(c.hosting, k);
    }
  }

  /** Each turn removes one kind. */
  lemma TurnRemovesOneKind(names: set<WorkName>)
    ensures KindsLeft(names - HostingTargets(names)) == if names == {} then 0 else KindsLeft(names) - 1
  {
    var others := names - {HostedKlusterlet, HostedKubeconfig};
    var left := names - HostingTargets(names);
    assert others != {} ==> left - {HostedKlusterlet, HostedKubeconfig} == {};
    assert others == {} ==> left - {HostedKlusterlet, HostedKubeconfig} == {};
  }

  lemma OwnWorksStayGone(h: Hub)
    requires h.WorksWithin({})
    ensures OwnWorksGone(h) == h
  {
    assert DropWorks(h.works, h.name, WorksOf(h, h.name).Keys) == h.works;
  }

  /** With the addons gone, a forced cleanup is a turn in the hosting namespace and the end of the binding. */
  lemma ForceIsTurn(h: Hub, c: Cluster)
    requires ReadyToForce(h, c) && c.OnHosting()
    ensures AfterForce(h, c) == HostingTurn(OwnWorksGone(h), c.hosting).(addons := map[], binding := None)
  {
    ForceClearsAddons(h, c);
    var h1 := OwnWorksGone(h);
    SameHosting(h1, h1.(addons := map[]), c.hosting);
  }

  /** The hosting listing depends on the works alone. */
  lemma SameHosting(a: Hub, b: Hub, hosting: string)
    requires a.name == b.name && a.works == b.works
    ensures HostingSet(a, hosting) == HostingSet(b, hosting)
  {
    assert forall k | k in a.works :: a.IsHostingWork(hosting, k) <==> b.IsHostingWork(hosting, k);
  }

  /** What a forced cleanup leaves in the hosting namespace. */
  lemma ForceTakesOneKind(h: Hub, c: Cluster)
    requires ReadyToForceHosted(h, c)
    ensures var r := AfterForce(h, c);
            && KindsLeft(HostingSet(r, c.hosting)) == (if TurnsLeft(h, c) == 0 then 0 else TurnsLeft(h, c) - 1)
            && HostingDeletesTakeEffect(r, c)
  {
    var h1 := OwnWorksGone(h);
    assert HostingDeletesTakeEffect(h1, c);
    TurnRemovesTargets(h1, c);
    TurnRemovesOneKind(HostingSet(h1, c.hosting));
    ForceIsTurn(h, c);
    SameHosting(AfterForce(h, c), HostingTurn(h1, c.hosting), c.hosting);
  }

  lemma CleanExactlyWhenNoKindLeft(h: Hub, c: Cluster)
    requires c.OnHosting() && h.WorksWithin({}) && h.addons == map[] && h.binding.None?
    ensures h.Clean(c) <==> KindsLeft(HostingSet(h, c.hosting)) == 0
  {
    var names := HostingSet(h, c.hosting);
    if names != {} {
      var n :| n in names;
      assert h.IsHostingWork(c.hosting, Key(c.hosting, n));
    }
  }

  /** Dropping our finalizers releases the cluster. */
  lemma DropReleases(h: Hub, c: Cluster)
    requires h.cluster == Some(c)
    ensures Released(AfterDrop(h, c))
  {
  }

  /** A forced reconcile is a forced cleanup, and a release when that left nothing. */
  lemma ForcedReconcile(h: Hub, c: Cluster)
    requires ReadyToForce(h, c) && c.OnHosting()
    ensures var r := AfterForce(h, c);
            && QuietReconcile(h) == (if r.Clean(c) then AfterDrop(r, c) else r)
            && ReadyToForce(r, c)
  {
    ForceIsTurn(h, c);
  }

  /** One undisturbed reconcile of a hosted cluster: released, or one turn closer. */
  lemma ForcedReconcileAdvances(h: Hub, c: Cluster)
    requires ReadyToForceHosted(h, c)
    ensures TurnsLeft(h, c) <= 1 ==> Released(QuietReconcile(h))
    ensures TurnsLeft(h, c) > 1 ==>
              && ReadyToForceHosted(QuietReconcile(h), c)
              && TurnsLeft(QuietReconcile(h), c) == TurnsLeft(h, c) - 1
  {
    var r := AfterForce(h, c);
    ForceClearsAddons(h, c);
    ForcedReconcile(h, c);
    ForceTakesOneKind(h, c);
    CleanExactlyWhenNoKindLeft(r, c);
    OwnWorksStayGone(r);
    DropReleases(r, c);
  }

  /** `n` undisturbed reconciles. */
  function After(h: Hub, n: nat): (r: Hub)
    decreases n
  {
    if n == 0 then h else After(QuietReconcile(h), n - 1)
  }

  /** As many reconciles as there are kinds of hosting work, but at least one. */
  function ReconcilesNeeded(h: Hub, c: Cluster): (r: nat)
    ensures 1 <= r <= 3
  {
    if TurnsLeft(h, c) == 0 then 1 else TurnsLeft(h, c)
  }

  lemma ReleaseStep(h: Hub, c: Cluster) returns (next: Hub)
    requires ReadyToForceHosted(h, c) && TurnsLeft(h, c) > 1
    ensures ReadyToForceHosted(next, c) && TurnsLeft(next, c) < TurnsLeft(h, c)
    ensures After(h, ReconcilesNeeded(h, c)) == After(next, ReconcilesNeeded(next, c))
  {
    ForcedReconcileAdvances(h, c);
    next := QuietReconcile(h);
  }

  lemma LastReconcile(h: Hub, c: Cluster)
    requires ReadyToForceHosted(h, c) && TurnsLeft(h, c) <= 1
    ensures Released(After(h, ReconcilesNeeded(h, c)))
  {
    ForcedReconcileAdvances(h, c);
    assert After(h, 1) == After(QuietReconcile(h), 0);
  }

  lemma {:induction false} ReleasedInTime(h: Hub, c: Cluster)
    requires ReadyToForceHosted(h, c)
    ensures Released(After(h, ReconcilesNeeded(h, c)))
    decreases TurnsLeft(h, c)
  {
    if TurnsLeft(h, c) <= 1 {
      LastReconcile(h, c);
    } else {
      var next := ReleaseStep(h, c);
      ReleasedInTime(next, c);
    }
  }

  lemma HeldStep(h: Hub, c: Cluster, n: nat) returns (next: Hub)
    requires ReadyToForceHosted(h, c) && 0 < n < ReconcilesNeeded(h, c)
    ensures ReadyToForceHosted(next, c) && n - 1 < ReconcilesNeeded(next, c)
    ensures After(h, n) == After(next, n - 1)
  {
    ForcedReconcileAdvances(h, c);
    next := QuietReconcile(h);
  }

  lemma {:induction false} HeldBefore(h: Hub, c: Cluster, n: nat)
    requires ReadyToForceHosted(h, c) && n < ReconcilesNeeded(h, c)
    ensures After(h, n).cluster == Some(c)
    decreases n
  {
    if n > 0 {
      var next := HeldStep(h, c, n);
      HeldBefore(next, c, n - 1);
    }
  }

  /** A hosted cluster is released by exactly that many reconciles, at most three, and untouched before. */
  lemma ThreeForcedReconcilesRelease(h: Hub, c: Cluster)
    requires ReadyToForceHosted(h, c)
    ensures Released(After(h, ReconcilesNeeded(h, c)))
    ensures forall n: nat :: n < ReconcilesNeeded(h, c) ==> After(h, n).cluster == Some(c)
  {
    ReleasedInTime(h, c);
    forall n: nat | n < ReconcilesNeeded(h, c) ensures After(h, n).cluster == Some(c) {
      HeldBefore(h, c, n);
    }
  }

  // ---- with an agent that needs time ----

  /** The hosting agent has finished the deletes requested of it. */
  function AgentFinishes(h: Hub, hosting: string): (r: Hub)
  {
    h.(works := map k | k in h.works && !(h.IsHostingWork(hosting, k) && h.works[k].obj.deleting) :: h.works[k])
  }

  /** A reconcile, and then the agent. */
  function Round(h: Hub, c: Cluster): (r: Hub)
  {
    AgentFinishes(QuietReconcile(h), c.hosting)
  }

  function Iterate(f: Hub -> Hub, h: Hub, n: nat): (r: Hub)
    decreases n
  {
    if n == 0 then h else Iterate(f, f(h), n - 1)
  }

  /** `n` rounds. */
  function Rounds(h: Hub, c: Cluster, n: nat): (r: Hub)
  {
    Iterate((x: Hub) => Round(x, c), h, n)
  }

  lemma {:induction false} DoneStays(f: Hub -> Hub, Done: Hub -> bool, h: Hub, n: nat)
    requires Done(h) && forall x :: Done(x) ==> Done(f(x))
    ensures Done(Iterate(f, h, n))
    decreases n
  {
    if n > 0 {
      DoneStays(f, Done, f(h), n - 1);
    }
  }

  /** Each iteration is done or comes closer, and the last step away from nothing left is done. */
  lemma {:induction false} Countdown(f: Hub -> Hub, Ready: Hub -> bool, Done: Hub -> bool, left: Hub -> nat, h: Hub, n: nat)
    requires Ready(h) && left(h) <= n
    requires forall x :: Done(x) ==> Done(f(x))
    requires forall x :: Ready(x) ==> Done(f(x)) || (Ready(f(x)) && left(f(x)) < left(x))
    ensures Done(Iterate(f, h, n + 1))
    decreases n
  {
    if Done(f(h)) {
      DoneStays(f, Done, f(h), n);
    } else {
      Countdown(f, Ready, Done, left, f(h), n - 1);
    }
  }

  /** While each iteration takes away exactly one, what holds when ready holds until nothing is left. */
  lemma {:induction false} ReadyUntil(f: Hub -> Hub, Ready: Hub -> bool, left: Hub -> nat, h: Hub, n: nat)
    requires Ready(h) && n <= left(h)
    requires forall x :: Ready(x) && left(x) > 0 ==> Ready(f(x)) && left(f(x)) == left(x) - 1
    ensures Ready(Iterate(f, h, n))
    decreases n
  {
    if n > 0 {
      ReadyUntil(f, Ready, left, f(h), n - 1);
    }
  }

  /** Whatever finalizers the requested works hold, the agent leaves none of them. */
  lemma AgentTakesTargets(h: Hub, hosting: string)
    ensures var names := HostingSet(h, hosting);
            HostingSet(AgentFinishes(HostingTurn(h, hosting), hosting), hosting) <= names - HostingTargets(names)
  {
    var names := HostingSet(h, hosting);
    var t := HostingTurn(h, hosting);
    forall n | n in HostingSet(AgentFinishes(t, hosting), hosting)
      ensures n in names && n !in HostingTargets(names)
    {
      var k := Key(hosting, n);
      assert k in t.works && t.IsHostingWork(hosting, k) && !t.works[k].obj.deleting;
      assert h.IsHostingWork(hosting, k);
    }
  }

  lemma FewerKinds(a: set<WorkName>, b: set<WorkName>)
    requires a <= b
    ensures KindsLeft(a) <= KindsLeft(b)
  {
    var rest := {HostedKlusterlet, HostedKubeconfig};
    assert a - rest <= b - rest;
  }

  /** Only the works matter to the agent. */
  lemma AgentSame(a: Hub, b: Hub, hosting: string)
    requires a.name == b.name && a.works == b.works
    ensures HostingSet(AgentFinishes(a, hosting), hosting) == HostingSet(AgentFinishes(b, hosting), hosting)
  {
    assert AgentFinishes(a, hosting).works == AgentFinishes(b, hosting).works;
    SameHosting(AgentFinishes(a, hosting), AgentFinishes(b, hosting), hosting);
  }

  /** A turn and the agent take away one kind at least. */
  lemma TurnAndAgentTakeOneKind(h: Hub, hosting: string)
    ensures var kinds := KindsLeft(HostingSet(h, hosting));
            KindsLeft(HostingSet(AgentFinishes(HostingTurn(h, hosting), hosting), hosting)) <= (if kinds == 0 then 0 else kinds - 1)
  {
    var names := HostingSet(h, hosting);
    AgentTakesTargets(h, hosting);
    FewerKinds(HostingSet(AgentFinishes(HostingTurn(h, hosting), hosting), hosting), names - HostingTargets(names));
    TurnRemovesOneKind(names);
  }

  lemma IdleTurn(h: Hub, hosting: string)
    requires HostingSet(h, hosting) == {}
    ensures HostingTurn(h, hosting).works == h.works
  {
    assert RequestWorks(h.works, hosting, {}) == h.works;
  }

  /** What a forced cleanup leaves once the agent is done. */
  lemma RoundTakesOneKind(h: Hub, c: Cluster)
    requires ReadyToForce(h, c) && c.OnHosting()
    ensures var r := AfterForce(h, c);
            && KindsLeft(HostingSet(AgentFinishes(r, c.hosting), c.hosting)) <= (if TurnsLeft(h, c) == 0 then 0 else TurnsLeft(h, c) - 1)
            && (TurnsLeft(h, c) == 0 ==> HostingSet(r, c.hosting) == {})
  {
    var h1, r := OwnWorksGone(h), AfterForce(h, c);
    var t := HostingTurn(h1, c.hosting);
    ForceIsTurn(h, c);
    AgentSame(r, t, c.hosting);
    TurnAndAgentTakeOneKind(h1, c.hosting);
    if TurnsLeft(h, c) == 0 {
      IdleTurn(h1, c.hosting);
      SameHosting(r, h1, c.hosting);
    }
  }

  lemma AgentKeepsReady(r: Hub, c: Cluster)
    requires ReadyToForce(r, c) && c.OnHosting() && r.WorksWithin({})
    ensures var t := AgentFinishes(r, c.hosting);
            ReadyToForce(t, c) && t.WorksWithin({}) && TurnsLeft(t, c) == KindsLeft(HostingSet(t, c.hosting))
  {
    var t := AgentFinishes(r, c.hosting);
    assert forall k | k in t.works :: k in r.works;
    OwnWorksStayGone(t);
  }

  /** Each round releases the cluster or removes at least one kind of hosting work. */
  lemma RoundAdvances(h: Hub, c: Cluster)
    requires ReadyToForce(h, c) && c.OnHosting()
    ensures || Released(Round(h, c))
            || (ReadyToForce(Round(h, c), c) && TurnsLeft(Round(h, c), c) < TurnsLeft(h, c))
  {
    var r := AfterForce(h, c);
    ForceClearsAddons(h, c);
    ForcedReconcile(h, c);
    RoundTakesOneKind(h, c);
    CleanExactlyWhenNoKindLeft(r, c);
    if r.Clean(c) {
      DropReleases(r, c);
    } else {
      AgentKeepsReady(r, c);
    }
  }

  lemma ReconcileKeepsReleased(h: Hub)
    requires Released(h)
    ensures Released(QuietReconcile(h))
  {
    if h.cluster.Some? && h.cluster.value.obj.deleting {
      var c := h.cluster.value;
      CleanupKeepsCluster(h, c);
      NothingToDrop(c.obj.finalizers);
    }
  }

  lemma CleanupKeepsCluster(h: Hub, c: Cluster)
    ensures AfterForce(h, c).cluster == h.cluster && AfterOrderly(h, c).cluster == h.cluster
  {
  }

  lemma NothingToDrop(fs: seq<Finalizer>)
    requires forall f | f in fs :: f !in OwnFinalizers
    ensures Without(fs, OwnFinalizers) == fs
  {
    WithoutLength(fs, OwnFinalizers);
  }

  lemma ReleasedStays(h: Hub, c: Cluster)
    requires Released(h)
    ensures Released(QuietReconcile(h)) && Released(Round(h, c))
  {
    ReconcileKeepsReleased(h);
    assert Round(h, c).cluster == QuietReconcile(h).cluster;
  }

  /**
   Whatever finalizers the hosting works hold: when the agent finishes the requested
   deletes between two reconciles, one round more than there are kinds of hosting
   work, at most four, releases the cluster.
   */
  lemma AgentReleasesInTime(h: Hub, c: Cluster)
    requires ReadyToForce(h, c) && c.OnHosting()
    ensures Released(Rounds(h, c, TurnsLeft(h, c) + 1)) && TurnsLeft(h, c) <= 3
  {
    var f := (x: Hub) => Round(x, c);
    var ready := (x: Hub) => ReadyToForce(x, c);
    var left := (x: Hub) => TurnsLeft(x, c);
    forall x | Released(x) ensures Released(f(x)) {
      ReleasedStays(x, c);
    }
    forall x | ready(x) ensures Released(f(x)) || (ready(f(x)) && left(f(x)) < left(x)) {
      RoundAdvances(x, c);
    }
    Countdown(f, ready, Released, left, h, TurnsLeft(h, c));
  }

  /** Every hosting work waits for its agent: it is held by a finalizer, and nobody has asked to delete it. */
  predicate HostingDeletesWait(h: Hub, hosting: string) {
    forall k | k in h.works && h.IsHostingWork(hosting, k) :: h.works[k].obj.finalizers != [] && !h.works[k].obj.deleting
  }

  /** A turn only marks works that wait, and the agent takes exactly those. */
  lemma WaitingTurn(h: Hub, hosting: string)
    requires HostingDeletesWait(h, hosting)
    ensures var names, t := HostingSet(h, hosting), HostingTurn(h, hosting);
            && HostingSet(t, hosting) == names
            && HostingSet(AgentFinishes(t, hosting), hosting) == names - HostingTargets(names)
            && HostingDeletesWait(AgentFinishes(t, hosting), hosting)
  {
    var names, t := HostingSet(h, hosting), HostingTurn(h, hosting);
    forall n
      ensures n in HostingSet(t, hosting) <==> n in names
      ensures n in HostingSet(AgentFinishes(t, hosting), hosting) <==> n in names && n !in HostingTargets(names)
    {
      var k := Key(hosting, n);
      assert n in names <==> h.IsHostingWork(hosting, k);
      assert k in t.works <==> k in h.works;
    }
    forall k | k in AgentFinishes(t, hosting).works && AgentFinishes(t, hosting).IsHostingWork(hosting, k)
      ensures t.works[k] == h.works[k]
    {
      assert k == Key(hosting, k.name) && k.name in HostingSet(AgentFinishes(t, hosting), hosting);
    }
  }

  /** A reconcile of such a cluster is a turn and does not release it. */
  lemma WaitingReconcile(h: Hub, c: Cluster) returns (r: Hub)
    requires ReadyToForce(h, c) && c.OnHosting() && h.WorksWithin({}) && HostingDeletesWait(h, c.hosting) && TurnsLeft(h, c) > 0
    ensures r == QuietReconcile(h) && ReadyToForce(r, c) && r.WorksWithin({})
    ensures r.name == h.name && r.works == HostingTurn(h, c.hosting).works
    ensures TurnsLeft(h, c) == KindsLeft(HostingSet(h, c.hosting))
  {
    r := AfterForce(h, c);
    OwnWorksStayGone(h);
    ForceIsTurn(h, c);
    ForceClearsAddons(h, c);
    ForcedReconcile(h, c);
    WaitingTurn(h, c.hosting);
    SameHosting(r, HostingTurn(h, c.hosting), c.hosting);
    CleanExactlyWhenNoKindLeft(r, c);
  }

  lemma SameWait(a: Hub, b: Hub, hosting: string)
    requires a.name == b.name && a.works == b.works
    ensures HostingDeletesWait(AgentFinishes(a, hosting), hosting) <==> HostingDeletesWait(AgentFinishes(b, hosting), hosting)
  {
    assert AgentFinishes(a, hosting).works == AgentFinishes(b, hosting).works;
  }

  lemma WaitingRound(h: Hub, c: Cluster)
    requires ReadyToForce(h, c) && c.OnHosting() && h.WorksWithin({}) && HostingDeletesWait(h, c.hosting) && TurnsLeft(h, c) > 0
    ensures var t := Round(h, c);
            && ReadyToForce(t, c) && t.WorksWithin({}) && HostingDeletesWait(t, c.hosting)
            && TurnsLeft(t, c) == TurnsLeft(h, c) - 1
  {
    var r := WaitingReconcile(h, c);
    var t := HostingTurn(h, c.hosting);
    WaitingTurn(h, c.hosting);
    AgentKeepsReady(r, c);
    AgentSame(r, t, c.hosting);
    SameWait(r, t, c.hosting);
    TurnRemovesOneKind(HostingSet(h, c.hosting));
  }

  /** With such works the count is exact: the cluster is held until every kind has had its round. */
  lemma HeldWhileAgentWorks(h: Hub, c: Cluster, n: nat)
    requires ReadyToForce(h, c) && c.OnHosting() && h.WorksWithin({}) && HostingDeletesWait(h, c.hosting) && n <= TurnsLeft(h, c)
    ensures Rounds(h, c, n).cluster == Some(c)
  {
    var f := (x: Hub) => Round(x, c);
    var ready := (x: Hub) => ReadyToForce(x, c) && x.WorksWithin({}) && HostingDeletesWait(x, c.hosting);
    var left := (x: Hub) => TurnsLeft(x, c);
    forall x | ready(x) && left(x) > 0 ensures ready(f(x)) && left(f(x)) == left(x) - 1 {
      WaitingRound(x, c);
    }
    ReadyUntil(f, ready, left, h, n);
  }

  // ---- one undisturbed reconcile, told from the fields of the hub ----

  /**
   Without a cluster but with a namespace, one reconcile leaves no role binding, no work
   of the namespace, and of the addons just those with hosting finalizers, each marked
   and keeping these in order. Nothing else changes; without a namespace nothing does.
   */
  lemma OrphanLeavesOnlyHostingAddons(h: Hub)
    requires h.cluster.None?
    ensures h.ns.None? ==> QuietReconcile(h) == h
    ensures h.ns.Some? ==>
              var r := QuietReconcile(h);
              var hosting := {HostingManifests, HostingPreDelete, OldHostingManifests, OldHostingPreDelete};
              && r.binding.None?
              && (forall n :: n in r.addons <==> n in h.addons && exists f | f in h.addons[n].finalizers :: f in hosting)
              && (forall n | n in r.addons :: r.addons[n] == Obj(Only(h.addons[n].finalizers, hosting), true))
              && (forall k :: k in r.works <==> k in h.works && k.ns != h.name)
              && (forall k | k in r.works :: r.works[k] == h.works[k])
              && r.name == h.name && r.cluster.None? && r.ns == h.ns
  {
    if h.ns.Some? {
      OwnWorksDropped(h);
      forall n | n in h.addons
        ensures HostingPart(h.addons[n]) != [] <==> exists f | f in h.addons[n].finalizers :: f in HostingFinalizers
      {
        SomeKept(h.addons[n].finalizers, HostingFinalizers);
      }
    }
  }

  lemma SomeKept(fs: seq<Finalizer>, kept: set<Finalizer>)
    ensures Only(fs, kept) != [] <==> exists f | f in fs :: f in kept
  {
    if Only(fs, kept) != [] {
      assert Only(fs, kept)[0] in fs;
    }
  }

  /**
   A deleting cluster that is not accepted, or known to be unavailable, loses all works of
   its namespace at once, or, if the namespace is gone, nothing but perhaps its finalizers;
   any other loses nothing while it has an addon. A live cluster is left alone.
   */
  lemma ForcedExactlyWhenUnreachable(h: Hub, c: Cluster)
    requires h.cluster == Some(c)
    ensures !c.obj.deleting ==> QuietReconcile(h) == h
    ensures c.obj.deleting && h.ns.Some? && (!c.accepted || c.available == Some(False) || c.available == Some(Unknown)) ==>
              forall k | k in QuietReconcile(h).works :: k.ns != h.name
    ensures c.obj.deleting && h.ns.None? && (!c.accepted || c.available == Some(False) || c.available == Some(Unknown)) ==>
              QuietReconcile(h) == h.(cluster := QuietReconcile(h).cluster)
    ensures c.obj.deleting && h.addons != map[] && c.accepted && (c.available.None? || c.available == Some(True)) ==>
              QuietReconcile(h) == h
  {
    if c.obj.deleting && h.ns.Some? && c.NeedsForce() {
      ForceOnWorks(h, c);
      DropKeepsRest(AfterForce(h, c), c);
      assert AfterForce(h, c).WorksWithin({});
    }
  }

  /** Dropping our finalizers changes the cluster alone. */
  lemma DropKeepsRest(h: Hub, c: Cluster)
    ensures AfterDrop(h, c) == h.(cluster := AfterDrop(h, c).cluster)
  {
  }

  /** A turn removes no work that a finalizer holds. */
  lemma TurnKeepsHeld(h: Hub, hosting: string, k: Key)
    requires k in h.works && h.works[k].obj.finalizers != []
    ensures k in HostingTurn(h, hosting).works && HostingTurn(h, hosting).works[k].hostedFor == h.works[k].hostedFor
    ensures HostingTurn(h, hosting).name == h.name
  {
  }

  lemma ForceKeepsHeld(h: Hub, c: Cluster, k: Key)
    requires k in h.works && k.ns != h.name && h.works[k].obj.finalizers != []
    ensures var r := AfterForce(h, c);
            k in r.works && r.works[k].hostedFor == h.works[k].hostedFor && r.name == h.name && r.cluster == h.cluster
  {
    if h.ns.Some? {
      OwnWorksDropped(h);
      WorksAfterForce(h, c);
    }
  }

  lemma OrderlyKeepsHeld(h: Hub, c: Cluster, k: Key)
    requires k in h.works && k.ns != h.name && h.works[k].obj.finalizers != []
    ensures var r := AfterOrderly(h, c);
            k in r.works && r.works[k].hostedFor == h.works[k].hostedFor && r.name == h.name && r.cluster == h.cluster
  {
    TurnKeepsHeld(h, c.hosting, k);
  }

  lemma CleanupKeepsHeld(h: Hub, c: Cluster, k: Key)
    requires k in h.works && k.ns != h.name && h.works[k].obj.finalizers != []
    ensures var r := if c.NeedsForce() then AfterForce(h, c) else AfterOrderly(h, c);
            k in r.works && r.works[k].hostedFor == h.works[k].hostedFor && r.name == h.name && r.cluster == h.cluster
  {
    ForceKeepsHeld(h, c, k);
    OrderlyKeepsHeld(h, c, k);
  }

  /** A cluster whose agent runs elsewhere, in either way, is held by each labelled work there that something holds. */
  lemma HostingWorkHoldsCluster(h: Hub, c: Cluster, k: Key)
    requires h.cluster == Some(c) && c.obj.deleting
    requires (c.mode == Hosted || c.mode == SingletonHosted) && c.hosting != "" && c.hosting != h.name
    requires k in h.works && k.ns == c.hosting && h.works[k].hostedFor == Some(h.name) && h.works[k].obj.finalizers != []
    ensures QuietReconcile(h).cluster == Some(c) && k in QuietReconcile(h).works
  {
    CleanupKeepsHeld(h, c, k);
    var r := if c.NeedsForce() then AfterForce(h, c) else AfterOrderly(h, c);
    assert r.IsHostingWork(c.hosting, k);
  }

  /** If it runs on the cluster itself, or its place is unknown, works of other namespaces are not touched. */
  lemma OtherWorksDoNotMatter(h: Hub, c: Cluster)
    requires h.cluster == Some(c) && (c.mode == Default || c.hosting == "")
    ensures forall k | k in h.works && k.ns != h.name :: k in QuietReconcile(h).works && QuietReconcile(h).works[k] == h.works[k]
  {
    var r := if c.NeedsForce() then AfterForce(h, c) else AfterOrderly(h, c);
    if c.NeedsForce() && h.ns.Some? {
      ForceOnWorks(h, c);
    }
    assert forall k | k in h.works && k.ns != h.name :: k in r.works && r.works[k] == h.works[k];
    DropKeepsRest(r, c);
  }

  /** What a release must find: no work of the namespace, no addon, no binding, and no labelled work where the agent runs. */
  lemma CleanExactly(h: Hub, c: Cluster)
    ensures h.Clean(c) <==>
            && (forall k | k in h.works :: k.ns != h.name)
            && h.addons.Keys == {} && h.binding.None?
            && (c.mode in {Hosted, SingletonHosted} && c.hosting != "" ==>
                  forall k | k in h.works && k.ns == c.hosting :: h.works[k].hostedFor != Some(h.name))
  {
    assert h.addons == map[] <==> h.addons.Keys == {};
    assert forall k | k in h.works :: h.IsHostingWork(c.hosting, k) <==> k.ns == c.hosting && h.works[k].hostedFor == Some(h.name);
  }
}
