/** The cluster namespace deletion controller, call by call. */
module NamespaceDeletion {
  import opened Common
  import opened Kube
  import opened DetachProtocol
  import opened HubClients

  datatype Pod = Pod(name: string, running: bool)

  /** A listing of another kind of object: its length, an unknown kind, or an error. */
  datatype Listing = Items(count: nat) | Missing | Broken

  /** Everything else the controller looks for in the namespace. */
  datatype Residents = Residents(
    hostedClusters: Listing, deployments: Listing, infraEnvs: Listing, capiClusters: Listing, pods: Result<seq<Pod>>)

  predicate Contains(s: string, part: string) {
    exists i | 0 <= i <= |s| :: part <= s[i..]
  }

  predicate IsJob(p: Pod) {
    "curator-job" <= p.name || "posthookjob" <= p.name || "prehookjob" <= p.name
  }

  /** A pod that does not hold the namespace back. */
  predicate Ignored(p: Pod, ns: string) {
    IsJob(p) && (p.running ==> Contains(p.name, ns + "-uninstall"))
  }

  /** Kinds whose absence from the server counts as an empty list. */
  predicate EmptyOrMissing(l: Listing) {
    l == Items(0) || l.Missing?
  }

  predicate Vacant(r: Residents, ns: string) {
    && EmptyOrMissing(r.hostedClusters)
    && r.deployments == Items(0)
    && r.infraEnvs == Items(0)
    && EmptyOrMissing(r.capiClusters)
    && r.pods.Ok?
    && forall p | p in r.pods.value :: Ignored(p, ns)
  }

  method FilterPods(pods: seq<Pod>, ns: string) returns (valid: seq<Pod>)
    ensures valid == [] <==> forall p | p in pods :: Ignored(p, ns)
    ensures forall p :: p in valid <==> p in pods && !Ignored(p, ns)
  {
    valid := [];
    for i := 0 to |pods|
      invariant forall p :: p in valid <==> p in pods[..i] && !Ignored(p, ns)
    {
      var pod := pods[i];
      if !IsJob(pod) {
        valid := valid + [pod];
      }
      if pod.running {
        if !Contains(pod.name, ns + "-uninstall") {
          valid := valid + [pod];
        }
      }
      assert pods[..i + 1] == pods[..i] + [pod];
    }
    assert pods[..|pods|] == pods;
    if valid != [] {
      assert valid[0] in valid;
    }
  }

  /** The listings after the addons, in the controller's order. */
  method NobodyHome(residents: Residents, ns: string) returns (vacant: bool)
    ensures vacant <==> Vacant(residents, ns)
  {
    if residents.hostedClusters.Broken? || (residents.hostedClusters.Items? && residents.hostedClusters.count > 0) {
      return false;
    }
    if !residents.deployments.Items? || residents.deployments.count != 0 {
      return false;
    }
    if !residents.infraEnvs.Items? || residents.infraEnvs.count != 0 {
      return false;
    }
    if residents.capiClusters.Broken? || (residents.capiClusters.Items? && residents.capiClusters.count > 0) {
      return false;
    }
    if residents.pods.Err? {
      return false;
    }
    var valid := FilterPods(residents.pods.value, ns);
    vacant := |valid| == 0;
  }

  /** When an undisturbed reconcile deletes the namespace. */
  predicate Deletable(h: Hub, residents: Residents) {
    && h.ns.Some? && h.ns.value.labelled && !h.ns.value.retained && !h.ns.value.deleting
    && ReleasesNamespace(h.cluster)
    && h.addons == map[]
    && Vacant(residents, h.name)
  }

  method Reconcile(api: HubClient, residents: Residents)
    requires api.Valid() && api.Now().nsctl.NsIdle?
    modifies api
    ensures api.Valid() && old(api.run) <= api.run && api.Now().nsctl.NsIdle?
    ensures api.quiet ==>
              api.hub == if Deletable(old(api.hub), residents)
                         then old(api.hub).(ns := Some(old(api.hub.ns).value.(deleting := true))) else old(api.hub)
  {
    var ns := api.NsGetNamespace();
    if ns.Ok? && ns.value.Some? && ns.value.value.labelled && !ns.value.value.retained && !ns.value.value.deleting {
      var cluster := api.NsGetCluster();
      if cluster.Ok? && Releases(cluster.value) {
        var addons := api.NsListAddons();
        assert api.hub.addons.Keys == {} <==> api.hub.addons == map[];
        if addons.Ok? && addons.value == {} {
          var vacant := NobodyHome(residents, api.hub.name);
          if vacant {
            var _ := api.NsDeleteNamespace();
          }
        }
      }
    }
    api.EndNs();
  }

  /** The controller's own test of the cluster: lengths first, then the one name. */
  predicate Releases(c: Option<Cluster>)
    ensures Releases(c) <==> ReleasesNamespace(c)
  {
    c.None? ||
    var fs := c.value.obj.finalizers;
    c.value.obj.deleting && !(|fs| > 1) && !(|fs| == 1 && fs[0] != Import)
  }

  // ---- what holds the namespace back, told from what was found ----

  lemma ContainsExactly(s: string, part: string)
    ensures Contains(s, part) <==> exists a: string, b: string :: s == a + part + b
  {
    if Contains(s, part) {
      var i :| 0 <= i <= |s| && part <= s[i..];
      assert s == s[..i] + part + s[i..][|part|..];
    }
    if a: string, b: string :| s == a + part + b {
      assert s[|a|..] == part + b;
    }
  }

  /**
   An undisturbed reconcile deletes the namespace exactly when it is a cluster namespace
   to be deleted, the cluster is gone or deleting with at most the import finalizer, there
   is no addon, each of the four listings was read and empty (an unknown kind will do for
   hosted clusters and cluster API clusters), and the pods were read and are all jobs of
   which none runs but for an uninstall.
   */
  lemma DeletableExactly(h: Hub, found: Residents)
    ensures Deletable(h, found) <==>
            && (h.ns == Some(Namespace(true, false, false)))
            && (h.cluster.None? || (h.cluster.value.obj.deleting && h.cluster.value.obj.finalizers in [[], [Import]]))
            && h.addons.Keys == {}
            && (found.hostedClusters == Items(0) || found.hostedClusters == Missing)
            && found.deployments == Items(0)
            && found.infraEnvs == Items(0)
            && (found.capiClusters == Items(0) || found.capiClusters == Missing)
            && found.pods.Ok?
            && forall p | p in found.pods.value ::
                 && ("curator-job" <= p.name || "posthookjob" <= p.name || "prehookjob" <= p.name)
                 && (p.running ==> exists a: string, b: string :: p.name == a + (h.name + "-uninstall") + b)
  {
    if found.pods.Ok? {
      forall p | p in found.pods.value
        ensures Contains(p.name, h.name + "-uninstall") <==> exists a: string, b: string :: p.name == a + (h.name + "-uninstall") + b
      {
        ContainsExactly(p.name, h.name + "-uninstall");
      }
    }
    assert h.addons == map[] <==> h.addons.Keys == {};
  }
}
