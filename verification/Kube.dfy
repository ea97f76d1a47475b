/**
 The rules of the Kubernetes API server that the controllers rely on:
 deleting an object that has finalizers only marks it, a marked object without
 finalizers disappears, and a marked object accepts no new finalizer.
 */
module Kube {
  import opened Common

  /**
   Finalizer names. The controllers compare names only for equality, so the six
   names they know are constructors and every other name is `Foreign`.
   */
  datatype Finalizer =
    | Import                 // constants.ImportFinalizer
    | ManifestWork           // constants.ManifestWorkFinalizer
    | HostingManifests       // addon "hosting-manifests-cleanup"
    | HostingPreDelete       // addon "hosting-addon-pre-delete"
    | OldHostingManifests    // their two deprecated spellings
    | OldHostingPreDelete
    | Foreign(name: string)

  /** The two finalizers this repository owns on a managed cluster. */
  const OwnFinalizers: set<Finalizer> := {Import, ManifestWork}

  /** The finalizers a forced addon deletion must leave in place. */
  const HostingFinalizers: set<Finalizer> :=
    {HostingManifests, HostingPreDelete, OldHostingManifests, OldHostingPreDelete}

  datatype Obj = Obj(finalizers: seq<Finalizer>, deleting: bool)

  /** The object left after a delete request; None when it is gone at once. */
  function Deleted(o: Obj): (r: Option<Obj>)
    ensures r.None? <==> o.finalizers == []
    ensures r.Some? ==> r.value.deleting && r.value.finalizers == o.finalizers
  {
    if o.finalizers == [] then None else Some(o.(deleting := true))
  }

  /** Whether the server takes `fs` as the new finalizer list of `o`. */
  predicate Accepts(o: Obj, fs: seq<Finalizer>) {
    o.deleting ==> forall f | f in fs :: f in o.finalizers
  }

  /** The object left after an accepted finalizer patch. */
  function Patched(o: Obj, fs: seq<Finalizer>): (r: Option<Obj>)
    requires Accepts(o, fs)
    ensures r.None? <==> o.deleting && fs == []
  {
    if o.deleting && fs == [] then None else Some(o.(finalizers := fs))
  }

  // ---- order-preserving removal from a finalizer list ----

  /** `fs` without the members of `gone`, in order. */
  function Without(fs: seq<Finalizer>, gone: set<Finalizer>): (r: seq<Finalizer>)
    ensures forall f :: f in r <==> f in fs && f !in gone
  {
    if fs == [] then []
    else if fs[0] in gone then Without(fs[1..], gone)
    else [fs[0]] + Without(fs[1..], gone)
  }

  /** The members of `fs` that are in `kept`, in order. */
  function Only(fs: seq<Finalizer>, kept: set<Finalizer>): (r: seq<Finalizer>)
    ensures forall f :: f in r <==> f in fs && f in kept
  {
    if fs == [] then []
    else if fs[0] in kept then [fs[0]] + Only(fs[1..], kept)
    else Only(fs[1..], kept)
  }

  lemma {:induction false} WithoutLength(fs: seq<Finalizer>, gone: set<Finalizer>)
    ensures |Without(fs, gone)| <= |fs|
    ensures |Without(fs, gone)| == |fs| ==> Without(fs, gone) == fs
    ensures (forall f | f in fs :: f !in gone) ==> Without(fs, gone) == fs
  {
    if fs != [] {
      WithoutLength(fs[1..], gone);
    }
  }

  lemma {:induction false} OnlyLength(fs: seq<Finalizer>, kept: set<Finalizer>)
    ensures |Only(fs, kept)| <= |fs|
    ensures |Only(fs, kept)| == |fs| ==> Only(fs, kept) == fs
  {
    if fs != [] {
      OnlyLength(fs[1..], kept);
    }
  }

  lemma {:induction false} WithoutTwice(fs: seq<Finalizer>, a: set<Finalizer>, b: set<Finalizer>)
    ensures Without(Without(fs, a), b) == Without(fs, a + b)
  {
    if fs != [] {
      WithoutTwice(fs[1..], a, b);
      if fs[0] !in a {
        assert Without(fs, a)[1..] == Without(fs[1..], a);
      }
    }
  }

  /** Two removals agree when they disagree on no member of the list. */
  lemma {:induction false} WithoutSame(fs: seq<Finalizer>, a: set<Finalizer>, b: set<Finalizer>)
    requires forall f | f in fs :: f in a <==> f in b
    ensures Without(fs, a) == Without(fs, b)
  {
    if fs != [] {
      assert forall f | f in fs[1..] :: f in fs;
      assert fs[0] in fs;
      WithoutSame(fs[1..], a, b);
    }
  }

  /** The members of `from` that `to` has lost. */
  function Lost(from: seq<Finalizer>, to: seq<Finalizer>): (r: set<Finalizer>)
  {
    set f | f in from && f !in to
  }

  /** `to` is what remains of `from` after some names were taken out. */
  predicate Shrunk(from: seq<Finalizer>, to: seq<Finalizer>) {
    to == Without(from, Lost(from, to))
  }

  lemma ShrunkSelf(fs: seq<Finalizer>)
    ensures Shrunk(fs, fs)
  {
    WithoutLength(fs, Lost(fs, fs));
  }

  /** Taking more names out of a shrunk list gives a shrunk list. */
  lemma ShrunkStep(from: seq<Finalizer>, mid: seq<Finalizer>, gone: set<Finalizer>)
    requires Shrunk(from, mid)
    ensures Shrunk(from, Without(mid, gone))
  {
    var to := Without(mid, gone);
    WithoutTwice(from, Lost(from, mid), gone);
    WithoutSame(from, Lost(from, mid) + gone, Lost(from, to));
  }

  /**
   A list computed from an old reading and accepted by the server is also the
   list one would compute from the current state: nothing is resurrected and
   the order is kept.
   */
  lemma StaleRemovalIsExact(before: seq<Finalizer>, now: seq<Finalizer>, own: set<Finalizer>)
    requires Shrunk(before, now)
    requires forall f | f in Without(before, own) :: f in now
    ensures Without(before, own) == Without(now, own)
  {
    WithoutTwice(before, Lost(before, now), own);
    WithoutSame(before, own, Lost(before, now) + own);
  }
}
