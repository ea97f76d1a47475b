/** What disable-auto-import guarantees for the klusterlet works, over runs of the manifestwork controller. */
module DisabledImport {
  import opened Common
  import opened ManifestStream
  import opened KlusterletWorks

  // ---- the configs ----

  /** The positions of the manifests whose metadata can be read, in order. */
  function Decodable(read: Reader, manifests: seq<Manifest>): (r: seq<nat>)
    ensures forall k | 0 <= k < |r| :: r[k] < |manifests| && read(manifests[r[k]]).Some?
    ensures forall j, k | 0 <= j < k < |r| :: r[j] < r[k]
    ensures forall i | 0 <= i < |manifests| && read(manifests[i]).Some? :: i in r
  {
    if manifests == [] then []
    else
      var n := |manifests| - 1;
      assert forall i | 0 <= i < n :: manifests[..n][i] == manifests[i];
      Decodable(read, manifests[..n]) + if read(manifests[n]).Some? then [n] else []
  }

  lemma {:induction false} ReadOnlyAppend(read: Reader, a: seq<Manifest>, b: seq<Manifest>)
    ensures ReadOnly(read, a + b) == ReadOnly(read, a) + ReadOnly(read, b)
  {
    if a == [] {
      assert a + b == b;
    } else {
      assert (a + b)[1..] == a[1..] + b && (a + b)[0] == a[0];
      ReadOnlyAppend(read, a[1..], b);
      var head := if read(a[0]).Some? then [Config(read(a[0]).value, true)] else [];
      assert head + (ReadOnly(read, a[1..]) + ReadOnly(read, b)) == head + ReadOnly(read, a[1..]) + ReadOnly(read, b);
    }
  }

  /** The configs are those of the decodable manifests, one each, in order, all read-only. */
  lemma {:induction false} OneConfigEach(read: Reader, manifests: seq<Manifest>)
    ensures var at := Decodable(read, manifests);
            && |ReadOnly(read, manifests)| == |at|
            && forall k | 0 <= k < |at| :: ReadOnly(read, manifests)[k] == Config(read(manifests[at[k]]).value, true)
  {
    if manifests != [] {
      var n := |manifests| - 1;
      OneConfigEach(read, manifests[..n]);
      assert manifests == manifests[..n] + [manifests[n]];
      ReadOnlyAppend(read, manifests[..n], [manifests[n]]);
    }
  }

  // ---- frozen manifests ----

  /** Everything about the works but their configs is as it was. */
  predicate SameButConfigs(h: Store, t: Store) {
    && t.works.Keys == h.works.Keys
    && forall n | n in h.works ::
         n in t.works && t.works[n] == h.works[n].(configs := t.works[n].configs, version := t.works[n].version)
  }

  /** A work of `t` is the one of `h`, or was written since. */
  predicate Later(h: Store, t: Store) {
    && h.writes <= t.writes
    && forall n | n in h.works :: n in t.works && (t.works[n] == h.works[n] || t.works[n].version > h.writes)
  }

  predicate Versioned(h: Store) {
    forall n | n in h.works :: h.works[n].version <= h.writes
  }

  /** A listed work that still has the current version is the current work. */
  predicate Genuine(h: Store, list: seq<(string, ManagedWork)>) {
    forall i | 0 <= i < |list| ::
      && list[i].1.version <= h.writes
      && (list[i].0 in h.works && h.works[list[i].0].version == list[i].1.version ==> h.works[list[i].0] == list[i].1)
  }

  lemma {:induction false} LockingFreezes(read: Reader, h: Store, list: seq<(string, ManagedWork)>, failing: set<string>)
    requires Genuine(h, list)
    ensures SameButConfigs(h, LockAll(read, h, list, failing))
    decreases |list|
  {
    if list != [] {
      var (n, w) := list[0];
      assert forall i | 0 <= i < |list| - 1 :: list[1..][i] == list[i + 1];
      if w.configs == ReadOnly(read, w.manifests) {
        LockingFreezes(read, h, list[1..], failing);
      } else if Accepted(h, n, w, failing) {
        var t := Put(h, n, w.(configs := ReadOnly(read, w.manifests)));
        assert SameButConfigs(h, t);
        LockingFreezes(read, t, list[1..], failing);
      }
    }
  }

  lemma {:induction false} LockingIsLater(read: Reader, h: Store, list: seq<(string, ManagedWork)>, failing: set<string>)
    requires Versioned(h)
    ensures var t := LockAll(read, h, list, failing); Later(h, t) && Versioned(t)
    decreases |list|
  {
    if list != [] {
      var (n, w) := list[0];
      if w.configs == ReadOnly(read, w.manifests) {
        LockingIsLater(read, h, list[1..], failing);
      } else if Accepted(h, n, w, failing) {
        LockingIsLater(read, Put(h, n, w.(configs := ReadOnly(read, w.manifests))), list[1..], failing);
      }
    }
  }

  lemma {:induction false} ApplyingIsLater(h: Store, needs: seq<(string, ManagedWork)>, failing: set<string>)
    requires Versioned(h)
    ensures var t := ApplyAll(h, needs, failing); Later(h, t) && Versioned(t)
    decreases |needs|
  {
    if needs != [] {
      ApplyingIsLater(Apply(h, needs[0].0, needs[0].1, needs[0].0 !in failing), needs[1..], failing);
    }
  }

  lemma NextIsLater(read: Reader, h: Store, x: Input)
    requires Versioned(h)
    ensures Later(h, Next(read, h, x)) && Versioned(Next(read, h, x))
  {
    if x.list.Ok? {
      LockingIsLater(read, h, x.list.value, x.failing);
    }
    if x.secret.Ok? && x.secret.value.Some? {
      ApplyingIsLater(h, Rendered(read, x.disabled, x.secret.value.value), x.failing);
    }
  }

  /** The hub after the first `i` reconciles. */
  function At(read: Reader, h: Store, run: seq<Input>, i: nat): (r: Store)
    requires i <= |run|
  {
    if i == 0 then h else Next(read, At(read, h, run, i - 1), run[i - 1])
  }

  lemma {:induction false} AtIsLater(read: Reader, h: Store, run: seq<Input>, k: nat, i: nat)
    requires k <= i <= |run| && Versioned(h)
    ensures Versioned(At(read, h, run, k)) && Versioned(At(read, h, run, i))
    ensures Later(At(read, h, run, k), At(read, h, run, i))
    decreases i
  {
    if 0 < i {
      if k < i {
        AtIsLater(read, h, run, k, i - 1);
      } else {
        AtIsLater(read, h, run, i - 1, i - 1);
      }
      NextIsLater(read, At(read, h, run, i - 1), run[i - 1]);
    }
  }

  /** Every listed work was the hub's at some earlier point of the run. */
  predicate FromThePast(read: Reader, h: Store, run: seq<Input>, i: nat)
    requires i < |run|
  {
    run[i].list.Ok? ==>
      forall j | 0 <= j < |run[i].list.value| ::
        exists k | 0 <= k <= i ::
          run[i].list.value[j].0 in At(read, h, run, k).works && At(read, h, run, k).works[run[i].list.value[j].0] == run[i].list.value[j].1
  }

  lemma PastIsGenuine(read: Reader, h: Store, run: seq<Input>, i: nat)
    requires i < |run| && Versioned(h) && run[i].list.Ok? && FromThePast(read, h, run, i)
    ensures Genuine(At(read, h, run, i), run[i].list.value)
  {
    var list := run[i].list.value;
    forall j | 0 <= j < |list|
      ensures var now := At(read, h, run, i); var (n, w) := list[j];
              w.version <= now.writes && (n in now.works && now.works[n].version == w.version ==> now.works[n] == w)
    {
      var k :| 0 <= k <= i && list[j].0 in At(read, h, run, k).works && At(read, h, run, k).works[list[j].0] == list[j].1;
      AtIsLater(read, h, run, k, i);
    }
  }

  /** All reconciles see the annotation, list no work that never was, and never an empty list. */
  predicate DisabledRun(read: Reader, h: Store, run: seq<Input>) {
    forall i | 0 <= i < |run| ::
      run[i].disabled && FromThePast(read, h, run, i) && (run[i].list.Ok? ==> run[i].list.value != [])
  }

  /**
   While auto-import stays disabled, no run of reconciles changes anything of the
   works but their configs, however stale the informer's lists are, as long as
   they are not empty.
   */
  lemma {:induction false} ManifestsFrozenWhileDisabled(read: Reader, h: Store, run: seq<Input>, i: nat)
    requires i <= |run| && Versioned(h) && DisabledRun(read, h, run)
    ensures SameButConfigs(h, At(read, h, run, i))
    decreases i
  {
    if i > 0 {
      ManifestsFrozenWhileDisabled(read, h, run, i - 1);
      assert FromThePast(read, h, run, i - 1);
      if run[i - 1].list.Ok? {
        PastIsGenuine(read, h, run, i - 1);
      }
      DisabledStepFreezes(read, At(read, h, run, i - 1), run[i - 1]);
      FrozenTwice(h, At(read, h, run, i - 1), At(read, h, run, i));
    }
  }

  lemma DisabledStepFreezes(read: Reader, h: Store, x: Input)
    requires x.disabled && (x.list.Ok? ==> x.list.value != [] && Genuine(h, x.list.value))
    ensures SameButConfigs(h, Next(read, h, x))
  {
    if x.list.Ok? {
      LockingFreezes(read, h, x.list.value, x.failing);
    }
  }

  lemma FrozenTwice(a: Store, b: Store, c: Store)
    requires SameButConfigs(a, b) && SameButConfigs(b, c)
    ensures SameButConfigs(a, c)
  {
  }

  // ---- an empty list breaks it ----

  predicate LabelledIn(h: Store, n: string) {
    n in h.works && h.works[n].labelled
  }

  /** The labelled works keep their manifests. */
  ghost predicate KeepsManifests(h: Store, t: Store) {
    forall n | LabelledIn(h, n) :: n in t.works && t.works[n].manifests == h.works[n].manifests
  }

  /** A secret whose works have other manifests than these. */
  function OtherSecret(crds: seq<Manifest>, docs: seq<Manifest>): (r: ImportData)
  {
    ImportData(if crds == ["a"] then "b" else "a", if docs == ["a"] then "b" else "a")
  }

  lemma OneDocument(d: string)
    requires |d| == 1
    ensures SplitYamls(d) == [d]
  {
    assert FirstSep(d).None?;
  }

  function Blind(secret: ImportData): (x: Input)
  {
    Input(true, true, Ok([]), true, Ok(Some(secret)), {})
  }

  lemma BlindOverwrites(read: Reader, h: Store)
    requires LabelledIn(h, CRDsWork) || LabelledIn(h, KlusterletWork)
    ensures exists secret :: !KeepsManifests(h, Next(read, h, Blind(secret)))
  {
    var crds := if CRDsWork in h.works then h.works[CRDsWork].manifests else [];
    var docs := if KlusterletWork in h.works then h.works[KlusterletWork].manifests else [];
    var secret := OtherSecret(crds, docs);
    OneDocument(secret.importYaml);
    var needs := Rendered(read, true, secret);
    assert secret.crds != "" && secret.importYaml != "";
    assert |needs| == 2 && needs[1].1.manifests == [secret.importYaml] && needs[0].1.manifests == [secret.crds];
    AppliedBoth(h, needs, {});
    var t := Next(read, h, Blind(secret));
    assert t == ApplyAll(h, needs, {});
    assert t.works[CRDsWork].manifests == [secret.crds] != crds;
    assert t.works[KlusterletWork].manifests == [secret.importYaml] != docs;
    assert !KeepsManifests(h, t);
  }

  lemma AppliedBoth(h: Store, needs: seq<(string, ManagedWork)>, failing: set<string>)
    requires |needs| == 2 && needs[0].0 != needs[1].0 && failing == {}
    ensures var t := ApplyAll(h, needs, failing);
            && needs[0].0 in t.works && t.works[needs[0].0].manifests == needs[0].1.manifests
            && needs[1].0 in t.works && t.works[needs[1].0].manifests == needs[1].1.manifests
  {
    ApplyingGives(h, needs, 0);
    ApplyingGives(h, needs, 1);
  }

  /**
   A reconcile of a disabled cluster keeps the manifests of the labelled works,
   whatever the import secret says, exactly when the informer lists some work or
   no labelled work has the name of a rendered one.
   */
  lemma FrozenExactlyWhenWorksAreSeen(read: Reader, h: Store, list: seq<(string, ManagedWork)>)
    requires Genuine(h, list)
    ensures (forall x: Input | x.disabled && x.list == Ok(list) :: KeepsManifests(h, Next(read, h, x)))
            <==> list != [] || (!LabelledIn(h, CRDsWork) && !LabelledIn(h, KlusterletWork))
  {
    if list != [] {
      forall x: Input | x.disabled && x.list == Ok(list) ensures KeepsManifests(h, Next(read, h, x)) {
        LockingFreezes(read, h, list, x.failing);
      }
    } else if LabelledIn(h, CRDsWork) || LabelledIn(h, KlusterletWork) {
      BlindOverwrites(read, h);
      var secret :| !KeepsManifests(h, Next(read, h, Blind(secret)));
      assert Blind(secret).disabled && Blind(secret).list == Ok(list);
    } else {
      forall x: Input | x.disabled && x.list == Ok(list) ensures KeepsManifests(h, Next(read, h, x)) {
        RenderingKeepsOthers(read, h, x);
      }
    }
  }

  /** A reconcile that sees no works leaves every labelled work alone that has no rendered name. */
  lemma RenderingKeepsOthers(read: Reader, h: Store, x: Input)
    requires x.disabled && x.list == Ok([]) && !LabelledIn(h, CRDsWork) && !LabelledIn(h, KlusterletWork)
    ensures KeepsManifests(h, Next(read, h, x))
  {
    if x.secret.Ok? && x.secret.value.Some? {
      var needs := Rendered(read, true, x.secret.value.value);
      forall n | LabelledIn(h, n) ensures var t := ApplyAll(h, needs, x.failing); n in t.works && t.works[n] == h.works[n] {
        ApplyingKeepsOther(h, needs, x.failing, n);
      }
    }
  }

  predicate Named(list: seq<(string, ManagedWork)>, n: string) {
    exists i | 0 <= i < |list| :: list[i].0 == n
  }

  lemma NamedHeadOrTail(list: seq<(string, ManagedWork)>, n: string)
    requires list != []
    ensures Named(list, n) <==> list[0].0 == n || Named(list[1..], n)
  {
    if i :| 0 <= i < |list| && list[i].0 == n {
      assert i > 0 ==> list[1..][i - 1].0 == n;
    }
    if i :| 0 <= i < |list[1..]| && list[1..][i].0 == n {
      assert list[i + 1].0 == n;
    }
  }

  /** A work that is not among those applied stays as it is. */
  lemma {:induction false} ApplyingKeepsOther(h: Store, needs: seq<(string, ManagedWork)>, failing: set<string>, n: string)
    requires !Named(needs, n)
    ensures var t := ApplyAll(h, needs, failing);
            (n in t.works <==> n in h.works) && (n in h.works ==> t.works[n] == h.works[n])
    decreases |needs|
  {
    if needs != [] {
      NamedHeadOrTail(needs, n);
      ApplyingKeepsOther(Apply(h, needs[0].0, needs[0].1, needs[0].0 !in failing), needs[1..], failing, n);
    }
  }

  // ---- error-free reconciles ----

  predicate DistinctNames(list: seq<(string, ManagedWork)>) {
    forall i, j | 0 <= i < j < |list| :: list[i].0 != list[j].0
  }

  predicate Current(h: Store, list: seq<(string, ManagedWork)>) {
    DistinctNames(list) && forall i | 0 <= i < |list| :: list[i].0 in h.works && h.works[list[i].0] == list[i].1
  }

  /** The list an up-to-date informer gives: each labelled work once. */
  ghost predicate Fresh(h: Store, list: seq<(string, ManagedWork)>) {
    && Current(h, list)
    && (forall i | 0 <= i < |list| :: list[i].1.labelled)
    && (forall n | LabelledIn(h, n) :: (n, h.works[n]) in list)
  }

  predicate Locked(read: Reader, w: ManagedWork) {
    w.configs == ReadOnly(read, w.manifests)
  }

  /** Locking an up-to-date list locks exactly the listed works and leaves the others. */
  lemma {:induction false} LockingLocks(read: Reader, h: Store, list: seq<(string, ManagedWork)>, n: string)
    requires Current(h, list) && n in h.works
    ensures var t := LockAll(read, h, list, {});
            && t.works.Keys == h.works.Keys
            && if Named(list, n) then Locked(read, t.works[n]) && t.works[n].labelled == h.works[n].labelled
               else t.works[n] == h.works[n]
    decreases |list|
  {
    if list != [] {
      var t := FirstLocked(read, h, list);
      NamedHeadOrTail(list, n);
      LockingLocks(read, t, list[1..], n);
      if n == list[0].0 {
        HeadNotInTail(list);
      }
    }
  }

  lemma HeadNotInTail(list: seq<(string, ManagedWork)>)
    requires list != [] && DistinctNames(list)
    ensures !Named(list[1..], list[0].0)
  {
    forall i | 0 <= i < |list[1..]| ensures list[1..][i].0 != list[0].0 {
      assert list[1..][i] == list[i + 1];
    }
  }

  /** The store once the first listed work is locked; the rest of the list is still current. */
  lemma FirstLocked(read: Reader, h: Store, list: seq<(string, ManagedWork)>) returns (t: Store)
    requires list != [] && Current(h, list)
    ensures Current(t, list[1..]) && LockAll(read, h, list, {}) == LockAll(read, t, list[1..], {})
    ensures t.works.Keys == h.works.Keys && forall n | n in h.works && n != list[0].0 :: t.works[n] == h.works[n]
    ensures var n := list[0].0; Locked(read, t.works[n]) && t.works[n].labelled == h.works[n].labelled
  {
    var (n, w) := list[0];
    t := if Locked(read, w) then h else Put(h, n, w.(configs := ReadOnly(read, w.manifests)));
    assert forall i | 0 <= i < |list| - 1 :: list[1..][i] == list[i + 1];
  }

  lemma {:induction false} LockedNeedNoWrite(read: Reader, h: Store, list: seq<(string, ManagedWork)>, failing: set<string>)
    requires forall i | 0 <= i < |list| :: Locked(read, list[i].1)
    ensures LockAll(read, h, list, failing) == h
    decreases |list|
  {
    if list != [] {
      assert forall i | 0 <= i < |list| - 1 :: list[1..][i] == list[i + 1];
      LockedNeedNoWrite(read, h, list[1..], failing);
    }
  }

  /** Every work that is applied is there afterwards and as required. */
  lemma {:induction false} ApplyingGives(h: Store, needs: seq<(string, ManagedWork)>, i: nat)
    requires DistinctNames(needs) && i < |needs|
    ensures var t := ApplyAll(h, needs, {}); needs[i].0 in t.works && Matches(t.works[needs[i].0], needs[i].1)
    decreases |needs|
  {
    var t := Apply(h, needs[0].0, needs[0].1, true);
    assert forall j | 0 <= j < |needs| - 1 :: needs[1..][j] == needs[j + 1];
    if i == 0 {
      HeadNotInTail(needs);
      ApplyingKeepsOther(t, needs[1..], {}, needs[0].0);
    } else {
      ApplyingGives(t, needs[1..], i - 1);
    }
  }

  /** A work after applying is one of those applied, as required, or was there before. */
  lemma AppliedWork(h: Store, needs: seq<(string, ManagedWork)>, n: string)
    requires DistinctNames(needs) && n in ApplyAll(h, needs, {}).works
    ensures var t := ApplyAll(h, needs, {});
            if Named(needs, n) then exists i | 0 <= i < |needs| :: needs[i].0 == n && Matches(t.works[n], needs[i].1)
            else n in h.works && t.works[n] == h.works[n]
  {
    if Named(needs, n) {
      var i :| 0 <= i < |needs| && needs[i].0 == n;
      ApplyingGives(h, needs, i);
    } else {
      ApplyingKeepsOther(h, needs, {}, n);
    }
  }

  /** The rendered works have distinct names, the label, and the configs of their manifests. */
  lemma RenderedWorks(read: Reader, disabled: bool, secret: ImportData)
    ensures var needs := Rendered(read, disabled, secret);
            && DistinctNames(needs)
            && forall i | 0 <= i < |needs| :: needs[i].1.labelled && needs[i].1.configs == Configs(read, disabled, needs[i].1.manifests)
  {
  }

  lemma {:induction false} MatchingNeedsNoWrite(h: Store, needs: seq<(string, ManagedWork)>, failing: set<string>)
    requires forall i | 0 <= i < |needs| :: needs[i].0 in h.works && Matches(h.works[needs[i].0], needs[i].1)
    ensures ApplyAll(h, needs, failing) == h
    decreases |needs|
  {
    if needs != [] {
      assert forall i | 0 <= i < |needs| - 1 :: needs[1..][i] == needs[i + 1];
      MatchingNeedsNoWrite(h, needs[1..], failing);
    }
  }

  /** One error-free reconcile of a disabled cluster locks every labelled work. */
  lemma OneReconcileLocks(read: Reader, h: Store, x: Input)
    requires x.live && x.disabled && x.finalizer && x.failing == {}
    requires x.list.Ok? && Fresh(h, x.list.value) && x.list.value != []
    ensures var t := Next(read, h, x);
            && SameButConfigs(h, t)
            && forall n | LabelledIn(t, n) :: Locked(read, t.works[n])
  {
    var list := x.list.value;
    LockingCurrentFreezes(read, h, list, {});
    var t := Next(read, h, x);
    forall n | LabelledIn(t, n) ensures Locked(read, t.works[n]) {
      LockingLocks(read, h, list, n);
      ListedWhenLabelled(h, list, n);
    }
  }

  lemma ListedWhenLabelled(h: Store, list: seq<(string, ManagedWork)>, n: string)
    requires Fresh(h, list) && n in h.works
    ensures LabelledIn(h, n) ==> Named(list, n)
  {
  }

  lemma {:induction false} LockingCurrentFreezes(read: Reader, h: Store, list: seq<(string, ManagedWork)>, failing: set<string>)
    requires Current(h, list)
    ensures SameButConfigs(h, LockAll(read, h, list, failing))
    decreases |list|
  {
    if list != [] {
      var (n, w) := list[0];
      assert forall i | 0 <= i < |list| - 1 :: list[1..][i] == list[i + 1];
      if Locked(read, w) {
        LockingCurrentFreezes(read, h, list[1..], failing);
      } else if Accepted(h, n, w, failing) {
        var t := Put(h, n, w.(configs := ReadOnly(read, w.manifests)));
        assert SameButConfigs(h, t);
        LockingCurrentFreezes(read, t, list[1..], failing);
      }
    }
  }

  lemma DisabledListIsLocked(read: Reader, h: Store, x: Input, list: seq<(string, ManagedWork)>)
    requires x.live && x.disabled && x.finalizer && x.failing == {}
    requires x.list.Ok? && Fresh(h, x.list.value)
    requires Fresh(Next(read, h, x), list)
    ensures forall i | 0 <= i < |list| :: Locked(read, list[i].1)
  {
    var t := Next(read, h, x);
    if x.list.value != [] {
      OneReconcileLocks(read, h, x);
      assert forall i | 0 <= i < |list| :: LabelledIn(t, list[i].0);
    } else {
      forall i | 0 <= i < |list| ensures Locked(read, list[i].1) {
        CreatedAreLocked(read, h, x, list[i].0);
      }
    }
  }

  /** Without labelled works before, the labelled ones afterwards are those just rendered. */
  lemma CreatedAreLocked(read: Reader, h: Store, x: Input, n: string)
    requires x.live && x.disabled && x.finalizer && x.failing == {}
    requires x.list == Ok([]) && Fresh(h, [])
    requires LabelledIn(Next(read, h, x), n)
    ensures Locked(read, Next(read, h, x).works[n])
  {
    assert !LabelledIn(h, n);
    RenderedWorks(read, true, x.secret.value.value);
    AppliedWork(h, Rendered(read, true, x.secret.value.value), n);
  }

  /**
   Reconciling is idempotent, disabled or not: after an error-free reconcile with
   an up-to-date list, another one of the same inputs writes nothing.
   */
  lemma SecondReconcileWritesNothing(read: Reader, h: Store, x: Input, list: seq<(string, ManagedWork)>)
    requires x.failing == {} && x.list.Ok? && Fresh(h, x.list.value)
    requires Fresh(Next(read, h, x), list)
    ensures Next(read, Next(read, h, x), x.(list := Ok(list))) == Next(read, h, x)
  {
    var t := Next(read, h, x);
    if x.live && x.finalizer {
      if x.disabled && list != [] {
        DisabledListIsLocked(read, h, x, list);
        LockedNeedNoWrite(read, t, list, {});
      } else if x.secret.Ok? && x.secret.value.Some? && x.secret.value.value.importYaml != "" {
        var needs := Rendered(read, x.disabled, x.secret.value.value);
        if x.disabled && x.list.value != [] {
          NothingUnlabels(read, h, x, list);
        } else {
          RenderedWorks(read, x.disabled, x.secret.value.value);
          forall i | 0 <= i < |needs| ensures needs[i].0 in t.works && Matches(t.works[needs[i].0], needs[i].1) {
            ApplyingGives(h, needs, i);
          }
          MatchingNeedsNoWrite(t, needs, {});
        }
      }
    }
  }

  lemma NothingUnlabels(read: Reader, h: Store, x: Input, list: seq<(string, ManagedWork)>)
    requires x.live && x.finalizer && x.failing == {} && x.disabled
    requires x.list.Ok? && Fresh(h, x.list.value) && x.list.value != []
    requires Fresh(Next(read, h, x), list)
    ensures list != []
  {
    OneReconcileLocks(read, h, x);
    var n := x.list.value[0].0;
    assert LabelledIn(Next(read, h, x), n);
    assert (n, Next(read, h, x).works[n]) in list;
  }

  /**
   Once the annotation is gone, an error-free reconcile with a valid import secret
   gives every rendered work its manifests, and leaves read-only configs on exactly
   the works that are not rendered.
   */
  lemma EnablingClearsConfigs(read: Reader, h: Store, x: Input)
    requires x.live && !x.disabled && x.finalizer && x.failing == {} && x.list.Ok?
    requires x.secret.Ok? && x.secret.value.Some? && x.secret.value.value.importYaml != ""
    ensures var t, needs := Next(read, h, x), Rendered(read, false, x.secret.value.value);
            && (forall i | 0 <= i < |needs| :: needs[i].0 in t.works && t.works[needs[i].0].manifests == needs[i].1.manifests)
            && (forall n | n in t.works :: t.works[n].configs == [] <==> Named(needs, n) || (n in h.works && h.works[n].configs == []))
  {
    var t, needs := Next(read, h, x), Rendered(read, false, x.secret.value.value);
    RenderedWorks(read, false, x.secret.value.value);
    forall i | 0 <= i < |needs| ensures needs[i].0 in t.works && t.works[needs[i].0].manifests == needs[i].1.manifests {
      ApplyingGives(h, needs, i);
    }
    forall n | n in t.works ensures t.works[n].configs == [] <==> Named(needs, n) || (n in h.works && h.works[n].configs == []) {
      AppliedWork(h, needs, n);
    }
  }

  /** A refused write ends the locking: what comes behind it in the list is as good as not listed. */
  lemma {:induction false} LockingStops(read: Reader, h: Store, list: seq<(string, ManagedWork)>, failing: set<string>, i: nat)
    requires i < |list| && list[i].1.configs != ReadOnly(read, list[i].1.manifests)
    requires var t, (n, w) := LockAll(read, h, list[..i], failing), list[i];
             n in failing || n !in t.works || t.works[n].version != w.version
    ensures LockAll(read, h, list, failing) == LockAll(read, h, list[..i], failing)
    decreases |list|
  {
    if i > 0 {
      var (n, w) := list[0];
      assert list[..i][0] == list[0] && list[..i][1..] == list[1..][..i - 1];
      if Locked(read, w) {
        LockingStops(read, h, list[1..], failing, i - 1);
      } else if Accepted(h, n, w, failing) {
        LockingStops(read, Put(h, n, w.(configs := ReadOnly(read, w.manifests))), list[1..], failing, i - 1);
      }
    }
  }

  // ---- what a reconcile delivers ----

  /**
   The rendered works, told from the import secret: the klusterlet work with the split
   documents, and the CRD work if there are CRDs. Exactly one of them is deleted last, the
   one that holds the CRDs if any; and exactly the other orphans its resources.
   */
  lemma RenderedExactly(read: Reader, disabled: bool, secret: ImportData)
    ensures var needs := Rendered(read, disabled, secret);
            && (forall n :: Named(needs, n) <==> n == "klusterlet" || (n == "klusterlet-crds" && secret.crds != ""))
            && DistinctNames(needs)
            && forall i | 0 <= i < |needs| ::
                 && needs[i].1.labelled
                 && needs[i].1.manifests == (if needs[i].0 == "klusterlet" then SplitYamls(secret.importYaml) else [secret.crds])
                 && needs[i].1.configs == (if disabled then ReadOnly(read, needs[i].1.manifests) else [])
                 && (needs[i].1.last <==> needs[i].0 == "klusterlet-crds" || secret.crds == "")
                 && (needs[i].1.orphans <==> !needs[i].1.last)
  {
    var needs := Rendered(read, disabled, secret);
    assert needs[|needs| - 1].0 == "klusterlet";
    assert secret.crds != "" ==> needs[0].0 == "klusterlet-crds";
  }

  /** Of distinct works each is applied on its own: a failing write leaves its work alone, and spares no other. */
  lemma {:induction false} EachIsApplied(h: Store, needs: seq<(string, ManagedWork)>, failing: set<string>, i: nat)
    requires DistinctNames(needs) && i < |needs|
    ensures var t, (n, need) := ApplyAll(h, needs, failing), needs[i];
            if n in failing then (n in t.works <==> n in h.works) && (n in h.works ==> t.works[n] == h.works[n])
            else && n in t.works && Matches(t.works[n], need)
                 && (n !in h.works ==> t.works[n].(version := need.version) == need)
                 && (n in h.works ==> (t.works[n].last <==> h.works[n].last || need.last))
    decreases |needs|
  {
    var t := Apply(h, needs[0].0, needs[0].1, needs[0].0 !in failing);
    assert forall j | 0 <= j < |needs| - 1 :: needs[1..][j] == needs[j + 1];
    if i == 0 {
      HeadNotInTail(needs);
      ApplyingKeepsOther(t, needs[1..], failing, needs[0].0);
    } else {
      assert needs[0].0 != needs[i].0;
      EachIsApplied(t, needs[1..], failing, i - 1);
    }
  }

  /** The manifests that a rendered work of this name holds. */
  function ManifestsOf(n: string, secret: ImportData): (r: seq<Manifest>)
  {
    if n == "klusterlet" then SplitYamls(secret.importYaml) else [secret.crds]
  }

  /**
   Work by work, after a reconcile that renders: each rendered work whose writes succeed has
   the label, its manifests and configs, and the annotation if it is the one to go last; a
   created one orphans its resources unless it goes last. All other works are as they were.
   */
  lemma ReconcileDelivers(read: Reader, h: Store, x: Input, n: string)
    requires x.live && x.list.Ok? && x.finalizer && !(x.disabled && x.list.value != [])
    requires x.secret.Ok? && x.secret.value.Some? && x.secret.value.value.importYaml != ""
    ensures var t, secret := Next(read, h, x), x.secret.value.value;
            if (n == "klusterlet" || (n == "klusterlet-crds" && secret.crds != "")) && n !in x.failing then
              && n in t.works && t.works[n].labelled
              && t.works[n].manifests == ManifestsOf(n, secret)
              && t.works[n].configs == (if x.disabled then ReadOnly(read, ManifestsOf(n, secret)) else [])
              && (t.works[n].last <==> n == "klusterlet-crds" || secret.crds == "" || (n in h.works && h.works[n].last))
              && (n !in h.works ==> (t.works[n].orphans <==> n == "klusterlet" && secret.crds != ""))
            else (n in t.works <==> n in h.works) && (n in h.works ==> t.works[n] == h.works[n])
  {
    var needs := Rendered(read, x.disabled, x.secret.value.value);
    RenderedExactly(read, x.disabled, x.secret.value.value);
    if i :| 0 <= i < |needs| && needs[i].0 == n {
      EachIsApplied(h, needs, x.failing, i);
    } else {
      ApplyingKeepsOther(h, needs, x.failing, n);
    }
  }

  /** Nothing is written for a cluster that is not live, nor after a failed listing or finalizer patch, nor without a secret to render. */
  lemma ReconcileRests(read: Reader, h: Store, x: Input)
    requires || !x.live || x.list.Err? || !x.finalizer
             || (!(x.disabled && x.list.value != [])
                 && (x.secret.Err? || x.secret.value.None? || x.secret.value.value.importYaml == ""))
    ensures Next(read, h, x) == h
  {
  }
}
