/**
 The manifestwork controller on the klusterlet works of one cluster: it applies
 what the import secret renders to, or, while auto-import is disabled, only turns
 the works it finds read-only.
 */
module KlusterletWorks {
  import opened Common
  import opened ManifestStream

  /** A raw manifest. A `Reader` gives the identifier of a manifest whose metadata can be read. */
  type Manifest = string
  type Reader = Manifest -> Option<string>

  datatype Config = Config(id: string, readOnly: bool)

  /** `last`: annotated to be deleted last. `orphans`: deleting the work orphans its resources. */
  datatype ManagedWork = ManagedWork(
    labelled: bool, last: bool, manifests: seq<Manifest>, configs: seq<Config>, orphans: bool, version: nat)

  /** The works by name; every write gets the next resource version. */
  datatype Store = Store(works: map<string, ManagedWork>, writes: nat)

  datatype ImportData = ImportData(crds: string, importYaml: string)

  /** `live`: the cluster exists, is not hosted and not being deleted. `list`: what the informer lists. */
  datatype Input = Input(
    live: bool, disabled: bool,
    list: Result<seq<(string, ManagedWork)>>,
    finalizer: bool,                    // the manifestwork finalizer could be asserted
    secret: Result<Option<ImportData>>,
    failing: set<string>)               // works whose writes fail

  const CRDsWork := "klusterlet-crds"
  const KlusterletWork := "klusterlet"

  // ---- the specification ----

  /** One read-only config per manifest with metadata, in order. */
  function ReadOnly(read: Reader, manifests: seq<Manifest>): (r: seq<Config>)
  {
    if manifests == [] then []
    else (if read(manifests[0]).Some? then [Config(read(manifests[0]).value, true)] else []) + ReadOnly(read, manifests[1..])
  }

  function Configs(read: Reader, disabled: bool, manifests: seq<Manifest>): (r: seq<Config>)
  {
    if disabled then ReadOnly(read, manifests) else []
  }

  function Rendered(read: Reader, disabled: bool, secret: ImportData): (r: seq<(string, ManagedWork)>)
  {
    var docs := SplitYamls(secret.importYaml);
    if secret.crds == "" then
      [(KlusterletWork, ManagedWork(true, true, docs, Configs(read, disabled, docs), false, 0))]
    else
      [(CRDsWork, ManagedWork(true, true, [secret.crds], Configs(read, disabled, [secret.crds]), false, 0)),
       (KlusterletWork, ManagedWork(true, false, docs, Configs(read, disabled, docs), true, 0))]
  }

  function Put(h: Store, n: string, w: ManagedWork): (r: Store)
  {
    Store(h.works[n := w.(version := h.writes + 1)], h.writes + 1)
  }

  /** Label and annotation are there, and manifests and configs are as required. */
  predicate Matches(w: ManagedWork, need: ManagedWork) {
    && (need.labelled ==> w.labelled) && (need.last ==> w.last)
    && w.manifests == need.manifests && w.configs == need.configs
  }

  /** Create or update by name, against the live work. */
  function Apply(h: Store, n: string, need: ManagedWork, ok: bool): (r: Store)
  {
    if !ok then h
    else if n !in h.works then Put(h, n, need)
    else if Matches(h.works[n], need) then h
    else Put(h, n, need.(labelled := h.works[n].labelled || need.labelled, last := h.works[n].last || need.last))
  }

  function ApplyAll(h: Store, needs: seq<(string, ManagedWork)>, failing: set<string>): (r: Store)
    decreases |needs|
  {
    if needs == [] then h
    else ApplyAll(Apply(h, needs[0].0, needs[0].1, needs[0].0 !in failing), needs[1..], failing)
  }

  /** A write of a listed work is refused unless it still has the listed version. */
  predicate Accepted(h: Store, n: string, w: ManagedWork, failing: set<string>) {
    n !in failing && n in h.works && h.works[n].version == w.version
  }

  /** Give the listed works their read-only configs, stopping at the first failure. */
  function LockAll(read: Reader, h: Store, list: seq<(string, ManagedWork)>, failing: set<string>): (r: Store)
    decreases |list|
  {
    if list == [] then h
    else
      var (n, w) := list[0];
      var want := ReadOnly(read, w.manifests);
      if w.configs == want then LockAll(read, h, list[1..], failing)
      else if !Accepted(h, n, w, failing) then h
      else LockAll(read, Put(h, n, w.(configs := want)), list[1..], failing)
  }

  function Next(read: Reader, h: Store, x: Input): (r: Store)
  {
    if !x.live || x.list.Err? || !x.finalizer then h
    else if x.disabled && x.list.value != [] then LockAll(read, h, x.list.value, x.failing)
    else if x.secret.Err? || x.secret.value.None? || x.secret.value.value.importYaml == "" then h
    else ApplyAll(h, Rendered(read, x.disabled, x.secret.value.value), x.failing)
  }

  // ---- the code ----

  method BuildManifestConfigs(read: Reader, disabled: bool, manifests: seq<Manifest>) returns (configs: seq<Config>)
    ensures configs == Configs(read, disabled, manifests)
  {
    if !disabled {
      return [];
    }
    configs := [];
    for i := 0 to |manifests|
      invariant configs + ReadOnly(read, manifests[i..]) == ReadOnly(read, manifests)
    {
      assert manifests[i..][1..] == manifests[i + 1..];
      var id := read(manifests[i]);
      if id.None? {
        continue;
      }
      configs := configs + [Config(id.value, true)];
    }
  }

  /** The element-wise comparison of manifests and of configs. */
  method ListsEqual<T(==)>(a: seq<T>, b: seq<T>) returns (same: bool)
    ensures same <==> a == b
  {
    if |a| != |b| {
      return false;
    }
    for i := 0 to |a|
      invariant a[..i] == b[..i]
    {
      if a[i] != b[i] {
        return false;
      }
    }
    return true;
  }

  /** The loop that turns each document into a manifest. */
  method Manifests(docs: seq<string>) returns (manifests: seq<Manifest>)
    ensures manifests == docs
  {
    manifests := [];
    for i := 0 to |docs|
      invariant manifests == docs[..i]
    {
      manifests := manifests + [docs[i]];
    }
  }

  method CreateManifestWorks(read: Reader, disabled: bool, secret: ImportData) returns (works: seq<(string, ManagedWork)>)
    ensures works == Rendered(read, disabled, secret)
  {
    works := [];
    if |secret.crds| > 0 {
      var crdConfigs := BuildManifestConfigs(read, disabled, [secret.crds]);
      works := works + [(CRDsWork, ManagedWork(true, true, [secret.crds], crdConfigs, false, 0))];
    }
    var manifests := Manifests(SplitYamls(secret.importYaml));
    var configs := BuildManifestConfigs(read, disabled, manifests);
    var work := ManagedWork(true, false, manifests, configs, true, 0);
    if |secret.crds| == 0 {
      work := work.(last := true, orphans := false);
    }
    works := works + [(KlusterletWork, work)];
  }

  class WorkHub {
    const read: Reader
    var works: map<string, ManagedWork>
    var writes: nat

    ghost function Contents(): (h: Store)
      reads this
    {
      Store(works, writes)
    }

    constructor (read: Reader, works: map<string, ManagedWork>, writes: nat)
      ensures this.read == read && Contents() == Store(works, writes)
    {
      this.read := read;
      this.works := works;
      this.writes := writes;
    }

    method Write(n: string, w: ManagedWork)
      modifies this
      ensures Contents() == Put(old(Contents()), n, w)
    {
      writes := writes + 1;
      works := works[n := w.(version := writes)];
    }

    method ApplyManifestWork(n: string, need: ManagedWork, ok: bool) returns (err: bool)
      modifies this
      ensures Contents() == Apply(old(Contents()), n, need, ok)
      ensures err <==> !ok
    {
      if !ok {
        return true;
      }
      if n !in works {
        Write(n, need);
        return false;
      }
      var existing := works[n];
      var modified := false;
      if need.labelled && !existing.labelled {
        existing := existing.(labelled := true);
        modified := true;
      }
      if need.last && !existing.last {
        existing := existing.(last := true);
        modified := true;
      }
      var same := ListsEqual(existing.manifests, need.manifests);
      if !same {
        modified := true;
      }
      same := ListsEqual(existing.configs, need.configs);
      if !same {
        modified := true;
      }
      if !modified {
        return false;
      }
      Write(n, need.(labelled := existing.labelled, last := existing.last));
      return false;
    }

    /** Every work is tried; errors are collected. */
    method ApplyResources(needs: seq<(string, ManagedWork)>, failing: set<string>) returns (err: bool)
      modifies this
      ensures Contents() == ApplyAll(old(Contents()), needs, failing)
      ensures err <==> exists i | 0 <= i < |needs| :: needs[i].0 in failing
    {
      err := false;
      for i := 0 to |needs|
        invariant ApplyAll(Contents(), needs[i..], failing) == ApplyAll(old(Contents()), needs, failing)
        invariant err <==> exists j | 0 <= j < i :: needs[j].0 in failing
      {
        assert needs[i..][1..] == needs[i + 1..];
        var e := ApplyManifestWork(needs[i].0, needs[i].1, needs[i].0 !in failing);
        err := err || e;
      }
    }

    method LockListed(list: seq<(string, ManagedWork)>, failing: set<string>) returns (err: bool)
      modifies this
      ensures Contents() == LockAll(read, old(Contents()), list, failing)
    {
      for i := 0 to |list|
        invariant LockAll(read, Contents(), list[i..], failing) == LockAll(read, old(Contents()), list, failing)
      {
        assert list[i..][1..] == list[i + 1..];
        var (n, mw) := list[i];
        var desired := BuildManifestConfigs(read, true, mw.manifests);
        var same := ListsEqual(mw.configs, desired);
        if same {
          continue;
        }
        if n in failing || n !in works || works[n].version != mw.version {
          return true;
        }
        Write(n, mw.(configs := desired));
      }
      return false;
    }

    method Reconcile(x: Input) returns (err: bool)
      modifies this
      ensures Contents() == Next(read, old(Contents()), x)
    {
      if !x.live {
        return false;
      }
      if x.list.Err? || !x.finalizer {
        return true;
      }
      if x.disabled && |x.list.value| > 0 {
        err := LockListed(x.list.value, x.failing);
        return;
      }
      if x.secret.Err? {
        return true;
      }
      if x.secret.value.None? {
        return false;
      }
      if |x.secret.value.value.importYaml| == 0 {
        return true;
      }
      var needs := CreateManifestWorks(read, x.disabled, x.secret.value.value);
      err := ApplyResources(needs, x.failing);
    }
  }
}
