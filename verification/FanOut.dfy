/**
 Which managed clusters a change of a klusterlet config, a bootstrap secret or a CA
 configmap enqueues: lookups in incrementally maintained indexes.
 */
module FanOut {
  import opened Common

  // ---- indexes ----

  type Index = map<string, set<string>>

  /** The keys filed under a value. */
  function Filed(index: Index, value: string): (r: set<string>)
  {
    if value in index then index[value] else {}
  }

  /** What a scan of the whole store finds. */
  function Scan<V>(items: map<string, V>, values: V -> seq<string>, value: string): (r: set<string>)
  {
    set k | k in items && value in values(items[k])
  }

  /** A store of objects by key with one index on the values `values` computes of them. */
  class Indexer<V> {
    const values: V -> seq<string>
    var items: map<string, V>
    var index: Index

    ghost predicate Valid()
      reads this
    {
      forall value: string :: Filed(index, value) == Scan(items, values, value)
    }

    constructor (values: V -> seq<string>)
      ensures Valid() && items == map[] && this.values == values
    {
      this.values := values;
      items := map[];
      index := map[];
    }

    /** Take a key out from under each value of its object. */
    method Unfile(key: string, obj: V)
      modifies this`index
      ensures forall value: string ::
                Filed(index, value) == if value in values(obj) then old(Filed(index, value)) - {key} else old(Filed(index, value))
    {
      var vs := values(obj);
      for i := 0 to |vs|
        invariant forall value: string ::
            Filed(index, value) == if value in vs[..i] then old(Filed(index, value)) - {key} else old(Filed(index, value))
      {
        assert vs[..i + 1] == vs[..i] + [vs[i]];
        index := index[vs[i] := Filed(index, vs[i]) - {key}];
      }
      assert vs[..|vs|] == vs;
    }

    /** Put a key under each value of its object. */
    method File(key: string, obj: V)
      modifies this`index
      ensures forall value: string ::
                Filed(index, value) == if value in values(obj) then old(Filed(index, value)) + {key} else old(Filed(index, value))
    {
      var vs := values(obj);
      for i := 0 to |vs|
        invariant forall value: string ::
            Filed(index, value) == if value in vs[..i] then old(Filed(index, value)) + {key} else old(Filed(index, value))
      {
        assert vs[..i + 1] == vs[..i] + [vs[i]];
        index := index[vs[i] := Filed(index, vs[i]) + {key}];
      }
      assert vs[..|vs|] == vs;
    }

    /** Add, or update if the key is there already. */
    method Put(key: string, obj: V)
      requires Valid()
      modifies this
      ensures Valid() && items == old(items)[key := obj]
    {
      if key in items {
        Unfile(key, items[key]);
      }
      File(key, obj);
      items := items[key := obj];
    }

    method Delete(key: string)
      requires Valid()
      modifies this
      ensures Valid() && items == old(items) - {key}
    {
      if key in items {
        Unfile(key, items[key]);
        items := items - {key};
      }
    }

    method ByIndex(value: string) returns (keys: set<string>)
      requires Valid()
      ensures keys == Scan(items, values, value)
    {
      keys := Filed(index, value);
    }
  }

  // ---- the objects and their index functions ----

  /** A managed cluster, by its klusterlet config annotation. */
  datatype Cluster = Cluster(annotation: Option<string>)

  datatype HubsConfig = NoHubs | OtherHubs | LocalSecrets(secrets: Option<seq<string>>)

  datatype ConfigMapRef = ConfigMapRef(namespace: string, name: string)

  datatype ConfigRefs = ConfigRefs(hubs: HubsConfig, bundles: Option<seq<ConfigMapRef>>, rest: string)

  const Global := "global"

  function ConfigNames(c: Cluster): (r: seq<string>)
  {
    if c.annotation.Some? && c.annotation.value != "" then [Global, c.annotation.value] else [Global]
  }

  function SecretNames(kc: ConfigRefs): (r: seq<string>)
  {
    if kc.hubs.LocalSecrets? && kc.hubs.secrets.Some? then kc.hubs.secrets.value else []
  }

  function ConfigMapKey(ref: ConfigMapRef): (r: string)
  {
    ref.namespace + "/" + ref.name
  }

  function ConfigMapKeys(kc: ConfigRefs): (r: seq<string>)
  {
    if kc.bundles.None? then []
    else seq(|kc.bundles.value|, i requires 0 <= i < |kc.bundles.value| => ConfigMapKey(kc.bundles.value[i]))
  }

  // ---- who reads what ----

  /** What GetMergedKlusterletConfigWithGlobal looks up and merges for a cluster. */
  function Inputs(c: Cluster, configs: map<string, ConfigRefs>): (r: (Option<ConfigRefs>, Option<ConfigRefs>))
  {
    var name := if c.annotation.Some? then c.annotation.value else "";
    (if Global in configs then Some(configs[Global]) else None,
     if name != "" && name in configs then Some(configs[name]) else None)
  }

  /** A change of this one config can change what is merged for the cluster. */
  ghost predicate DependsOn(c: Cluster, name: string) {
    exists configs: map<string, ConfigRefs> :: Inputs(c, configs) != Inputs(c, configs - {name})
  }

  /** The index function names exactly the configs the merge depends on. */
  lemma IndexedExactlyWhenRead(c: Cluster, name: string)
    ensures name in ConfigNames(c) <==> DependsOn(c, name)
  {
    if name in ConfigNames(c) {
      var configs := map[name := ConfigRefs(NoHubs, None, "")];
      assert Inputs(c, configs) != Inputs(c, configs - {name});
    } else {
      forall configs: map<string, ConfigRefs>
        ensures Inputs(c, configs) == Inputs(c, configs - {name})
      {
      }
    }
  }

  /** The merge depends on the global config and on the one the annotation names. */
  lemma DependsExactly(c: Cluster, name: string)
    ensures DependsOn(c, name) <==> name == "global" || (name != "" && c.annotation == Some(name))
  {
    IndexedExactlyWhenRead(c, name);
  }

  /** Clusters whose merged config reads the config `name`. */
  ghost function Readers(clusters: map<string, Cluster>, name: string): (r: set<string>)
  {
    set k | k in clusters && DependsOn(clusters[k], name)
  }

  lemma ScanFindsReaders(clusters: map<string, Cluster>, name: string)
    ensures Scan(clusters, ConfigNames, name) == Readers(clusters, name)
  {
    forall k | k in clusters ensures name in ConfigNames(clusters[k]) <==> DependsOn(clusters[k], name) {
      IndexedExactlyWhenRead(clusters[k], name);
    }
  }

  /** A cluster that is not enqueued for a config merges the same whatever becomes of that config. */
  lemma OthersAreUnaffected(c: Cluster, name: string, before: map<string, ConfigRefs>, after: map<string, ConfigRefs>)
    requires !DependsOn(c, name) && before - {name} == after - {name}
    ensures Inputs(c, before) == Inputs(c, after)
  {
    assert Inputs(c, before) == Inputs(c, before - {name});
    assert Inputs(c, after) == Inputs(c, after - {name});
  }

  // ---- enqueueing ----

  /** The loop that adds a request for each cluster found. */
  method AddEach(found: set<string>, queue: set<string>) returns (q: set<string>)
    ensures q == queue + found
  {
    q := queue;
    var todo := found;
    while todo != {}
      invariant todo <= found
      invariant q == queue + (found - todo)
      decreases |todo|
    {
      var k :| k in todo;
      q := q + {k};
      todo := todo - {k};
    }
  }

  /** For a klusterlet config. The queue holds each request once. */
  method EnqueueForConfig(name: string, clusters: Indexer<Cluster>, queue: set<string>) returns (q: set<string>)
    requires clusters.Valid() && clusters.values == ConfigNames
    ensures q == queue + Readers(clusters.items, name)
  {
    var found := clusters.ByIndex(name);
    ScanFindsReaders(clusters.items, name);
    q := AddEach(found, queue);
  }

  /** The two hops: configs indexed under `value`, then the clusters that read them. */
  method EnqueueVia(value: string, configs: Indexer<ConfigRefs>, clusters: Indexer<Cluster>, queue: set<string>)
    returns (q: set<string>)
    requires configs.Valid() && clusters.Valid() && clusters.values == ConfigNames
    ensures q == queue + ReadersOfAny(clusters.items, Scan(configs.items, configs.values, value))
  {
    var found := configs.ByIndex(value);
    q := queue;
    var todo := found;
    ghost var done: set<string> := {};
    while todo != {}
      invariant done + todo == found
      invariant q == queue + ReadersOfAny(clusters.items, done)
      decreases |todo|
    {
      var name :| name in todo;
      q := EnqueueForConfig(name, clusters, q);
      ReadersSplit(clusters.items, done, name);
      done := done + {name};
      todo := todo - {name};
    }
    assert done == found;
  }

  ghost function ReadersOfAny(clusters: map<string, Cluster>, names: set<string>): (r: set<string>)
  {
    set k | k in clusters && exists name | name in names :: DependsOn(clusters[k], name)
  }

  lemma ReadersSplit(clusters: map<string, Cluster>, names: set<string>, name: string)
    ensures ReadersOfAny(clusters, names + {name}) == ReadersOfAny(clusters, names) + Readers(clusters, name)
  {
  }

  /** The config takes the hubs from local secrets and lists this one. */
  predicate ListsSecret(kc: ConfigRefs, secret: string) {
    match kc.hubs
    case LocalSecrets(Some(secrets)) => secret in secrets
    case _ => false
  }

  /** For a bootstrap secret: the clusters that read some config listing it. */
  method EnqueueForSecret(secret: string, configs: Indexer<ConfigRefs>, clusters: Indexer<Cluster>, queue: set<string>)
    returns (q: set<string>)
    requires configs.Valid() && configs.values == SecretNames && clusters.Valid() && clusters.values == ConfigNames
    ensures q == queue + set k | k in clusters.items && exists name | name in configs.items ::
                                   ListsSecret(configs.items[name], secret) && DependsOn(clusters.items[k], name)
  {
    q := EnqueueVia(secret, configs, clusters, queue);
  }

  predicate Bundles(kc: ConfigRefs, ref: ConfigMapRef) {
    kc.bundles.Some? && ref in kc.bundles.value
  }

  /** No config names a namespace with a slash in it; Kubernetes allows none. */
  predicate SlashFree(configs: map<string, ConfigRefs>) {
    forall name | name in configs && configs[name].bundles.Some? ::
      forall i | 0 <= i < |configs[name].bundles.value| :: '/' !in configs[name].bundles.value[i].namespace
  }

  /** For a CA configmap: the clusters that read some config trusting it. */
  method EnqueueForConfigMap(ref: ConfigMapRef, configs: Indexer<ConfigRefs>, clusters: Indexer<Cluster>, queue: set<string>)
    returns (q: set<string>)
    requires configs.Valid() && configs.values == ConfigMapKeys && clusters.Valid() && clusters.values == ConfigNames
    requires '/' !in ref.namespace && SlashFree(configs.items)
    ensures q == queue + set k | k in clusters.items && exists name | name in configs.items ::
                                   Bundles(configs.items[name], ref) && DependsOn(clusters.items[k], name)
  {
    q := EnqueueVia(ConfigMapKey(ref), configs, clusters, queue);
    forall name | name in configs.items
      ensures ConfigMapKey(ref) in ConfigMapKeys(configs.items[name]) <==> Bundles(configs.items[name], ref)
    {
      KeyListedExactly(configs.items[name], ref);
    }
  }

  lemma KeyListedExactly(kc: ConfigRefs, ref: ConfigMapRef)
    requires '/' !in ref.namespace
    requires kc.bundles.Some? ==> forall i | 0 <= i < |kc.bundles.value| :: '/' !in kc.bundles.value[i].namespace
    ensures ConfigMapKey(ref) in ConfigMapKeys(kc) <==> Bundles(kc, ref)
  {
    if kc.bundles.Some? {
      var refs, keys := kc.bundles.value, ConfigMapKeys(kc);
      if ref in refs {
        var i :| 0 <= i < |refs| && refs[i] == ref;
        assert keys[i] == ConfigMapKey(ref);
      }
      if ConfigMapKey(ref) in keys {
        var i :| 0 <= i < |keys| && keys[i] == ConfigMapKey(ref);
        KeysTellApart(refs[i], ref);
      }
    }
  }

  lemma KeysTellApart(a: ConfigMapRef, b: ConfigMapRef)
    requires '/' !in a.namespace && '/' !in b.namespace && ConfigMapKey(a) == ConfigMapKey(b)
    ensures a == b
  {
    var key := ConfigMapKey(a);
    var m, n := |a.namespace|, |b.namespace|;
    assert key[m] == '/' && key[n] == '/';
    assert forall i | 0 <= i < m :: key[i] == a.namespace[i] != '/';
    assert forall i | 0 <= i < n :: key[i] == b.namespace[i] != '/';
    assert m == n;
    assert a.namespace == key[..m] && b.namespace == key[..n];
    assert a.name == key[m + 1..] && b.name == key[n + 1..];
  }

  /** A namespace's keys are unambiguous exactly when it has no slash. */
  lemma KeysCollideExactlyOnSlashes(namespace: string)
    ensures (forall name: string, other: ConfigMapRef | '/' !in other.namespace ::
               ConfigMapKey(ConfigMapRef(namespace, name)) == ConfigMapKey(other) ==> ConfigMapRef(namespace, name) == other)
            <==> '/' !in namespace
  {
    if '/' in namespace {
      var i := FirstSlash(namespace);
      var other := ConfigMapRef(namespace[..i], namespace[i + 1..] + "/" + "x");
      assert namespace == namespace[..i] + "/" + namespace[i + 1..];
      assert ConfigMapKey(ConfigMapRef(namespace, "x")) == ConfigMapKey(other);
      assert ConfigMapRef(namespace, "x") != other;
    } else {
      forall name: string, other: ConfigMapRef
        | '/' !in other.namespace && ConfigMapKey(ConfigMapRef(namespace, name)) == ConfigMapKey(other)
        ensures ConfigMapRef(namespace, name) == other
      {
        KeysTellApart(ConfigMapRef(namespace, name), other);
      }
    }
  }

  function FirstSlash(s: string): (i: nat)
    requires '/' in s
    ensures i < |s| && s[i] == '/' && '/' !in s[..i]
  {
    if s[0] == '/' then 0 else
      assert s == [s[0]] + s[1..];
      assert s[..FirstSlash(s[1..]) + 1] == [s[0]] + s[1..][..FirstSlash(s[1..])];
      FirstSlash(s[1..]) + 1
  }
}
