/**
 The import secret as a cache of the bootstrap kubeconfig and its token: what is
 reused, what is rebuilt, and which timestamps go with it.
 */
module BootstrapCache {
  import opened Common
  import opened Certificates
  import opened BootstrapConfig
  import opened ManifestStream
  import opened Tokens

  datatype ImportSecret = ImportSecret(importYaml: Option<string>, creation: Stamp, expiration: Stamp)

  /** A decoded manifest: a secret with its `kubeconfig` entry, or anything else. */
  datatype Doc = SecretDoc(name: string, kubeconfig: Bytes) | OtherDoc

  const BootstrapSecretName := "bootstrap-hub-kubeconfig"

  predicate IsBootstrapSecret(d: Doc) {
    d.SecretDoc? && d.name == BootstrapSecretName
  }

  datatype Built = Built(kubeconfig: Bytes, creation: Stamp, expiration: Stamp)

  /** Everything one reconcile reads. `issued` is the answer to a token request. */
  datatype Reads = Reads(
    required: Result<Required>,
    secrets: Result<seq<TokenSecret>>,
    issued: Result<Credential>,
    saName: string,
    now: int)

  // ---- the specification ----

  /** The kubeconfig of the first bootstrap secret among the manifests. */
  function FindKubeconfig(docs: seq<string>, read: string -> Doc): (r: Bytes)
  {
    if docs == [] then []
    else if IsBootstrapSecret(read(docs[0])) then read(docs[0]).kubeconfig
    else FindKubeconfig(docs[1..], read)
  }

  function StoredKubeconfig(secret: Option<ImportSecret>, read: string -> Doc): (r: Bytes)
  {
    if secret.None? || secret.value.importYaml.None? then []
    else FindKubeconfig(SplitYamls(secret.value.importYaml.value), read)
  }

  predicate Reusable(c: Credential, x: Reads) {
    && InDate(c, x.now)
    && (c.expiration.Absent? ==> x.secrets.Ok? && LegacyValid(x.secrets.value, x.saName, c.token, x.now))
  }

  /** The stored kubeconfig, read back. */
  function StoredConfig(codec: Codec, secret: Option<ImportSecret>, read: string -> Doc): (r: Result<Parsed>)
  {
    var data := StoredKubeconfig(secret, read);
    if data == [] then Err else ParseKubeConfigData(codec, data)
  }

  /** The token with its timestamps that the result must carry. */
  function Chosen(codec: Codec, secret: Option<ImportSecret>, read: string -> Doc, x: Reads): (r: Result<Credential>)
  {
    var stored := StoredConfig(codec, secret, read);
    if stored.Ok? && Reusable(Credential(stored.value.token, secret.value.creation, secret.value.expiration), x)
    then Ok(Credential(stored.value.token, secret.value.creation, secret.value.expiration))
    else NewCredential(x.secrets, x.saName, x.now, x.issued)
  }

  /** The stored kubeconfig when it already says all this, else a new one. */
  function Build(codec: Codec, secret: Option<ImportSecret>, read: string -> Doc, x: Reads): (r: Result<Built>)
  {
    if x.required.Err? then Err
    else
      match Chosen(codec, secret, read, x)
      case Err => Err
      case Ok(c) =>
        var stored := StoredConfig(codec, secret, read);
        var kept := stored.Ok? && stored.value == Parsed(x.required.value, c.token)
                    && Reusable(Credential(stored.value.token, secret.value.creation, secret.value.expiration), x);
        Ok(Built(if kept then StoredKubeconfig(secret, read) else CreateBootstrapKubeConfig(codec, x.required.value, c.token),
                 c.creation, c.expiration))
  }

  // ---- the code ----

  method ExtractKubeconfig(secret: Option<ImportSecret>, read: string -> Doc) returns (r: Bytes)
    ensures r == StoredKubeconfig(secret, read)
  {
    if secret.None? {
      return [];
    }
    if secret.value.importYaml.None? {
      return [];
    }
    var docs := SplitYamls(secret.value.importYaml.value);
    assert docs[0..] == docs;
    for i := 0 to |docs|
      invariant FindKubeconfig(docs, read) == FindKubeconfig(docs[i..], read)
    {
      assert docs[i..][1..] == docs[i + 1..];
      var obj := read(docs[i]);
      if obj.SecretDoc? {
        if obj.name == BootstrapSecretName {
          return obj.kubeconfig;
        }
      }
    }
    return [];
  }

  method ValidateTokenExpiration(token: string, creation: Stamp, expiration: Stamp, now: int) returns (valid: bool)
    ensures valid <==> InDate(Credential(token, creation, expiration), now)
  {
    if |token| == 0 {
      return false;
    }
    if expiration.Absent? {
      return true;
    }
    if expiration.Garbled? {
      return false;
    }
    var threshold := DefaultThreshold;
    if !creation.Absent? {
      if creation.Garbled? {
        return false;
      }
      threshold := Fifth(Saturated(expiration.ns - creation.ns));
    }
    var lifetime := Saturated(expiration.ns - now);
    return lifetime > threshold;
  }

  method BuildBootstrapKubeconfigData(codec: Codec, found: Result<Option<ImportSecret>>, read: string -> Doc, x: Reads)
    returns (r: Result<Built>)
    requires LawfulCodec(codec)
    ensures found.Err? ==> r.Err?
    ensures found.Ok? ==> r == Build(codec, found.value, read, x)
  {
    if found.Err? {
      return Err;
    }
    var importSecret := found.value;
    if x.required.Err? {
      return Err;
    }
    var need := x.required.value;
    var kubeconfig: Bytes := [];
    var token, creation, expiration := "", Absent, Absent;

    var data := ExtractKubeconfig(importSecret, read);
    if |data| > 0 {
      var parsed := ParseKubeConfigData(codec, data);
      if parsed.Ok? {
        var valid := ValidateTokenExpiration(parsed.value.token, importSecret.value.creation, importSecret.value.expiration, x.now);
        if valid && importSecret.value.expiration.Absent? {
          valid := ValidateLegacyServiceAccountToken(x.secrets, x.saName, parsed.value.token, x.now);
        }
        if valid {
          token, creation, expiration := parsed.value.token, importSecret.value.creation, importSecret.value.expiration;
        }
        if ValidateBootstrapKubeconfig(parsed.value.cluster, need) {
          kubeconfig := data;
        }
      }
    }
    if |token| == 0 {
      var issued := GetBootstrapToken(x.secrets, x.saName, x.now, x.issued);
      if issued.Err? {
        return Err;
      }
      token, creation, expiration := issued.value.token, issued.value.creation, issued.value.expiration;
      kubeconfig := [];
    }
    if |kubeconfig| == 0 {
      kubeconfig := CreateBootstrapKubeConfig(codec, need, token);
    }
    return Ok(Built(kubeconfig, creation, expiration));
  }

  // ---- the theorems ----

  /** The credential a built secret holds. */
  function Held(codec: Codec, b: Built): (r: Credential)
    requires ParseKubeConfigData(codec, b.kubeconfig).Ok?
  {
    Credential(ParseKubeConfigData(codec, b.kubeconfig).value.token, b.creation, b.expiration)
  }

  /**
   The cache refines rebuilding from scratch: whatever was stored, the result
   reads as exactly what is required, like a kubeconfig made afresh around the
   chosen token, and its timestamps are that token's own.
   */
  lemma CacheRefinesRebuild(codec: Codec, secret: Option<ImportSecret>, read: string -> Doc, x: Reads)
    requires LawfulCodec(codec) && Build(codec, secret, read, x).Ok?
    requires x.required.value.ca == "" || x.required.value.caData == []
    ensures var b, need := Build(codec, secret, read, x).value, x.required.value;
            var c := Chosen(codec, secret, read, x).value;
            && ParseKubeConfigData(codec, b.kubeconfig) == Ok(Parsed(need, c.token))
            && ParseKubeConfigData(codec, b.kubeconfig)
               == ParseKubeConfigData(codec, CreateBootstrapKubeConfig(codec, need, c.token))
            && Held(codec, b) == c
  {
    CreatedConfigParses(codec, x.required.value, Chosen(codec, secret, read, x).value.token);
  }

  /** For every klusterlet config and every stored secret, the result says what the config requires; the CA proviso always holds. */
  lemma RequirementsDelivered(
    codec: Codec, secret: Option<ImportSecret>, read: string -> Doc, x: Reads,
    pem: Pem, kc: Option<KlusterletConfig>, selfManaged: bool, hub: HubReads)
    requires LawfulCodec(codec) && x.required == Requirements(pem, kc, selfManaged, hub)
    requires Build(codec, secret, read, x).Ok?
    ensures var need := Requirements(pem, kc, selfManaged, hub).value;
            var c := Chosen(codec, secret, read, x).value;
            && ParseKubeConfigData(codec, Build(codec, secret, read, x).value.kubeconfig) == Ok(Parsed(need, c.token))
            && Held(codec, Build(codec, secret, read, x).value) == c
  {
    CacheRefinesRebuild(codec, secret, read, x);
  }

  /** The secret the controller stores: the printed manifests around the kubeconfig, and the timestamps. */
  function Stored(b: Built, objs: seq<string>, files: seq<string>, kindOf: string -> Kind): (r: ImportSecret)
  {
    ImportSecret(Some(Print(Arranged(objs, kindOf)) + Print(files)), b.creation, b.expiration)
  }

  /** Among the manifests the bootstrap secret occurs, and every occurrence holds `kubeconfig`. */
  predicate Carries(docs: seq<string>, read: string -> Doc, kubeconfig: Bytes) {
    && (exists d | d in docs :: IsBootstrapSecret(read(d)))
    && (forall d | d in docs && IsBootstrapSecret(read(d)) :: read(d).kubeconfig == kubeconfig)
  }

  lemma {:induction false} FindsCarried(docs: seq<string>, read: string -> Doc, kubeconfig: Bytes)
    requires Carries(docs, read, kubeconfig)
    ensures FindKubeconfig(docs, read) == kubeconfig
  {
    assert docs[0] in docs;
    if !IsBootstrapSecret(read(docs[0])) {
      var d :| d in docs && IsBootstrapSecret(read(d));
      assert docs == [docs[0]] + docs[1..];
      assert d in docs[1..];
      FindsCarried(docs[1..], read, kubeconfig);
    }
  }

  /** What was printed into the import secret is what is read out of it. */
  lemma StoredComesBack(b: Built, objs: seq<string>, files: seq<string>, kindOf: string -> Kind, read: string -> Doc)
    requires Readable(Arranged(objs, kindOf) + files)
    requires Carries(Arranged(objs, kindOf) + files, read, b.kubeconfig)
    ensures StoredKubeconfig(Some(Stored(b, objs, files, kindOf)), read) == b.kubeconfig
  {
    StreamRoundTrip(objs, files, kindOf);
    FindsCarried(Arranged(objs, kindOf) + files, read, b.kubeconfig);
  }

  /** A stored kubeconfig that says what is required around a reusable token is returned as it is. */
  lemma ReusesStored(codec: Codec, secret: ImportSecret, read: string -> Doc, y: Reads, token: string)
    requires y.required.Ok? && StoredConfig(codec, Some(secret), read) == Ok(Parsed(y.required.value, token))
    requires Reusable(Credential(token, secret.creation, secret.expiration), y)
    ensures Build(codec, Some(secret), read, y)
            == Ok(Built(StoredKubeconfig(Some(secret), read), secret.creation, secret.expiration))
  {
  }

  lemma BuiltIsNotEmpty(codec: Codec, secret: Option<ImportSecret>, read: string -> Doc, x: Reads)
    requires LawfulCodec(codec) && Build(codec, secret, read, x).Ok?
    ensures Build(codec, secret, read, x).value.kubeconfig != []
  {
  }

  /**
   No churn: store a result, rebuild while the requirements are the same and the
   token is still good, and the identical kubeconfig and timestamps come out.
   */
  lemma RebuildDoesNotChurn(
    codec: Codec, secret: Option<ImportSecret>, read: string -> Doc, x: Reads, y: Reads,
    objs: seq<string>, files: seq<string>, kindOf: string -> Kind)
    requires LawfulCodec(codec) && Build(codec, secret, read, x).Ok?
    requires x.required.value.ca == "" || x.required.value.caData == []
    requires var b := Build(codec, secret, read, x).value;
             && Readable(Arranged(objs, kindOf) + files)
             && Carries(Arranged(objs, kindOf) + files, read, b.kubeconfig)
    requires y.required == x.required
    requires Reusable(Chosen(codec, secret, read, x).value, y)
    ensures var b := Build(codec, secret, read, x).value;
            Build(codec, Some(Stored(b, objs, files, kindOf)), read, y) == Ok(b)
  {
    var b := Build(codec, secret, read, x).value;
    CacheRefinesRebuild(codec, secret, read, x);
    BuiltIsNotEmpty(codec, secret, read, x);
    StoredComesBack(b, objs, files, kindOf, read);
    ReusesStored(codec, Stored(b, objs, files, kindOf), read, y, Chosen(codec, secret, read, x).value.token);
  }

  /**
   Without a bootstrap secret of that one name among the manifests, as with several
   hubs, nothing is ever reused: each rebuild asks for a token again.
   */
  lemma NothingToReuse(codec: Codec, secret: ImportSecret, read: string -> Doc, x: Reads)
    requires secret.importYaml.Some?
    requires forall d | d in SplitYamls(secret.importYaml.value) :: !IsBootstrapSecret(read(d))
    ensures Chosen(codec, Some(secret), read, x) == NewCredential(x.secrets, x.saName, x.now, x.issued)
  {
    FindsNone(SplitYamls(secret.importYaml.value), read);
  }

  lemma {:induction false} FindsNone(docs: seq<string>, read: string -> Doc)
    requires forall d | d in docs :: !IsBootstrapSecret(read(d))
    ensures FindKubeconfig(docs, read) == []
  {
    if docs != [] {
      assert docs[0] in docs && forall d | d in docs[1..] :: d in docs;
      FindsNone(docs[1..], read);
    }
  }

  /** A token refused at one reconcile is refused at every later one, while the secrets stay as they are. */
  lemma RefusedForGood(c: Credential, x: Reads, y: Reads)
    requires !Reusable(c, x) && x.now <= y.now
    requires y.secrets == x.secrets && y.saName == x.saName
    ensures !Reusable(c, y)
  {
    if !InDate(c, x.now) {
      OutOfDateForGood(c, x.now, y.now);
    } else if x.secrets.Ok? {
      LegacyRefusedForGood(x.secrets.value, x.saName, c.token, x.now, y.now);
    }
  }

  // ---- what is reused, told from the stored secret and the listed ones ----

  /** The checks of a reuse: in date, and, without an expiration, held by a secret whose first holder stands. */
  lemma ReusableExactly(c: Credential, x: Reads)
    ensures Reusable(c, x) <==>
            && InDate(c, x.now)
            && (c.expiration == Absent ==> x.secrets.Ok? && FirstHolderStands(x.secrets.value, x.saName, c.token, x.now))
  {
    if c.token != "" && x.secrets.Ok? {
      CheckerAcceptsExactly(x.secrets.value, x.saName, c.token, x.now);
    }
  }

  /** A stored token that passes them comes back with its timestamps; otherwise the result is that of an empty store. */
  lemma ReusedExactly(codec: Codec, secret: ImportSecret, read: string -> Doc, x: Reads)
    requires LawfulCodec(codec) && Build(codec, Some(secret), read, x).Ok?
    requires StoredConfig(codec, Some(secret), read).Ok?
    requires x.required.value.ca == "" || x.required.value.caData == []
    ensures var token := StoredConfig(codec, Some(secret), read).value.token;
            var b := Build(codec, Some(secret), read, x).value;
            if && InDate(Credential(token, secret.creation, secret.expiration), x.now)
               && (secret.expiration == Absent ==>
                     x.secrets.Ok? && FirstHolderStands(x.secrets.value, x.saName, token, x.now))
            then && ParseKubeConfigData(codec, b.kubeconfig) == Ok(Parsed(x.required.value, token))
                 && b.creation == secret.creation && b.expiration == secret.expiration
            else Ok(b) == Build(codec, None, read, x)
  {
    ReusableExactly(Credential(StoredConfig(codec, Some(secret), read).value.token, secret.creation, secret.expiration), x);
    GoodIsReused(codec, secret, read, x);
    RefusedIsRebuilt(codec, secret, read, x);
  }

  lemma GoodIsReused(codec: Codec, secret: ImportSecret, read: string -> Doc, x: Reads)
    requires LawfulCodec(codec) && Build(codec, Some(secret), read, x).Ok?
    requires StoredConfig(codec, Some(secret), read).Ok?
    requires x.required.value.ca == "" || x.required.value.caData == []
    ensures var c := Credential(StoredConfig(codec, Some(secret), read).value.token, secret.creation, secret.expiration);
            var b := Build(codec, Some(secret), read, x).value;
            Reusable(c, x) ==>
              && ParseKubeConfigData(codec, b.kubeconfig) == Ok(Parsed(x.required.value, c.token))
              && b.creation == secret.creation && b.expiration == secret.expiration
  {
    CacheRefinesRebuild(codec, Some(secret), read, x);
  }

  lemma RefusedIsRebuilt(codec: Codec, secret: ImportSecret, read: string -> Doc, x: Reads)
    requires StoredConfig(codec, Some(secret), read).Ok?
    ensures var c := Credential(StoredConfig(codec, Some(secret), read).value.token, secret.creation, secret.expiration);
            !Reusable(c, x) ==> Build(codec, Some(secret), read, x) == Build(codec, None, read, x)
  {
  }

  /** Where a chosen credential without an expiration comes from. */
  lemma ChosenIsHeld(codec: Codec, secret: Option<ImportSecret>, read: string -> Doc, x: Reads)
    requires Chosen(codec, secret, read, x).Ok? && Chosen(codec, secret, read, x).value.expiration == Absent
    requires x.issued.Ok? ==> x.issued.value.expiration != Absent
    ensures var token := Chosen(codec, secret, read, x).value.token;
            && x.secrets.Ok?
            && (FirstHolderStands(x.secrets.value, x.saName, token, x.now)
                || FirstStandingHolds(x.secrets.value, x.saName, token, x.now))
  {
    var c := Chosen(codec, secret, read, x).value;
    if x.secrets.Ok? {
      NewCredentialExactly(x.secrets.value, x.saName, x.now, x.issued);
    }
    ReusableExactly(c, x);
  }

  /**
   When requested tokens expire, a result that does not carries a token of a secret of the
   service account that stands. The first secret with that token stands too, unless two of
   them hold it and the token was issued anew from the later one.
   */
  lemma UnexpiringTokenIsHeld(codec: Codec, secret: Option<ImportSecret>, read: string -> Doc, x: Reads)
    requires LawfulCodec(codec) && Build(codec, secret, read, x).Ok?
    requires x.required.value.ca == "" || x.required.value.caData == []
    requires x.issued.Ok? ==> x.issued.value.expiration != Absent
    requires Build(codec, secret, read, x).value.expiration == Absent
    ensures var token := Held(codec, Build(codec, secret, read, x).value).token;
            && x.secrets.Ok?
            && (exists i | 0 <= i < |x.secrets.value| ::
                  HoldsToken(x.secrets.value[i], x.saName, token) && Standing(x.secrets.value[i], x.now))
            && (FirstHolderStands(x.secrets.value, x.saName, token, x.now)
                || FirstStandingHolds(x.secrets.value, x.saName, token, x.now))
            && ((forall i, j | 0 <= i < j < |x.secrets.value| ::
                   !(HoldsToken(x.secrets.value[i], x.saName, token) && HoldsToken(x.secrets.value[j], x.saName, token)))
                ==> FirstHolderStands(x.secrets.value, x.saName, token, x.now))
  {
    CacheRefinesRebuild(codec, secret, read, x);
    ChosenIsHeld(codec, secret, read, x);
  }

  /** A stored token without an expiration is in the result exactly when such a secret holds it. */
  lemma StoredTokenComesBackExactly(codec: Codec, secret: ImportSecret, read: string -> Doc, x: Reads)
    requires LawfulCodec(codec) && Build(codec, Some(secret), read, x).Ok?
    requires x.required.value.ca == "" || x.required.value.caData == []
    requires StoredConfig(codec, Some(secret), read).Ok? && secret.expiration == Absent
    requires x.issued.Ok? ==> x.issued.value.token != StoredConfig(codec, Some(secret), read).value.token
    ensures var token := StoredConfig(codec, Some(secret), read).value.token;
            ParseKubeConfigData(codec, Build(codec, Some(secret), read, x).value.kubeconfig) == Ok(Parsed(x.required.value, token)) <==>
            && x.secrets.Ok?
            && (FirstHolderStands(x.secrets.value, x.saName, token, x.now)
                || FirstStandingHolds(x.secrets.value, x.saName, token, x.now))
  {
    var token := StoredConfig(codec, Some(secret), read).value.token;
    CacheRefinesRebuild(codec, Some(secret), read, x);
    ReusableExactly(Credential(token, secret.creation, Absent), x);
    if x.secrets.Ok? {
      NewCredentialExactly(x.secrets.value, x.saName, x.now, x.issued);
      if token != "" {
        IssuerTakesExactly(x.secrets.value, x.saName, token, x.now);
      }
    }
  }

  /** Of several bootstrap secrets in the manifests the first one counts. */
  lemma {:induction false} FirstSecretCounts(docs: seq<string>, read: string -> Doc, i: nat)
    requires i < |docs| && read(docs[i]).SecretDoc? && read(docs[i]).name == "bootstrap-hub-kubeconfig"
    requires forall k | 0 <= k < i :: read(docs[k]).SecretDoc? ==> read(docs[k]).name != "bootstrap-hub-kubeconfig"
    ensures FindKubeconfig(docs, read) == read(docs[i]).kubeconfig
  {
    if i > 0 {
      assert forall k | 0 < k < |docs| :: docs[1..][k - 1] == docs[k];
      FirstSecretCounts(docs[1..], read, i - 1);
    }
  }

  // ---- freshness over runs ----

  /** One attempt to reconcile: what it read and which manifests it rendered around the kubeconfig. */
  datatype Attempt = Attempt(input: Reads, objs: seq<string>, files: seq<string>)

  /** The import secret after the first `n` attempts, from any `initial` one; a failed attempt leaves it alone. */
  function SecretAfter(codec: Codec, initial: Option<ImportSecret>, run: seq<Attempt>, read: string -> Doc, kindOf: string -> Kind, n: nat): (r: Option<ImportSecret>)
    requires n <= |run|
  {
    if n == 0 then initial
    else
      var before := SecretAfter(codec, initial, run, read, kindOf, n - 1);
      var a := run[n - 1];
      match Build(codec, before, read, a.input)
      case Err => before
      case Ok(b) => Some(Stored(b, a.objs, a.files, kindOf))
  }

  /** The server issues tokens that are good when they are issued. */
  predicate IssuesGoodTokens(run: seq<Attempt>) {
    forall i | 0 <= i < |run| && run[i].input.issued.Ok? :: InDate(run[i].input.issued.value, run[i].input.now)
  }

  /** The last attempt among the first `n` that succeeded, None if none did. */
  function LastSuccess(codec: Codec, initial: Option<ImportSecret>, run: seq<Attempt>, read: string -> Doc, kindOf: string -> Kind, n: nat): (r: Option<nat>)
    requires n <= |run|
    ensures r.Some? ==> r.value < n
  {
    if n == 0 then None
    else if Build(codec, SecretAfter(codec, initial, run, read, kindOf, n - 1), read, run[n - 1].input).Ok? then Some(n - 1)
    else LastSuccess(codec, initial, run, read, kindOf, n - 1)
  }

  lemma ChosenIsGood(codec: Codec, secret: Option<ImportSecret>, read: string -> Doc, x: Reads)
    requires Chosen(codec, secret, read, x).Ok?
    requires x.issued.Ok? ==> InDate(x.issued.value, x.now)
    ensures var c := Chosen(codec, secret, read, x).value; InDate(c, x.now)
  {
    if x.secrets.Ok? && LegacyToken(x.secrets.value, x.saName, x.now).Some? {
      var j := IssuedFrom(x.secrets.value, x.saName, x.now);
      assert x.secrets.value[j].token.value != "";
    }
  }

  lemma {:induction false} StoredIsLastBuilt(codec: Codec, initial: Option<ImportSecret>, run: seq<Attempt>, read: string -> Doc, kindOf: string -> Kind, n: nat)
    requires n <= |run|
    ensures var j := LastSuccess(codec, initial, run, read, kindOf, n);
            match j
            case None => SecretAfter(codec, initial, run, read, kindOf, n) == initial
            case Some(i) =>
              var b := Build(codec, SecretAfter(codec, initial, run, read, kindOf, i), read, run[i].input);
              b.Ok? && SecretAfter(codec, initial, run, read, kindOf, n) == Some(Stored(b.value, run[i].objs, run[i].files, kindOf))
  {
    if n > 0 && Build(codec, SecretAfter(codec, initial, run, read, kindOf, n - 1), read, run[n - 1].input).Err? {
      StoredIsLastBuilt(codec, initial, run, read, kindOf, n - 1);
    }
  }

  /**
   In every run, a stored expiring token with a recorded creation time is not
   expired at any instant up to a fifth of its lifetime after the last successful
   reconcile; so while successes come at most that far apart it never is.
   */
  lemma StoredTokenNeverExpires(
    codec: Codec, initial: Option<ImportSecret>, run: seq<Attempt>, read: string -> Doc, kindOf: string -> Kind, n: nat, t: int)
    requires n <= |run| && IssuesGoodTokens(run)
    requires var s := SecretAfter(codec, initial, run, read, kindOf, n);
             && s.Some? && s.value.expiration.At? && s.value.creation.At?
             && LastSuccess(codec, initial, run, read, kindOf, n).Some?
             && t <= run[LastSuccess(codec, initial, run, read, kindOf, n).value].input.now
                     + Threshold(s.value.creation, s.value.expiration.ns)
    ensures t < SecretAfter(codec, initial, run, read, kindOf, n).value.expiration.ns
  {
    var i := LastSuccess(codec, initial, run, read, kindOf, n).value;
    StoredIsLastBuilt(codec, initial, run, read, kindOf, n);
    var before := SecretAfter(codec, initial, run, read, kindOf, i);
    ChosenIsGood(codec, before, read, run[i].input);
    InDateLasts(Chosen(codec, before, read, run[i].input).value, run[i].input.now, t);
  }
}
