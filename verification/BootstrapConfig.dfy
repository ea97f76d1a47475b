/** What the bootstrap kubeconfig of a cluster must say, and how it is written and read. */
module BootstrapConfig {
  import opened Common
  import opened Certificates

  // ---- kubeconfigs ----

  datatype Stanza = Stanza(server: string, proxy: string, ca: string, caData: Bytes)

  /** A client config: cluster stanzas, user tokens, and the cluster each context points to. */
  datatype KubeConfig = KubeConfig(
    clusters: map<string, Stanza>, users: map<string, string>, contexts: map<string, string>, current: string)

  datatype Codec = Codec(encode: KubeConfig -> Bytes, decode: Bytes -> Result<KubeConfig>)

  ghost predicate LawfulCodec(codec: Codec) {
    forall k :: codec.encode(k) != [] && codec.decode(codec.encode(k)) == Ok(k)
  }

  datatype Required = Required(server: string, proxy: string, ca: string, caData: Bytes, clusterName: string)

  /** What ParseKubeConfigData reads out of a kubeconfig. */
  datatype Parsed = Parsed(cluster: Required, token: string)

  function ParseKubeConfigData(codec: Codec, data: Bytes): (r: Result<Parsed>)
  {
    match codec.decode(data)
    case Err => Err
    case Ok(k) =>
      if k.current !in k.contexts then Err
      else
        var name := k.contexts[k.current];
        var token := if "default-auth" in k.users then k.users["default-auth"] else "";
        if name in k.clusters then
          var s := k.clusters[name];
          Ok(Parsed(Required(s.server, s.proxy, s.ca, s.caData, name), token))
        else
          Ok(Parsed(Required("", "", "", [], ""), token))
  }

  /** A CA file and CA data cannot both be set: the data win. */
  function CreateBootstrapKubeConfig(codec: Codec, need: Required, token: string): (r: Bytes)
  {
    var ca := if need.caData != [] then "" else need.ca;
    codec.encode(KubeConfig(
      map[need.clusterName := Stanza(need.server, need.proxy, ca, need.caData)],
      map["default-auth" := token],
      map["default-context" := need.clusterName],
      "default-context"))
  }

  /** A fresh kubeconfig says what was required exactly when no CA file is required beside CA data. */
  lemma CreatedConfigParses(codec: Codec, need: Required, token: string)
    requires LawfulCodec(codec)
    ensures ParseKubeConfigData(codec, CreateBootstrapKubeConfig(codec, need, token)) == Ok(Parsed(need, token))
            <==> need.ca == "" || need.caData == []
  {
    var ca := if need.caData != [] then "" else need.ca;
    var k := KubeConfig(
      map[need.clusterName := Stanza(need.server, need.proxy, ca, need.caData)],
      map["default-auth" := token],
      map["default-context" := need.clusterName],
      "default-context");
    assert codec.decode(codec.encode(k)) == Ok(k);
    assert ParseKubeConfigData(codec, codec.encode(k)) == Ok(Parsed(need.(ca := ca), token));
  }

  /** The comparison of ValidateBootstrapKubeconfig, field by field. */
  predicate ValidateBootstrapKubeconfig(found: Required, need: Required)
    ensures ValidateBootstrapKubeconfig(found, need) <==> found == need
  {
    if found.server != need.server then false
    else if found.ca != need.ca then false
    else if found.caData != need.caData then false
    else if found.proxy != need.proxy then false
    else found.clusterName == need.clusterName
  }

  // ---- what a klusterlet config requires ----

  datatype Strategy = Unset | SystemTruststore | AutoDetected | CustomBundles | OtherStrategy

  /** `bundles` holds what reading each trusted CA configmap returned. */
  datatype ApiServerConfig = ApiServerConfig(url: string, proxyURL: string, strategy: Strategy, bundles: seq<Result<Bytes>>)

  datatype KlusterletConfig = KlusterletConfig(
    apiServer: Option<ApiServerConfig>,
    serverURL: string, caBundle: Bytes,
    httpProxy: string, httpsProxy: string, proxyCA: Bytes)

  /** Lookups on the hub: the server address, the detected CA of a server and the cluster name. */
  datatype HubReads = HubReads(address: Result<string>, detectedCA: Result<Bytes>, clusterName: Result<string>)

  const InternalEndpoint := "https://kubernetes.default.svc:443"
  const InternalEndpointCA := "/var/run/secrets/kubernetes.io/serviceaccount/ca.crt"

  predicate HasCustomServerURLOrStrategy(kc: Option<KlusterletConfig>) {
    kc.Some? &&
    match kc.value.apiServer
    case Some(a) => a.url != "" || (a.strategy != Unset && a.strategy != AutoDetected)
    case None => kc.value.serverURL != "" || kc.value.caBundle != []
  }

  function ProxySettings(kc: Option<KlusterletConfig>): (r: (string, Bytes))
  {
    if kc.None? then ("", [])
    else
      match kc.value.apiServer
      case Some(a) =>
        if a.proxyURL == "" then ("", [])
        else if a.proxyURL == kc.value.httpsProxy then (a.proxyURL, kc.value.proxyCA)
        else (a.proxyURL, [])
      case None =>
        if kc.value.httpsProxy != "" then (kc.value.httpsProxy, kc.value.proxyCA) else (kc.value.httpProxy, [])
  }

  function Address(kc: Option<KlusterletConfig>, hub: HubReads): (r: Result<string>)
  {
    if kc.Some? && kc.value.apiServer.Some? && kc.value.apiServer.value.url != "" then Ok(kc.value.apiServer.value.url)
    else if kc.Some? && kc.value.apiServer.None? && kc.value.serverURL != "" then Ok(kc.value.serverURL)
    else hub.address
  }

  /** The merge of the fetched bundles, or an error if a fetch failed. */
  function CustomCA(pem: Pem, fetched: seq<Result<Bytes>>): (r: Result<Bytes>)
  {
    if exists i | 0 <= i < |fetched| :: fetched[i].Err? then Err
    else Merge(pem, seq(|fetched|, i requires 0 <= i < |fetched| && fetched[i].Ok? => fetched[i].value))
  }

  function ServerCA(pem: Pem, kc: Option<KlusterletConfig>, hub: HubReads): (r: Result<Bytes>)
  {
    if kc.Some? && kc.value.apiServer.Some? then
      var a := kc.value.apiServer.value;
      match a.strategy
      case SystemTruststore => Ok([])
      case OtherStrategy => Err
      case CustomBundles => CustomCA(pem, a.bundles)
      case _ =>
        var custom := CustomCA(pem, a.bundles);
        if hub.detectedCA.Err? || custom.Err? then Err else Merge(pem, [hub.detectedCA.value, custom.value])
    else if kc.Some? && kc.value.caBundle != [] then Ok(kc.value.caBundle)
    else hub.detectedCA
  }

  function BootstrapCA(pem: Pem, kc: Option<KlusterletConfig>, hub: HubReads): (r: Result<Bytes>)
  {
    if kc.Some? && kc.value.apiServer.Some? && kc.value.apiServer.value.strategy.SystemTruststore? then Ok([])
    else
      match ServerCA(pem, kc, hub)
      case Err => Err
      case Ok(ca) => Merge(pem, [ca, ProxySettings(kc).1])
  }

  /** GetKubeAPIServerConfig together with the cluster name. */
  function Requirements(pem: Pem, kc: Option<KlusterletConfig>, selfManaged: bool, hub: HubReads): (r: Result<Required>)
    ensures r.Ok? ==> r.value.ca == "" || r.value.caData == []
  {
    if hub.clusterName.Err? then Err
    else if selfManaged && !HasCustomServerURLOrStrategy(kc) then
      Ok(Required(InternalEndpoint, "", InternalEndpointCA, [], hub.clusterName.value))
    else
      var url, ca := Address(kc, hub), BootstrapCA(pem, kc, hub);
      if url.Err? || ca.Err? then Err
      else Ok(Required(url.value, ProxySettings(kc).0, "", ca.value, hub.clusterName.value))
  }

  /** With a lawful encoding the required CA data hold the proxy's CA bundle unless the system store is trusted. */
  lemma ProxyCAIsTrusted(pem: Pem, kc: Option<KlusterletConfig>, hub: HubReads)
    requires Lawful(pem) && BootstrapCA(pem, kc, hub).Ok?
    requires !(kc.Some? && kc.value.apiServer.Some? && kc.value.apiServer.value.strategy.SystemTruststore?)
    ensures HoldsAll(pem, BootstrapCA(pem, kc, hub).value, ProxySettings(kc).1) == Ok(true)
    ensures HoldsAll(pem, BootstrapCA(pem, kc, hub).value, ServerCA(pem, kc, hub).value) == Ok(true)
  {
    var bundles := [ServerCA(pem, kc, hub).value, ProxySettings(kc).1];
    MergeHoldsInputs(pem, bundles, 0);
    MergeHoldsInputs(pem, bundles, 1);
  }

  // ---- the requirements, told from the klusterlet config ----

  /** The config names a server, by its API server section or, without one, by the older field; "" if neither. */
  function CustomURL(kc: Option<KlusterletConfig>): (r: string)
  {
    match kc
    case None => ""
    case Some(k) => if k.apiServer.Some? then k.apiServer.value.url else k.serverURL
  }

  /** The config names a CA: a strategy but auto-detection, or, without that section, the older bundle. */
  predicate CustomTrust(kc: Option<KlusterletConfig>) {
    && kc.Some?
    && match kc.value.apiServer
       case Some(a) => a.strategy in {SystemTruststore, CustomBundles, OtherStrategy}
       case None => kc.value.caBundle != []
  }

  /** The hub's own cluster, whose config names neither, is required to use the internal endpoint. */
  predicate Internal(kc: Option<KlusterletConfig>, selfManaged: bool) {
    selfManaged && CustomURL(kc) == "" && !CustomTrust(kc)
  }

  /**
   The required server is the custom one, else the hub's own address; the proxy is the
   API server section's, or without one the HTTPS proxy before the HTTP proxy. Only the
   internal endpoint comes with a CA file, and then with no proxy.
   */
  lemma RequiredServer(pem: Pem, kc: Option<KlusterletConfig>, selfManaged: bool, hub: HubReads)
    requires Requirements(pem, kc, selfManaged, hub).Ok?
    ensures var need := Requirements(pem, kc, selfManaged, hub).value;
            && Ok(need.clusterName) == hub.clusterName
            && if Internal(kc, selfManaged) then
                 && need.server == "https://kubernetes.default.svc:443" && need.proxy == "" && need.caData == []
                 && need.ca == "/var/run/secrets/kubernetes.io/serviceaccount/ca.crt"
               else
                 && need.ca == ""
                 && (CustomURL(kc) != "" ==> need.server == CustomURL(kc))
                 && (CustomURL(kc) == "" ==> Ok(need.server) == hub.address)
                 && need.proxy == match kc
                                  case None => ""
                                  case Some(k) =>
                                    if k.apiServer.Some? then k.apiServer.value.proxyURL
                                    else if k.httpsProxy != "" then k.httpsProxy else k.httpProxy
  {
  }

  /** What was read of the custom bundles, if no reading failed. */
  function Contents(fetched: seq<Result<Bytes>>): (r: seq<Bytes>)
    requires forall i | 0 <= i < |fetched| :: fetched[i].Ok?
  {
    seq(|fetched|, i requires 0 <= i < |fetched| && fetched[i].Ok? => fetched[i].value)
  }

  /** The proxy's CA counts only for the proxy it belongs to, the HTTPS one. */
  function TrustedProxyCA(kc: Option<KlusterletConfig>): (r: Bytes)
  {
    match kc
    case None => []
    case Some(k) =>
      if k.httpsProxy != "" && (k.apiServer.None? || k.apiServer.value.proxyURL == k.httpsProxy) then k.proxyCA else []
  }

  /**
   The CA data required of a config with an API server section: nothing for the system
   trust store, else one merge of the detected CA (unless bundles were asked for instead),
   each custom bundle and the proxy's CA, in this order.
   */
  lemma RequiredCA(pem: Pem, kc: Option<KlusterletConfig>, selfManaged: bool, hub: HubReads)
    requires Lawful(pem) && Requirements(pem, kc, selfManaged, hub).Ok? && !Internal(kc, selfManaged)
    requires kc.Some? && kc.value.apiServer.Some?
    ensures var a, ca := kc.value.apiServer.value, Requirements(pem, kc, selfManaged, hub).value.caData;
            match a.strategy
            case SystemTruststore => ca == []
            case OtherStrategy => false
            case CustomBundles =>
              && (forall i | 0 <= i < |a.bundles| :: a.bundles[i].Ok?)
              && Ok(ca) == Merge(pem, Contents(a.bundles) + [TrustedProxyCA(kc)])
            case _ =>
              && (forall i | 0 <= i < |a.bundles| :: a.bundles[i].Ok?) && hub.detectedCA.Ok?
              && Ok(ca) == Merge(pem, [hub.detectedCA.value] + Contents(a.bundles) + [TrustedProxyCA(kc)])
  {
    var a, proxy := kc.value.apiServer.value, TrustedProxyCA(kc);
    assert ProxySettings(kc).1 == proxy;
    if !a.strategy.SystemTruststore? {
      MergeInFront(pem, Contents(a.bundles), proxy);
      if !a.strategy.CustomBundles? {
        MergeBehind(pem, hub.detectedCA.value, Contents(a.bundles));
        MergeInFront(pem, [hub.detectedCA.value] + Contents(a.bundles), proxy);
      }
    }
  }

  /** One more bundle for a merge. */
  lemma MergeInFront(pem: Pem, bundles: seq<Bytes>, b: Bytes)
    requires Lawful(pem) && Merge(pem, bundles).Ok?
    ensures Merge(pem, [Merge(pem, bundles).value, b]) == Merge(pem, bundles + [b])
  {
    MergeNests(pem, bundles, [b]);
    assert [Merge(pem, bundles).value] + [b] == [Merge(pem, bundles).value, b];
  }

  lemma MergeBehind(pem: Pem, b: Bytes, bundles: seq<Bytes>)
    requires Lawful(pem) && Merge(pem, bundles).Ok?
    ensures Merge(pem, [b, Merge(pem, bundles).value]) == Merge(pem, [b] + bundles)
  {
    MergeNests(pem, [b], bundles);
    assert [b] + [Merge(pem, bundles).value] == [b, Merge(pem, bundles).value];
  }

  /** Without that section: the older bundle, or else the detected CA, merged with the proxy's CA. */
  lemma RequiredLegacyCA(pem: Pem, kc: Option<KlusterletConfig>, selfManaged: bool, hub: HubReads)
    requires Requirements(pem, kc, selfManaged, hub).Ok? && !Internal(kc, selfManaged)
    requires kc.None? || kc.value.apiServer.None?
    ensures var ca := Requirements(pem, kc, selfManaged, hub).value.caData;
            if CustomTrust(kc) then Ok(ca) == Merge(pem, [kc.value.caBundle, TrustedProxyCA(kc)])
            else hub.detectedCA.Ok? && Ok(ca) == Merge(pem, [hub.detectedCA.value, TrustedProxyCA(kc)])
  {
  }
}
