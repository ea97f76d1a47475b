/**
 The import condition of a managed cluster and the controllers that write it:
 auto-import, cluster deployment, self-managed and import status. A reconcile is
 one atomic step here; `Input` is everything it reads or is told by other parts.
 */
module ImportCondition {
  import opened Common

  datatype Reason = WaitForImporting | Importing | ImportFailed | Imported

  /** `applied` marks the message that the importing resources are applied. */
  datatype Cond = Cond(succeeded: bool, reason: Reason, applied: bool)

  /** The immediate-import annotation; only the empty value is a request. */
  datatype Immediate = NoRequest | Requested | Completed

  /** A managed cluster. `version` counts its writes, as resource versions do. */
  datatype View = View(
    cond: Option<Cond>, urls: seq<string>, hosted: bool, deleting: bool, disabled: bool,
    immediate: Immediate, selfManaged: bool, version: nat)

  datatype SecretType = Opaque | KubeConfigType | KubeTokenType | RosaType | OtherType

  /** The auto-import secret. `kubeconfig` is the server its current context names, if it loads. */
  datatype AutoSecret = AutoSecret(
    kind: SecretType, kubeconfig: Option<Result<string>>, server: Option<string>, hasToken: bool, keep: bool)

  /** The hive deployment of the cluster. `adminSecret`: its admin kubeconfig secret exists. */
  datatype Deployment =
    | NoDeployment
    | Deployment(deleting: bool, installed: bool, unclaimed: bool, metadata: bool, adminSecret: bool)
  {
    /** The cluster deployment controller imports from it. */
    predicate Imports() {
      Deployment? && !deleting && installed && !unclaimed && metadata && adminSecret
    }
  }

  /** `getter`: the controller holds a ROSA getter for the cluster. `applies` counts applications to the spoke. */
  datatype State = State(cluster: Option<View>, secret: Option<AutoSecret>, deployment: Deployment, getter: bool, applies: nat)

  datatype Strategy = ImportOnly | ImportAndSync

  datatype ApplyError = InternalError | OtherError

  datatype Input = Input(
    strategy: Result<Strategy>,
    works: Result<nat>,           // klusterlet works listed
    client: bool,                 // a client for the spoke can be made
    importSecret: Result<bool>,   // found, missing, or an error
    modified: bool, applyError: Option<ApplyError>,
    available: Result<bool>,      // the klusterlet work is available
    hiveRead: bool, viaWrite: bool,
    condWrite: bool, annotationWrite: bool, cleanup: bool, urlWrite: bool, secretDelete: bool)

  // ---- one import ----

  /** What an import returns: the condition to write, whether it changed or touched the spoke. */
  datatype Outcome = Outcome(cond: Cond, modified: bool, touched: bool)

  function Import(cond: Option<Cond>, x: Input): (r: Outcome)
    ensures !r.cond.succeeded
    ensures r.cond.applied <==> r.touched && x.applyError.None?
  {
    var waiting := Cond(false, Importing, false);
    var failed := Cond(false, ImportFailed, false);
    if cond.None? || cond.value.reason.WaitForImporting? then Outcome(waiting, false, false)
    else if x.works.Err? || x.works.value == 0 then Outcome(waiting, false, false)
    else if !x.client then Outcome(failed, false, false)
    else if x.importSecret == Ok(false) then Outcome(waiting, false, false)
    else if x.importSecret.Err? then Outcome(failed, false, false)
    else
      match x.applyError
      case Some(InternalError) => Outcome(waiting, x.modified, true)
      case Some(OtherError) => Outcome(failed, x.modified, true)
      case None => Outcome(Cond(false, Importing, true), x.modified, true)
  }

  /** The cluster after a condition write; a write of the same condition is none. */
  function WithCond(v: View, c: Cond, ok: bool): (r: View)
  {
    if v.cond == Some(c) || !ok then v else v.(cond := Some(c), version := v.version + 1)
  }

  predicate CondFails(v: View, c: Cond, ok: bool) {
    v.cond != Some(c) && !ok
  }

  /** Resources applied but unmodified leave the condition alone. */
  predicate WritesCond(o: Outcome) {
    !o.cond.applied || o.modified
  }

  /** An import and its condition write. */
  function AfterImport(s: State, v: View, x: Input): (r: State)
  {
    var o := Import(v.cond, x);
    var s1 := if o.touched then s.(applies := s.applies + 1) else s;
    if WritesCond(o) then s1.(cluster := Some(WithCond(v, o.cond, x.condWrite))) else s1
  }

  /** The strategy guard: a succeeded import is final unless an import is requested. */
  predicate Guarded(v: View, x: Input) {
    x.strategy.Err? || (v.immediate != Requested && x.strategy.value.ImportOnly? && v.cond.Some? && v.cond.value.succeeded)
  }

  // ---- the server URL ----

  predicate Listed(urls: seq<string>, u: string) {
    exists i | 0 <= i < |urls| :: Trim(urls[i]) == Trim(u)
  }

  function AddURL(urls: seq<string>, u: string): (r: seq<string>)
  {
    if Listed(urls, u) then urls else urls + [Trim(u)]
  }

  function ServerURL(secret: AutoSecret): (r: Result<string>)
  {
    match secret.kind
    case Opaque =>
      if secret.kubeconfig.Some? then secret.kubeconfig.value
      else if secret.server.Some? then Ok(secret.server.value) else Err
    case KubeConfigType => if secret.kubeconfig.Some? then secret.kubeconfig.value else Err
    case KubeTokenType => if secret.server.Some? then Ok(secret.server.value) else Err
    case RosaType => Ok("")
    case OtherType => Err
  }

  /** A client generator can be chosen for the secret. */
  predicate Usable(secret: AutoSecret) {
    match secret.kind
    case Opaque => secret.kubeconfig.Some? || (secret.hasToken && secret.server.Some?)
    case OtherType => false
    case _ => true
  }

  // ---- the reconciles ----

  /** After the resources are applied: ROSA cleanup, the URL, then the secret. `read` is the cluster as first read. */
  function Finish(s: State, read: View, v: View, secret: AutoSecret, x: Input): (r: State)
  {
    if s.getter && !x.cleanup then s
    else
      var s1 := s.(getter := false);
      var url := ServerURL(secret);
      if url.Err? then s1
      else if url.value != "" && !Listed(read.urls, url.value) && (v.version != read.version || !x.urlWrite) then s1
      else
        var v1 := if url.value == "" || Listed(read.urls, url.value) then v
                  else v.(urls := AddURL(read.urls, url.value), version := v.version + 1);
        var s2 := s1.(cluster := Some(v1));
        if secret.keep || !x.secretDelete then s2 else s2.(secret := None)
  }

  function AutoImport(s: State, x: Input): (r: State)
  {
    if s.cluster.None? then s
    else
      var v := s.cluster.value;
      if v.hosted || v.deleting || v.disabled || Guarded(v, x) || s.secret.None? then s
      else
        var secret := s.secret.value;
        if !Usable(secret) then s.(cluster := Some(WithCond(v, Cond(false, ImportFailed, false), x.condWrite)))
        else
          var o := Import(v.cond, x);
          var s1 := AfterImport(s.(getter := s.getter || secret.kind.RosaType?), v, x);
          if (WritesCond(o) && CondFails(v, o.cond, x.condWrite)) || !o.cond.applied then s1
          else Finish(s1, v, s1.cluster.value, secret, x)
  }

  function SelfManaged(s: State, x: Input): (r: State)
  {
    if s.cluster.None? then s
    else
      var v := s.cluster.value;
      if v.deleting || !v.selfManaged || s.secret.Some? || v.disabled || Guarded(v, x) then s else AfterImport(s, v, x)
  }

  function ClusterDeployment(s: State, x: Input): (r: State)
  {
    if s.deployment.NoDeployment? || s.deployment.deleting || s.cluster.None? then s
    else
      var v := s.cluster.value;
      if v.deleting || v.disabled || Guarded(v, x) || !x.viaWrite || s.secret.Some?
         || !s.deployment.Imports() || !x.hiveRead then s
      else AfterImport(s, v, x)
  }

  function ImportStatus(s: State, x: Input): (r: State)
  {
    if s.cluster.None? then s
    else
      var v := s.cluster.value;
      if v.hosted || v.deleting then s
      else if v.cond.None? then s.(cluster := Some(WithCond(v, Cond(false, WaitForImporting, false), x.condWrite)))
      else if x.available != Ok(true) then s
      else if v.immediate.Requested? && !x.annotationWrite then s
      else
        var v1 := if v.immediate.Requested? then v.(immediate := Completed, version := v.version + 1) else v;
        s.(cluster := Some(WithCond(v1, Cond(true, Imported, false), x.condWrite)))
  }

  // ---- the controllers, step by step ----

  /** The hub state all four controllers share. */
  class ImportHub {
    var s: State

    constructor (start: State)
      ensures s == start
    {
      s := start;
    }

    method UpdateCondition(c: Cond, ok: bool) returns (err: bool)
      requires s.cluster.Some?
      modifies this
      ensures s == old(s).(cluster := Some(WithCond(old(s).cluster.value, c, ok)))
      ensures err <==> CondFails(old(s).cluster.value, c, ok)
    {
      var v := s.cluster.value;
      if v.cond == Some(c) {
        return false;
      }
      if !ok {
        return true;
      }
      s := s.(cluster := Some(v.(cond := Some(c), version := v.version + 1)));
      return false;
    }

    /** Import, then write the condition unless the resources were applied without a change. */
    method ImportAndReport(x: Input) returns (o: Outcome, err: bool)
      requires s.cluster.Some?
      modifies this
      ensures o == Import(old(s).cluster.value.cond, x)
      ensures s == AfterImport(old(s), old(s).cluster.value, x)
      ensures err <==> WritesCond(o) && CondFails(old(s).cluster.value, o.cond, x.condWrite)
    {
      o := Import(s.cluster.value.cond, x);
      if o.touched {
        s := s.(applies := s.applies + 1);
      }
      err := false;
      if !o.cond.applied || o.modified {
        err := UpdateCondition(o.cond, x.condWrite);
      }
    }

    /** The scan of the client configs and the append; false when the write fails. */
    method UpdateClusterURL(read: View, secret: AutoSecret, x: Input) returns (ok: bool)
      requires s.cluster.Some?
      modifies this
      ensures var url := ServerURL(secret);
              var known := url.Ok? && (url.value == "" || Listed(read.urls, url.value));
              var conflict := old(s).cluster.value.version != read.version || !x.urlWrite;
              && (ok <==> known || (url.Ok? && !conflict))
              && s == if known || !ok then old(s)
                      else old(s).(cluster := Some(old(s).cluster.value.(urls := AddURL(read.urls, url.value),
                                                                         version := old(s).cluster.value.version + 1)))
    {
      var url := ServerURL(secret);
      if url.Err? {
        return false;
      }
      if url.value == "" {
        return true;
      }
      var trimmed := Trim(url.value);
      for i := 0 to |read.urls|
        invariant forall j | 0 <= j < i :: Trim(read.urls[j]) != trimmed
      {
        if Trim(read.urls[i]) == trimmed {
          return true;
        }
      }
      var v := s.cluster.value;
      if v.version != read.version || !x.urlWrite {
        return false;
      }
      s := s.(cluster := Some(v.(urls := read.urls + [trimmed], version := v.version + 1)));
      return true;
    }

    method ReconcileAutoImport(x: Input)
      modifies this
      ensures s == AutoImport(old(s), x)
    {
      if s.cluster.None? {
        return;
      }
      var v := s.cluster.value;
      if v.hosted || v.deleting || v.disabled {
        return;
      }
      if x.strategy.Err? {
        return;
      }
      var succeeded := v.cond.Some? && v.cond.value.succeeded;
      if !v.immediate.Requested? && x.strategy.value.ImportOnly? && succeeded {
        return;
      }
      if s.secret.None? {
        return;
      }
      var secret := s.secret.value;
      if !Usable(secret) {
        var _ := UpdateCondition(Cond(false, ImportFailed, false), x.condWrite);
        return;
      }
      if secret.kind.RosaType? {
        s := s.(getter := true);
      }
      var o, err := ImportAndReport(x);
      if err || !o.cond.applied {
        return;
      }
      FinishImport(v, secret, x);
    }

    method FinishImport(read: View, secret: AutoSecret, x: Input)
      requires s.cluster.Some?
      modifies this
      ensures s == Finish(old(s), read, old(s).cluster.value, secret, x)
    {
      if s.getter {
        if !x.cleanup {
          return;
        }
        s := s.(getter := false);
      }
      var ok := UpdateClusterURL(read, secret, x);
      if !ok {
        return;
      }
      if !secret.keep && x.secretDelete {
        s := s.(secret := None);
      }
    }

    method ReconcileSelfManaged(x: Input)
      modifies this
      ensures s == SelfManaged(old(s), x)
    {
      if s.cluster.None? || s.cluster.value.deleting || !s.cluster.value.selfManaged || s.secret.Some? || s.cluster.value.disabled {
        return;
      }
      if Guarded(s.cluster.value, x) {
        return;
      }
      var _, _ := ImportAndReport(x);
    }

    method ReconcileClusterDeployment(x: Input)
      modifies this
      ensures s == ClusterDeployment(old(s), x)
    {
      if s.deployment.NoDeployment? || s.deployment.deleting || s.cluster.None? {
        return;
      }
      if s.cluster.value.deleting || s.cluster.value.disabled || Guarded(s.cluster.value, x) {
        return;
      }
      if !s.deployment.installed || s.deployment.unclaimed || !x.viaWrite {
        return;
      }
      if s.secret.Some? || !s.deployment.metadata || !s.deployment.adminSecret || !x.hiveRead {
        return;
      }
      var _, _ := ImportAndReport(x);
    }

    method ReconcileImportStatus(x: Input)
      modifies this
      ensures s == ImportStatus(old(s), x)
    {
      if s.cluster.None? || s.cluster.value.hosted || s.cluster.value.deleting {
        return;
      }
      if s.cluster.value.cond.None? {
        var _ := UpdateCondition(Cond(false, WaitForImporting, false), x.condWrite);
        return;
      }
      if x.available.Err? || !x.available.value {
        return;
      }
      if s.cluster.value.immediate.Requested? {
        if !x.annotationWrite {
          return;
        }
        var v := s.cluster.value;
        s := s.(cluster := Some(v.(immediate := Completed, version := v.version + 1)));
      }
      var _ := UpdateCondition(Cond(true, Imported, false), x.condWrite);
    }
  }
}
