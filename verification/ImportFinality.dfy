/**
 Whole runs of the four controllers that write the import condition, interleaved
 with users who change the auto-import secret and the annotations.
 */
module ImportFinality {
  import opened Common
  import opened ImportCondition

  datatype Controller = AutoImporter | SelfManager | Deployer | StatusReporter

  datatype Move =
    | Reconcile(actor: Controller, x: Input)
    | User(secret: Option<AutoSecret>, deployment: Deployment, disabled: bool, immediate: Immediate, selfManaged: bool)

  function Next(s: State, m: Move): (r: State)
  {
    match m
    case Reconcile(AutoImporter, x) => AutoImport(s, x)
    case Reconcile(SelfManager, x) => SelfManaged(s, x)
    case Reconcile(Deployer, x) => ClusterDeployment(s, x)
    case Reconcile(StatusReporter, x) => ImportStatus(s, x)
    case User(secret, deployment, disabled, immediate, selfManaged) =>
      if s.cluster.None? then s.(secret := secret, deployment := deployment)
      else
        var v := s.cluster.value;
        s.(secret := secret, deployment := deployment,
           cluster := Some(v.(disabled := disabled, immediate := immediate, selfManaged := selfManaged, version := v.version + 1)))
  }

  // ---- runs ----

  function Fold(next: (State, Move) -> State, s: State, run: seq<Move>): (r: State)
    decreases |run|
  {
    if run == [] then s else Fold(next, next(s, run[0]), run[1..])
  }

  /** The state after a run. */
  function After(s: State, run: seq<Move>): (r: State)
  {
    Fold(Next, s, run)
  }

  /** What every move of a kind keeps holds after every run of such moves. */
  lemma {:induction false} FoldKeeps(next: (State, Move) -> State, s: State, run: seq<Move>, P: State -> bool, ok: Move -> bool)
    requires P(s) && forall i | 0 <= i < |run| :: ok(run[i])
    requires forall t, m :: P(t) && ok(m) ==> P(next(t, m))
    ensures P(Fold(next, s, run))
    decreases |run|
  {
    if run != [] {
      assert forall i | 0 <= i < |run| - 1 :: run[1..][i] == run[i + 1];
      FoldKeeps(next, next(s, run[0]), run[1..], P, ok);
    }
  }

  lemma FoldOne(next: (State, Move) -> State, s: State, run: seq<Move>)
    requires |run| == 1
    ensures Fold(next, s, run) == next(s, run[0])
  {
    assert run[1..] == [];
    assert Fold(next, next(s, run[0]), []) == next(s, run[0]);
  }

  lemma {:induction false} FoldLast(next: (State, Move) -> State, s: State, run: seq<Move>)
    requires run != []
    ensures Fold(next, s, run) == next(Fold(next, s, run[..|run| - 1]), run[|run| - 1])
    decreases |run|
  {
    if |run| == 1 {
      assert run[1..] == [] && run[..0] == [];
    } else {
      FoldLast(next, next(s, run[0]), run[1..]);
      assert run[1..][..|run| - 2] == run[..|run| - 1][1..];
      assert run[..|run| - 1][0] == run[0];
    }
  }

  /** What holds of the number of moves so far, when all moves are the same. */
  lemma {:induction false} FoldCounts(next: (State, Move) -> State, s: State, m: Move, n: nat, P: (nat, State) -> bool)
    requires P(0, s) && forall i: nat, t :: P(i, t) ==> P(i + 1, next(t, m))
    ensures P(n, Fold(next, s, seq(n, _ => m)))
  {
    if n > 0 {
      FoldCounts(next, s, m, n - 1, P);
      FoldLast(next, s, seq(n, _ => m));
      assert seq(n, _ => m)[..n - 1] == seq(n - 1, _ => m);
    }
  }

  predicate Succeeded(s: State) {
    s.cluster.Some? && s.cluster.value.cond.Some? && s.cluster.value.cond.value.succeeded
  }

  /** A cluster outside hosted mode that is not being deleted. */
  predicate Plain(s: State) {
    s.cluster.Some? && !s.cluster.value.hosted && !s.cluster.value.deleting
  }

  // ---- success is final ----

  /** Some controller has the means to import the cluster: a secret, the label or a deployment. */
  predicate HasImporter(s: State) {
    s.secret.Some? || (s.cluster.Some? && s.cluster.value.selfManaged) || s.deployment.Imports()
  }

  /** Nobody imports the cluster, whatever the spoke looks like. */
  predicate Barred(s: State, st: Strategy)
    requires s.cluster.Some?
  {
    var v := s.cluster.value;
    v.disabled || (st.ImportOnly? && v.immediate != Requested) || !HasImporter(s)
  }

  predicate Unrequested(run: seq<Move>) {
    forall i | 0 <= i < |run| :: IsUnrequested(run[i])
  }

  predicate IsUnrequested(m: Move) {
    match m
    case Reconcile(_, x) => x.strategy != Ok(ImportAndSync)
    case User(_, _, _, immediate, _) => immediate != Requested
  }

  lemma FinalStep(s: State, m: Move)
    requires Plain(s) && Succeeded(s) && s.cluster.value.immediate != Requested
    requires IsUnrequested(m)
    ensures var t := Next(s, m);
            && Plain(t) && Succeeded(t) && t.cluster.value.immediate != Requested
            && t.applies == s.applies && t.cluster.value.urls == s.cluster.value.urls
  {
    if m.Reconcile? {
      BarredImportersRest(s, m.x);
      ReportKeepsSuccess(s, m.x);
    }
  }

  /** A barred cluster is left alone by every importing controller. */
  lemma BarredImportersRest(s: State, x: Input)
    requires s.cluster.Some? && (s.cluster.value.disabled || Guarded(s.cluster.value, x) || !HasImporter(s))
    ensures AutoImport(s, x) == s && SelfManaged(s, x) == s && ClusterDeployment(s, x) == s
  {
  }

  lemma ReportKeepsSuccess(s: State, x: Input)
    requires Succeeded(s)
    ensures var t := ImportStatus(s, x);
            && Succeeded(t) && t == s.(cluster := t.cluster)
            && t.cluster.value == s.cluster.value.(cond := t.cluster.value.cond, immediate := t.cluster.value.immediate,
                                                   version := t.cluster.value.version)
            && (t.cluster.value.immediate == s.cluster.value.immediate || t.cluster.value.immediate == Completed)
  {
  }

  /**
   Under ImportOnly, outside hosted mode, without a request and before deletion, a
   succeeded import is final: no run applies anything to the spoke, changes the
   status of the condition or touches the recorded URLs, whatever users do to
   the secret and the annotations meanwhile.
   */
  lemma SuccessIsFinal(s: State, run: seq<Move>)
    requires Plain(s) && Succeeded(s) && s.cluster.value.immediate != Requested
    requires Unrequested(run)
    ensures var t := After(s, run);
            && Plain(t) && Succeeded(t) && t.cluster.value.immediate != Requested
            && t.applies == s.applies && t.cluster.value.urls == s.cluster.value.urls
  {
    var P := (t: State) =>
      && Plain(t) && Succeeded(t) && t.cluster.value.immediate != Requested
      && t.applies == s.applies && t.cluster.value.urls == s.cluster.value.urls;
    forall t, m | P(t) && IsUnrequested(m) ensures P(Next(t, m)) {
      FinalStep(t, m);
    }
    FoldKeeps(Next, s, run, P, IsUnrequested);
  }

  /** A run of the controllers alone, all reading one strategy. */
  predicate Under(run: seq<Move>, st: Strategy) {
    forall i | 0 <= i < |run| :: run[i].Reconcile? && run[i].x.strategy == Ok(st)
  }

  lemma BarredStep(s: State, m: Move, st: Strategy)
    requires Plain(s) && Succeeded(s) && Barred(s, st)
    requires m.Reconcile? && m.x.strategy == Ok(st)
    ensures var t := Next(s, m);
            && Plain(t) && Succeeded(t) && Barred(t, st) && t.applies == s.applies
  {
    BarredImportersRest(s, m.x);
    ReportKeepsSuccess(s, m.x);
  }

  lemma BarredRun(s: State, run: seq<Move>, st: Strategy)
    requires Plain(s) && Succeeded(s) && Barred(s, st) && Under(run, st)
    ensures Succeeded(After(s, run)) && After(s, run).applies == s.applies
  {
    var P := (t: State) => Plain(t) && Succeeded(t) && Barred(t, st) && t.applies == s.applies;
    var ok := (m: Move) => m.Reconcile? && m.x.strategy == Ok(st);
    forall t, m | P(t) && ok(m) ensures P(Next(t, m)) {
      BarredStep(t, m, st);
    }
    FoldKeeps(Next, s, run, P, ok);
  }

  /**
   What a reconcile may meet: the klusterlet works are there and available, no call to
   the hub fails, but applying the resources to the spoke does.
   */
  function ApplyFails(st: Strategy): (x: Input)
  {
    Input(Ok(st), Ok(1), true, Ok(true), false, Some(OtherError), Ok(true), true, true, true, true, true, true, true)
  }

  /** The move that takes back the success of a cluster that is not barred: a failing import. */
  function Undoing(s: State, st: Strategy): (m: Move)
  {
    var actor := if s.secret.Some? then AutoImporter
                 else if s.cluster.Some? && s.cluster.value.selfManaged then SelfManager
                 else Deployer;
    Reconcile(actor, ApplyFails(st))
  }

  /** Nothing about who may import the cluster has changed. */
  predicate SameImporters(s: State, t: State)
    requires s.cluster.Some? && t.cluster.Some?
  {
    && t.secret == s.secret && t.deployment == s.deployment && t.cluster.value.selfManaged == s.cluster.value.selfManaged
    && t.cluster.value.disabled == s.cluster.value.disabled
  }

  lemma UnbarredIsUndone(s: State, st: Strategy)
    requires Plain(s) && Succeeded(s) && !Barred(s, st)
    ensures var t := Next(s, Undoing(s, st));
            && Plain(t) && !Succeeded(t) && t.cluster.value.cond.Some?
            && t.cluster.value.immediate == s.cluster.value.immediate && SameImporters(s, t)
  {
  }

  /**
   Success is final in every run of the controllers exactly when auto-import is
   disabled, or the strategy is ImportOnly and no immediate import is requested, or
   nobody has the means to import the cluster.
   */
  lemma FinalExactlyWhenBarred(s: State, st: Strategy)
    requires Plain(s) && Succeeded(s)
    ensures (forall run | Under(run, st) :: Succeeded(After(s, run)))
            <==> Barred(s, st)
  {
    if Barred(s, st) {
      forall run | Under(run, st) ensures Succeeded(After(s, run)) {
        BarredRun(s, run, st);
      }
    } else {
      UnbarredIsUndone(s, st);
      var run := [Undoing(s, st)];
      assert run[1..] == [];
      assert Under(run, st);
      FoldOne(Next, s, run);
    }
  }

  // ---- the alternation under ImportAndSync ----

  /** A failing import and a status report in turn, `n` moves in all. */
  function Alternating(s: State, n: nat): (run: seq<Move>)
    ensures |run| == n
    decreases n
  {
    if n == 0 then []
    else [Flipping(s)] + Alternating(Next(s, Flipping(s)), n - 1)
  }

  /** The move that changes the status. */
  function Flipping(s: State): (m: Move)
  {
    if Succeeded(s) then Undoing(s, ImportAndSync) else Reconcile(StatusReporter, ApplyFails(ImportAndSync))
  }

  lemma ReportRestores(s: State)
    requires Plain(s) && !Succeeded(s) && s.cluster.value.cond.Some? && s.cluster.value.immediate != Requested
    ensures var t := Next(s, Reconcile(StatusReporter, ApplyFails(ImportAndSync)));
            && Plain(t) && Succeeded(t) && t.cluster.value.immediate != Requested && SameImporters(s, t)
  {
  }

  /**
   Under ImportAndSync, while the works are available on the hub and applying to the spoke
   fails, the status can change at every single move of arbitrarily long runs.
   */
  lemma {:induction false} SyncAlternates(s: State, n: nat)
    requires Flippable(s)
    ensures Under(Alternating(s, n), ImportAndSync)
    ensures Succeeded(After(s, Alternating(s, n))) <==> (Succeeded(s) <==> n % 2 == 0)
    decreases n
  {
    if n > 0 {
      var run := Alternating(s, n);
      var t := Flip(s);
      assert run[0] == Flipping(s) && run[1..] == Alternating(t, n - 1);
      SyncAlternates(t, n - 1);
    }
  }

  /** A cluster whose import can be tried under ImportAndSync. */
  predicate Flippable(s: State) {
    && Plain(s) && s.cluster.value.cond.Some? && !s.cluster.value.disabled && HasImporter(s)
    && s.cluster.value.immediate != Requested
  }

  lemma Flip(s: State) returns (t: State)
    requires Flippable(s)
    ensures t == Next(s, Flipping(s)) && Flippable(t) && (Succeeded(t) <==> !Succeeded(s))
  {
    t := Next(s, Flipping(s));
    if Succeeded(s) {
      UnbarredIsUndone(s, ImportAndSync);
    } else {
      ReportRestores(s);
    }
  }

  // ---- disabled auto-import ----

  predicate StaysDisabled(run: seq<Move>) {
    forall i | 0 <= i < |run| :: run[i].User? ==> run[i].disabled
  }

  predicate UsersKeepSecret(run: seq<Move>) {
    forall i | 0 <= i < |run| :: run[i].Reconcile?
  }

  /**
   While auto-import stays disabled no run touches the spoke, the recorded URLs or
   the ROSA getters, and without users the secret stays; hosted, deleting or not,
   and whatever the strategy.
   */
  lemma DisabledLeavesSpokeAlone(s: State, run: seq<Move>)
    requires s.cluster.Some? && s.cluster.value.disabled && StaysDisabled(run)
    ensures LeftAlone(s, After(s, run))
    ensures UsersKeepSecret(run) ==> After(s, run).secret == s.secret
  {
    var ok := (m: Move) => m.User? ==> m.disabled;
    forall t, m | LeftAlone(s, t) && ok(m) ensures LeftAlone(s, Next(t, m)) {
      DisabledStep(t, m);
    }
    FoldKeeps(Next, s, run, (t: State) => LeftAlone(s, t), ok);
    if UsersKeepSecret(run) {
      var P := (t: State) => LeftAlone(s, t) && t.secret == s.secret;
      forall t, m: Move | P(t) && m.Reconcile? ensures P(Next(t, m)) {
        DisabledStep(t, m);
      }
      FoldKeeps(Next, s, run, P, (m: Move) => m.Reconcile?);
    }
  }

  /** Still disabled, with spoke, URLs and getters as they were. */
  predicate LeftAlone(s: State, t: State)
    requires s.cluster.Some?
  {
    && t.cluster.Some? && t.cluster.value.disabled && t.cluster.value.urls == s.cluster.value.urls
    && t.applies == s.applies && t.getter == s.getter
  }

  lemma DisabledStep(s: State, m: Move)
    requires s.cluster.Some? && s.cluster.value.disabled && (m.User? ==> m.disabled)
    ensures LeftAlone(s, Next(s, m)) && (m.Reconcile? ==> Next(s, m).secret == s.secret)
  {
    if m.Reconcile? {
      BarredImportersRest(s, m.x);
    }
  }

  // ---- the auto-import secret ----

  /** What must hold around the reconcile that deletes the secret. */
  predicate DeservesDeletion(before: State, m: Move, after: State) {
    && m.Reconcile? && m.actor.AutoImporter? && before.secret.Some? && before.cluster.Some? && after.cluster.Some?
    && var secret := before.secret.value;
    && !secret.keep
    && m.x.applyError.None? && after.applies == before.applies + 1
    && (before.getter || secret.kind.RosaType? ==> m.x.cleanup) && !after.getter
    && ServerURL(secret).Ok?
    && (ServerURL(secret).value != "" ==> Recorded(after.cluster.value.urls, ServerURL(secret).value))
  }

  /** Some recorded URL is `u` up to one trailing slash. */
  predicate Recorded(urls: seq<string>, u: string) {
    exists i | 0 <= i < |urls| :: urls[i] == Trim(u) || Trim(urls[i]) == Trim(u)
  }

  lemma AddedIsRecorded(urls: seq<string>, u: string)
    ensures Recorded(AddURL(urls, u), u)
  {
    if Listed(urls, u) {
      var i :| 0 <= i < |urls| && Trim(urls[i]) == Trim(u);
      assert AddURL(urls, u)[i] == urls[i];
    } else {
      assert AddURL(urls, u)[|urls|] == Trim(u);
    }
  }

  lemma FinishDeletes(s: State, before: View, v: View, secret: AutoSecret, x: Input)
    requires s.secret.Some? && s.cluster == Some(v) && v.urls == before.urls
    requires Finish(s, before, v, secret, x).secret.None?
    ensures var t := Finish(s, before, v, secret, x);
            && !secret.keep && (s.getter ==> x.cleanup) && !t.getter && t.applies == s.applies && t.cluster.Some?
            && ServerURL(secret).Ok?
            && (ServerURL(secret).value != "" ==> Recorded(t.cluster.value.urls, ServerURL(secret).value))
  {
    AddedIsRecorded(before.urls, ServerURL(secret).value);
  }

  lemma DeletingStep(s: State, m: Move)
    requires m.Reconcile? && s.secret.Some? && Next(s, m).secret.None?
    ensures DeservesDeletion(s, m, Next(s, m))
  {
    var v, secret := s.cluster.value, s.secret.value;
    var s1 := AfterImport(s.(getter := s.getter || secret.kind.RosaType?), v, m.x);
    FinishDeletes(s1, v, s1.cluster.value, secret, m.x);
  }

  /**
   In every run, a reconcile that deletes the auto-import secret is an auto-import
   whose own apply succeeded, of a secret without the keep annotation, after any
   ROSA cleanup, with the server URL recorded on the cluster.
   */
  lemma SecretDeletedOnlyWhenDone(s: State, run: seq<Move>, i: nat)
    requires i < |run| && run[i].Reconcile?
    requires After(s, run[..i]).secret.Some? && After(s, run[..i + 1]).secret.None?
    ensures DeservesDeletion(After(s, run[..i]), run[i], After(s, run[..i + 1]))
  {
    FoldLast(Next, s, run[..i + 1]);
    assert run[..i + 1][..i] == run[..i];
    DeletingStep(After(s, run[..i]), run[i]);
  }

  // ---- one reconcile, told from the fields of state and input ----

  /** The guards every importing controller has. */
  predicate Admitted(v: View, x: Input) {
    && !v.deleting && !v.disabled && x.strategy.Ok?
    && (v.immediate == Requested || x.strategy.value == ImportAndSync || v.cond.None? || !v.cond.value.succeeded)
  }

  /** An import with this condition before it reaches the spoke. */
  predicate Reaches(cond: Option<Cond>, x: Input) {
    && cond.Some? && cond.value.reason != WaitForImporting
    && x.works.Ok? && x.works.value > 0 && x.client && x.importSecret.Ok? && x.importSecret.value
  }

  /** The secret names a server, or needs none, and suffices for a client. */
  predicate Complete(secret: AutoSecret) {
    match secret.kind
    case Opaque => if secret.kubeconfig.Some? then secret.kubeconfig.value.Ok? else secret.hasToken && secret.server.Some?
    case KubeConfigType => secret.kubeconfig.Some? && secret.kubeconfig.value.Ok?
    case KubeTokenType => secret.server.Some?
    case RosaType => true
    case OtherType => false
  }

  /** The server that the secret names; a ROSA secret names none. */
  function ServerOf(secret: AutoSecret): (r: string)
    requires Complete(secret)
  {
    if secret.kind.RosaType? then ""
    else if secret.kind.KubeTokenType? || secret.kubeconfig.None? then secret.server.value
    else secret.kubeconfig.value.value
  }

  lemma CompleteExactly(secret: AutoSecret)
    ensures Complete(secret) <==> Usable(secret) && ServerURL(secret).Ok?
    ensures Complete(secret) ==> ServerURL(secret).value == ServerOf(secret)
  {
  }

  /** Some recorded URL is the server's up to one trailing slash. */
  predicate Known(v: View, server: string) {
    exists i | 0 <= i < |v.urls| :: Trim(v.urls[i]) == Trim(server)
  }

  /** The apply leaves the condition as it is. */
  predicate CondStays(v: View, x: Input) {
    !x.modified || v.cond == Some(Cond(false, ImportCondition.Importing, true))
  }

  /** Nothing stands between an apply and the end of the import: every write succeeds, and none spoils the URL's. */
  predicate Finishes(v: View, getter: bool, secret: AutoSecret, x: Input) {
    && (CondStays(v, x) || x.condWrite)
    && (getter || secret.kind.RosaType? ==> x.cleanup)
    && Complete(secret)
    && (ServerOf(secret) == "" || Known(v, ServerOf(secret)) || (CondStays(v, x) && x.urlWrite))
  }

  /** The cluster after an apply without error. */
  function Applied(v: View, x: Input): (r: View)
  {
    if x.modified then WithCond(v, Cond(false, ImportCondition.Importing, true), x.condWrite) else v
  }

  /** The outcome of an import: whether it touched the spoke, and what the condition says of it. */
  lemma ImportTells(cond: Option<Cond>, x: Input)
    ensures var o := Import(cond, x);
            && (o.touched <==> Reaches(cond, x))
            && !o.cond.succeeded
            && (o.cond.applied <==> Reaches(cond, x) && x.applyError.None?)
            && (o.modified <==> Reaches(cond, x) && x.modified)
            && o.cond.reason == if && cond.Some? && cond.value.reason != WaitForImporting && x.works.Ok? && x.works.value > 0
                                   && (!x.client || x.importSecret.Err? || (x.importSecret.value && x.applyError == Some(OtherError)))
                                then ImportFailed else ImportCondition.Importing
  {
  }

  lemma FinishDeletesExactly(s: State, v: View, secret: AutoSecret, x: Input)
    requires s.secret.Some? && Usable(secret) && (secret.kind.RosaType? ==> s.getter)
    requires s.cluster == Some(Applied(v, x)) && (CondStays(v, x) || x.condWrite)
    ensures Finish(s, v, Applied(v, x), secret, x).secret.None?
            <==> Finishes(v, s.getter, secret, x) && !secret.keep && x.secretDelete
  {
    CompleteExactly(secret);
    if Complete(secret) {
      assert Known(v, ServerOf(secret)) <==> Listed(v.urls, ServerURL(secret).value);
    }
  }

  /** An auto-import goes on to its end when the apply went through and its condition was written. */
  lemma ImportFinishes(s: State, x: Input)
    requires s.cluster.Some? && s.secret.Some? && !s.cluster.value.hosted && Admitted(s.cluster.value, x)
    ensures var v, secret := s.cluster.value, s.secret.value;
            var t := s.(getter := s.getter || secret.kind.RosaType?, applies := s.applies + 1, cluster := Some(Applied(v, x)));
            if Usable(secret) && Reaches(v.cond, x) && x.applyError.None? && (CondStays(v, x) || x.condWrite)
            then AutoImport(s, x) == Finish(t, v, Applied(v, x), secret, x)
            else AutoImport(s, x).secret == s.secret
  {
  }

  /**
   An auto-import deletes its secret exactly when the guards pass, the apply reaches the
   spoke without an error, cleanup and URL go through, and the secret is not to be kept.
   */
  lemma SecretDeletedExactly(s: State, x: Input)
    requires s.cluster.Some? && s.secret.Some?
    ensures AutoImport(s, x).secret.None? <==>
            var v, secret := s.cluster.value, s.secret.value;
            && !v.hosted && Admitted(v, x)
            && Reaches(v.cond, x) && x.applyError.None?
            && Finishes(v, s.getter, secret, x)
            && !secret.keep && x.secretDelete
  {
    var v, secret := s.cluster.value, s.secret.value;
    CompleteExactly(secret);
    if !v.hosted && Admitted(v, x) {
      ImportFinishes(s, x);
      if Usable(secret) && (CondStays(v, x) || x.condWrite) {
        var t := s.(getter := s.getter || secret.kind.RosaType?, applies := s.applies + 1, cluster := Some(Applied(v, x)));
        FinishDeletesExactly(t, v, secret, x);
      }
    }
  }

  /** A finished import records the server of its secret. */
  lemma FinishedImportRecords(s: State, x: Input)
    requires s.cluster.Some? && s.secret.Some?
    requires AutoImport(s, x).secret.None?
    ensures var t, server := AutoImport(s, x), ServerOf(s.secret.value);
            t.cluster.Some? && !t.getter
            && t.cluster.value.urls == (if server == "" || Known(s.cluster.value, server) then s.cluster.value.urls
                                        else s.cluster.value.urls + [Trim(server)])
  {
  }

  /**
   When each importing controller touches the spoke: the guards pass and the import gets
   that far, and the cluster is the controller's to import: by a secret that suffices for a
   client, by the label without a secret, or by a finished deployment without a secret.
   */
  lemma SpokeTouchedExactly(s: State, x: Input)
    requires s.cluster.Some?
    ensures var v := s.cluster.value;
            var go := Admitted(v, x) && Reaches(v.cond, x);
            && AutoImport(s, x).applies == s.applies + (if go && !v.hosted && HoldsClient(s.secret) then 1 else 0)
            && SelfManaged(s, x).applies == s.applies + (if go && v.selfManaged && s.secret.None? then 1 else 0)
            && ClusterDeployment(s, x).applies ==
               s.applies + (if && go && s.secret.None? && x.viaWrite && x.hiveRead
                               && s.deployment == Deployment(false, true, false, true, true) then 1 else 0)
            && ImportStatus(s, x).applies == s.applies
  {
  }

  /** The secret suffices for a client: a kubeconfig, or a token and its server, or one of the typed secrets. */
  predicate HoldsClient(secret: Option<AutoSecret>) {
    && secret.Some?
    && (secret.value.kind.Opaque? ==> secret.value.kubeconfig.Some? || (secret.value.hasToken && secret.value.server.Some?))
    && !secret.value.kind.OtherType?
  }

  /** When the status controller marks an immediate import completed, and when it reports the import. */
  lemma ReportedExactly(s: State, x: Input)
    requires Plain(s)
    ensures var v, t := s.cluster.value, ImportStatus(s, x);
            var shown := v.cond.Some? && x.available == Ok(true);
            && Plain(t)
            && (Succeeded(t) <==> Succeeded(s) || (shown && (v.immediate == Requested ==> x.annotationWrite) && x.condWrite))
            && t.cluster.value.immediate == (if shown && v.immediate == Requested && x.annotationWrite then Completed else v.immediate)
            && (v.cond.None? && x.condWrite ==> t.cluster.value.cond == Some(Cond(false, WaitForImporting, false)))
  {
  }

  // ---- the recorded URLs ----

  predicate EndsInSlashes(u: string) {
    |u| >= 2 && u[|u| - 2..] == "//"
  }

  lemma TrimTwice(u: string)
    ensures Trim(Trim(u)) == Trim(u) <==> !EndsInSlashes(u)
  {
    if |u| >= 2 {
      assert u[|u| - 2..] == [u[|u| - 2], u[|u| - 1]];
      assert u[..|u| - 1][|u| - 2] == u[|u| - 2];
    }
  }

  function Adds(urls: seq<string>, u: string, n: nat): (r: seq<string>)
  {
    if n == 0 then urls else AddURL(Adds(urls, u, n - 1), u)
  }

  lemma ListedOnceAdded(urls: seq<string>, u: string)
    requires !Listed(urls, u)
    ensures Listed(AddURL(urls, u), u) <==> !EndsInSlashes(u)
  {
    TrimTwice(u);
    var r := AddURL(urls, u);
    assert r[|urls|] == Trim(u);
    assert forall i | 0 <= i < |urls| :: r[i] == urls[i];
  }

  lemma AddedLength(urls: seq<string>, u: string)
    ensures if Listed(urls, u) then AddURL(urls, u) == urls else |AddURL(urls, u)| == |urls| + 1
  {
  }

  /** A first addition; whether it will be recognised depends on the slashes. */
  lemma AddOnce(urls: seq<string>, u: string) returns (next: seq<string>)
    requires !Listed(urls, u)
    ensures next == AddURL(urls, u) && |next| == |urls| + 1
    ensures Listed(next, u) <==> !EndsInSlashes(u)
  {
    next := AddURL(urls, u);
    ListedOnceAdded(urls, u);
  }

  lemma {:induction false} SlashesPileUp(urls: seq<string>, u: string, n: nat)
    requires EndsInSlashes(u) && !Listed(urls, u)
    ensures |Adds(urls, u, n)| == |urls| + n && !Listed(Adds(urls, u, n), u)
  {
    if n > 0 {
      SlashesPileUp(urls, u, n - 1);
      var _ := AddOnce(Adds(urls, u, n - 1), u);
    }
  }

  lemma {:induction false} TidyAddsOnce(urls: seq<string>, u: string, n: nat)
    requires !EndsInSlashes(u) || Listed(urls, u)
    ensures Adds(urls, u, n) == if n == 0 then urls else AddURL(urls, u)
    ensures n > 0 ==> Listed(Adds(urls, u, n), u)
  {
    if n == 1 {
      if !Listed(urls, u) {
        var _ := AddOnce(urls, u);
      }
    } else if n > 1 {
      TidyAddsOnce(urls, u, n - 1);
    }
  }

  /** How many entries `n` additions of one URL leave: one at most, unless it ends in two slashes. */
  lemma RepeatedAdds(urls: seq<string>, u: string, n: nat)
    ensures |Adds(urls, u, n)| == |urls| + (if n == 0 || Listed(urls, u) then 0 else if EndsInSlashes(u) then n else 1)
  {
    if EndsInSlashes(u) && !Listed(urls, u) {
      SlashesPileUp(urls, u, n);
    } else {
      TidyAddsOnce(urls, u, n);
      AddedLength(urls, u);
    }
  }

  /** No two recorded URLs are the same up to a trailing slash. */
  predicate Distinct(urls: seq<string>) {
    forall i, j | 0 <= i < j < |urls| :: Trim(urls[i]) != Trim(urls[j])
  }

  lemma AddKeepsDistinct(urls: seq<string>, u: string)
    requires Distinct(urls) && !EndsInSlashes(u)
    ensures Distinct(AddURL(urls, u)) && urls <= AddURL(urls, u)
  {
    TrimTwice(u);
  }

  /** The server URL of the secret, if it has one, does not end in two slashes. */
  predicate Tidy(secret: Option<AutoSecret>) {
    secret.Some? && ServerURL(secret.value).Ok? ==> !EndsInSlashes(ServerURL(secret.value).value)
  }

  predicate TidyRun(run: seq<Move>) {
    forall i | 0 <= i < |run| :: run[i].User? ==> Tidy(run[i].secret)
  }

  /** A reconcile leaves the URLs alone or adds the secret's. */
  lemma URLsAfter(s: State, m: Move)
    requires s.cluster.Some? && m.Reconcile?
    ensures var t := Next(s, m);
            && t.cluster.Some? && (t.secret.None? || t.secret == s.secret)
            && (t.cluster.value.urls != s.cluster.value.urls ==>
                  && s.secret.Some? && ServerURL(s.secret.value).Ok?
                  && t.cluster.value.urls == AddURL(s.cluster.value.urls, ServerURL(s.secret.value).value))
  {
    if m.actor.AutoImporter? && s.secret.Some? {
      AutoImportURLs(s, m.x);
    }
  }

  lemma FinishURLs(s: State, before: View, v: View, secret: AutoSecret, x: Input)
    requires s.cluster == Some(v) && v.urls == before.urls
    ensures var t := Finish(s, before, v, secret, x);
            && t.cluster.Some? && (t.secret.None? || t.secret == s.secret)
            && (t.cluster.value.urls == v.urls || (ServerURL(secret).Ok? && t.cluster.value.urls == AddURL(v.urls, ServerURL(secret).value)))
  {
  }

  lemma AutoImportURLs(s: State, x: Input)
    requires s.cluster.Some? && s.secret.Some?
    ensures var t, urls := AutoImport(s, x), s.cluster.value.urls;
            && t.cluster.Some? && (t.secret.None? || t.secret == s.secret)
            && (t.cluster.value.urls == urls
                || (ServerURL(s.secret.value).Ok? && t.cluster.value.urls == AddURL(urls, ServerURL(s.secret.value).value)))
  {
    var v, secret := s.cluster.value, s.secret.value;
    var s1 := AfterImport(s.(getter := s.getter || secret.kind.RosaType?), v, x);
    FinishURLs(s1, v, s1.cluster.value, secret, x);
  }

  lemma URLStep(s: State, m: Move)
    requires s.cluster.Some? && Distinct(s.cluster.value.urls) && Tidy(s.secret)
    requires m.User? ==> Tidy(m.secret)
    ensures var t := Next(s, m);
            t.cluster.Some? && Distinct(t.cluster.value.urls) && s.cluster.value.urls <= t.cluster.value.urls && Tidy(t.secret)
  {
    if m.Reconcile? {
      URLsAfter(s, m);
    }
    if s.secret.Some? && ServerURL(s.secret.value).Ok? {
      AddKeepsDistinct(s.cluster.value.urls, ServerURL(s.secret.value).value);
    }
  }

  /** Over every run each server URL is recorded at most once, and none is forgotten. */
  lemma URLsRecordedOnce(s: State, run: seq<Move>)
    requires s.cluster.Some? && Distinct(s.cluster.value.urls) && Tidy(s.secret) && TidyRun(run)
    ensures var t := After(s, run);
            t.cluster.Some? && Distinct(t.cluster.value.urls) && s.cluster.value.urls <= t.cluster.value.urls
  {
    var P := (t: State) =>
      t.cluster.Some? && Distinct(t.cluster.value.urls) && s.cluster.value.urls <= t.cluster.value.urls && Tidy(t.secret);
    var ok := (m: Move) => m.User? ==> Tidy(m.secret);
    forall t, m | P(t) && ok(m) ensures P(Next(t, m)) {
      URLStep(t, m);
    }
    FoldKeeps(Next, s, run, P, ok);
  }

  // ---- the same additions, by reconciles ----

  /** A reconcile whose apply changes nothing and whose calls all succeed. */
  function Unchanging(st: Strategy): (x: Input)
  {
    Input(Ok(st), Ok(1), true, Ok(true), false, None, Ok(true), true, true, true, true, true, true, true)
  }

  /** An auto-import goes through and keeps its secret, whose server URL is `u`. */
  predicate KeepsImporting(s: State, st: Strategy, u: string) {
    && Plain(s) && !s.cluster.value.disabled && !Guarded(s.cluster.value, Unchanging(st))
    && s.cluster.value.cond.Some? && !s.cluster.value.cond.value.reason.WaitForImporting?
    && s.secret.Some? && s.secret.value.keep && Usable(s.secret.value)
    && ServerURL(s.secret.value) == Ok(u) && u != ""
  }

  function Importing(st: Strategy): (m: Move)
  {
    Reconcile(AutoImporter, Unchanging(st))
  }

  lemma OneImportAdds(s: State, st: Strategy, u: string)
    requires KeepsImporting(s, st, u)
    ensures var t := Next(s, Importing(st));
            KeepsImporting(t, st, u) && t.cluster.value.urls == AddURL(s.cluster.value.urls, u)
  {
  }

  function Imports(st: Strategy, n: nat): (run: seq<Move>)
  {
    seq(n, _ => Importing(st))
  }

  lemma ImportsAdd(s: State, st: Strategy, u: string, n: nat)
    requires KeepsImporting(s, st, u)
    ensures var t := After(s, Imports(st, n));
            t.cluster.Some? && t.cluster.value.urls == Adds(s.cluster.value.urls, u, n)
  {
    var m, urls := Importing(st), s.cluster.value.urls;
    var P := (i: nat, t: State) => KeepsImporting(t, st, u) && t.cluster.value.urls == Adds(urls, u, i);
    forall i: nat, t | P(i, t) ensures P(i + 1, Next(t, m)) {
      OneImportAdds(t, st, u);
    }
    FoldCounts(Next, s, m, n, P);
    assert Imports(st, n) == seq(n, _ => m);
  }

  /** Reconciles of a kept secret record its URL once, or each time anew if it ends in two slashes. */
  lemma RepeatedImports(s: State, st: Strategy, u: string, n: nat)
    requires KeepsImporting(s, st, u)
    ensures var urls, t := s.cluster.value.urls, After(s, Imports(st, n));
            t.cluster.Some? && |t.cluster.value.urls|
            == |urls| + (if n == 0 || Listed(urls, u) then 0 else if EndsInSlashes(u) then n else 1)
  {
    ImportsAdd(s, st, u, n);
    RepeatedAdds(s.cluster.value.urls, u, n);
  }
}
