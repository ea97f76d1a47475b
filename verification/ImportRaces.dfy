/**
 The import condition when reads and writes are steps of their own. A controller reads
 the cluster from the cache, decides, and later writes the condition; that write reads
 the cache again and is refused unless it shows the current version. An import that
 started before a success may therefore still take it back.
 */
module ImportRaces {
  import opened Common
  import opened ImportCondition

  datatype Importer = AutoImporter | SelfManager | Deployer

  /**
   `shown` holds the states of the cluster the cache has not yet left behind, oldest
   first and the current one last. `flying` holds the reading of each import under way,
   `reporting` the one of the status controller.
   */
  datatype Race = Race(shown: seq<View>, flying: map<Importer, View>, reporting: Option<View>)

  /** What does not change: the strategy, and who has the means to import the cluster. */
  datatype Setting = Setting(strategy: Strategy, able: set<Importer>)

  datatype Move =
    | Sync
    | Begin(actor: Importer)
    | Finish(importer: Importer, x: Input)
    | ReportBegin
    | Complete
    | ReportEnd(available: bool)

  predicate Plain(v: View) {
    !v.hosted && !v.deleting
  }

  predicate Succeeded(v: View) {
    v.cond.Some? && v.cond.value.succeeded
  }

  /** The guards of an import pass on this reading. */
  predicate Goes(v: View, st: Strategy) {
    Plain(v) && !v.disabled && !(st.ImportOnly? && v.immediate != Requested && Succeeded(v))
  }

  function Current(w: Race): (v: View)
    requires w.shown != []
  {
    w.shown[|w.shown| - 1]
  }

  /** The states shown after a write of the condition: nothing for the same condition or a stale reading. */
  function Written(shown: seq<View>, c: Cond): (r: seq<View>)
    requires shown != []
  {
    if shown[0].cond == Some(c) || |shown| > 1 then shown
    else shown + [shown[0].(cond := Some(c), version := shown[0].version + 1)]
  }

  /** The condition the status controller writes for a reading, if any. */
  function Report(v: View, available: bool): (r: Option<Cond>)
  {
    if v.cond.None? then Some(Cond(false, WaitForImporting, false))
    else if available then Some(Cond(true, Imported, false)) else None
  }

  /** The status controller marks an immediate import as completed. */
  function Answered(shown: seq<View>): (r: seq<View>)
    requires shown != []
  {
    if shown[0].immediate != Requested || |shown| > 1 then shown
    else shown + [shown[0].(immediate := Completed, version := shown[0].version + 1)]
  }

  /** The oldest states are left behind. */
  predicate CatchesUp(shown: seq<View>, later: seq<View>) {
    0 < |later| <= |shown| && later == shown[|shown| - |later|..]
  }

  predicate Step(e: Setting, w: Race, m: Move, w': Race)
    requires w.shown != []
  {
    match m
    case Sync => CatchesUp(w.shown, w'.shown) && w' == w.(shown := w'.shown)
    case Begin(a) =>
      a in e.able && a !in w.flying && Goes(w.shown[0], e.strategy) && w' == w.(flying := w.flying[a := w.shown[0]])
    case Finish(a, x) =>
      && a in w.flying
      && var o := Import(w.flying[a].cond, x);
         w' == w.(flying := w.flying - {a}, shown := if WritesCond(o) then Written(w.shown, o.cond) else w.shown)
    case ReportBegin => w.reporting.None? && Plain(w.shown[0]) && w' == w.(reporting := Some(w.shown[0]))
    case Complete =>
      && w.reporting.Some? && w.reporting.value.cond.Some? && w.reporting.value.immediate == Requested
      && w' == w.(shown := Answered(w.shown))
    case ReportEnd(available) =>
      && w.reporting.Some?
      && var c := Report(w.reporting.value, available);
         w' == w.(reporting := None, shown := if c.Some? then Written(w.shown, c.value) else w.shown)
  }

  // ---- runs ----

  /** Moves with the states they lead to, one after the other from `w`. */
  predicate IsPath(e: Setting, w: Race, path: seq<(Move, Race)>)
    requires w.shown != []
    decreases |path|
  {
    path == [] || (path[0].1.shown != [] && Step(e, w, path[0].0, path[0].1) && IsPath(e, path[0].1, path[1..]))
  }

  function End(w: Race, path: seq<(Move, Race)>): (r: Race)
  {
    if path == [] then w else path[|path| - 1].1
  }

  /** Success is final: it holds after every run from here. */
  ghost predicate AlwaysSucceeds(e: Setting, w: Race)
    requires w.shown != []
  {
    forall path | IsPath(e, w, path) :: End(w, path).shown != [] ==> Succeeded(Current(End(w, path)))
  }

  // ---- when success is final ----

  /** A cached state from which an import may start, or that has no condition yet. */
  predicate Reopens(e: Setting, v: View) {
    (e.able != {} && Goes(v, e.strategy)) || (Plain(v) && v.cond.None?)
  }

  /** No import is under way, no report of a missing condition, and the cache shows nothing that leads to one. */
  predicate Closed(e: Setting, w: Race) {
    && w.flying == map[]
    && (w.reporting.Some? ==> w.reporting.value.cond.Some?)
    && forall v | v in w.shown :: !Reopens(e, v)
  }

  /** A write of a success to a closed cluster keeps it closed. */
  lemma SuccessStaysClosed(e: Setting, v: View, v': View)
    requires Succeeded(v) && Succeeded(v') && !Reopens(e, v)
    requires v' == v.(cond := v'.cond, immediate := v'.immediate, version := v'.version)
    requires v'.immediate == v.immediate || v'.immediate == Completed
    ensures !Reopens(e, v')
  {
  }

  lemma ClosedStep(e: Setting, w: Race, m: Move, w': Race)
    requires w.shown != [] && Succeeded(Current(w)) && Closed(e, w) && Step(e, w, m, w')
    ensures w'.shown != [] && Succeeded(Current(w')) && Closed(e, w')
  {
    assert w.shown[0] in w.shown && Current(w) in w.shown;
    if !m.Sync? && w'.shown != w.shown {
      SuccessStaysClosed(e, Current(w), Current(w'));
    }
  }

  lemma {:induction false} ClosedPath(e: Setting, w: Race, path: seq<(Move, Race)>)
    requires w.shown != [] && Succeeded(Current(w)) && Closed(e, w) && IsPath(e, w, path)
    ensures End(w, path).shown != [] && Succeeded(Current(End(w, path)))
    decreases |path|
  {
    if path != [] {
      ClosedStep(e, w, path[0].0, path[0].1);
      ClosedPath(e, path[0].1, path[1..]);
    }
  }

  // ---- how success is taken back ----

  lemma Prepend(e: Setting, w: Race, m: Move, w': Race, path: seq<(Move, Race)>) returns (r: seq<(Move, Race)>)
    requires w.shown != [] && w'.shown != [] && Step(e, w, m, w') && IsPath(e, w', path)
    ensures IsPath(e, w, r) && End(w, r) == End(w', path)
  {
    r := [(m, w')] + path;
    assert r[1..] == path;
  }

  /** A failing apply. */
  function ApplyFails(): (x: Input)
  {
    Input(Ok(ImportOnly), Ok(1), true, Ok(true), false, Some(OtherError), Ok(true), true, true, true, true, true, true, true)
  }

  /** A run from `w` that ends without success. */
  ghost predicate Undone(e: Setting, w: Race, path: seq<(Move, Race)>)
    requires w.shown != []
  {
    IsPath(e, w, path) && End(w, path).shown != [] && !Succeeded(Current(End(w, path)))
  }

  /** An import under way fails once the cache has caught up. */
  lemma FlightUndoes(e: Setting, w: Race, a: Importer) returns (path: seq<(Move, Race)>)
    requires w.shown != [] && Succeeded(Current(w)) && a in w.flying
    ensures Undone(e, w, path)
  {
    var w1 := w.(shown := [Current(w)]);
    var o := Import(w.flying[a].cond, ApplyFails());
    var w2 := w1.(flying := w1.flying - {a}, shown := Written(w1.shown, o.cond));
    path := Prepend(e, w1, Finish(a, ApplyFails()), w2, []);
    path := Prepend(e, w, Sync, w1, path);
  }

  /** So does a report that saw no condition. */
  lemma ReportUndoes(e: Setting, w: Race) returns (path: seq<(Move, Race)>)
    requires w.shown != [] && Succeeded(Current(w)) && w.reporting.Some? && w.reporting.value.cond.None?
    ensures Undone(e, w, path)
  {
    var w1 := w.(shown := [Current(w)]);
    var w2 := w1.(reporting := None, shown := Written(w1.shown, Cond(false, WaitForImporting, false)));
    path := Prepend(e, w1, ReportEnd(false), w2, []);
    path := Prepend(e, w, Sync, w1, path);
  }

  /** The cache still shows `v`. */
  lemma Showing(w: Race, v: View) returns (later: seq<View>)
    requires w.shown != [] && v in w.shown
    ensures CatchesUp(w.shown, later) && later[0] == v && later[|later| - 1] == Current(w)
  {
    var i :| 0 <= i < |w.shown| && w.shown[i] == v;
    later := w.shown[i..];
  }

  lemma StaleStartUndoes(e: Setting, w: Race, v: View) returns (path: seq<(Move, Race)>)
    requires w.shown != [] && Succeeded(Current(w)) && w.flying == map[] && v in w.shown && e.able != {} && Goes(v, e.strategy)
    ensures Undone(e, w, path)
  {
    var a :| a in e.able;
    var later := Showing(w, v);
    var w1 := w.(shown := later);
    var w2 := w1.(flying := w1.flying[a := v]);
    path := FlightUndoes(e, w2, a);
    path := Prepend(e, w1, Begin(a), w2, path);
    path := Prepend(e, w, Sync, w1, path);
  }

  lemma StaleReportUndoes(e: Setting, w: Race, v: View) returns (path: seq<(Move, Race)>)
    requires w.shown != [] && Succeeded(Current(w)) && v in w.shown && Plain(v) && v.cond.None?
    requires w.reporting.Some? ==> w.reporting.value.cond.Some?
    ensures Undone(e, w, path)
  {
    var later := Showing(w, v);
    var w0 := w.(reporting := None);
    var w1 := w0.(shown := later);
    var w2 := w1.(reporting := Some(v));
    path := ReportUndoes(e, w2);
    path := Prepend(e, w1, ReportBegin, w2, path);
    path := Prepend(e, w0, Sync, w1, path);
    if w.reporting.Some? {
      path := Prepend(e, w, ReportEnd(false), w0, path);
    }
  }

  lemma OpenIsUndone(e: Setting, w: Race) returns (path: seq<(Move, Race)>)
    requires w.shown != [] && Succeeded(Current(w)) && !Closed(e, w)
    ensures Undone(e, w, path)
  {
    if w.flying != map[] {
      var a :| a in w.flying;
      path := FlightUndoes(e, w, a);
    } else if w.reporting.Some? && w.reporting.value.cond.None? {
      path := ReportUndoes(e, w);
    } else {
      var v :| v in w.shown && Reopens(e, v);
      if e.able != {} && Goes(v, e.strategy) {
        path := StaleStartUndoes(e, w, v);
      } else {
        path := StaleReportUndoes(e, w, v);
      }
    }
  }

  /**
   With reads and writes apart, a success is final exactly when no import is under way,
   no report has seen a missing condition, and neither the cluster nor any state the
   cache may still show lets an import start or lacks the condition.
   */
  lemma FinalExactlyWhenClosed(e: Setting, w: Race)
    requires w.shown != [] && Succeeded(Current(w))
    ensures AlwaysSucceeds(e, w) <==> Closed(e, w)
  {
    if Closed(e, w) {
      forall path | IsPath(e, w, path) ensures Succeeded(Current(w)) && (End(w, path).shown != [] ==> Succeeded(Current(End(w, path)))) {
        ClosedPath(e, w, path);
      }
    } else {
      var path := OpenIsUndone(e, w);
      assert IsPath(e, w, path);
    }
  }

  /** Under ImportOnly, without a request, the condition closes once the cache shows the success and nothing is under way. */
  lemma ClosedOnceShown(e: Setting, v: View)
    requires Succeeded(v) && v.immediate != Requested && e.strategy.ImportOnly?
    ensures Closed(e, Race([v], map[], None))
  {
  }
}
