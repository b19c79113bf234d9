/** `GET /api/apk/status`: reports a build's state and progress, and while a
    GitHub build is running polls the workflow run and records its outcome
    on the build and, on success, on the collector. */
module StatusRoute {
  import opened Common
  import opened Tables
  import opened GitHubActions
  import GenerateRoute

  const BuildIdRequiredMessage := "buildId es requerido"
  const BuildNotFoundMessage := "Build no encontrado"
  const RemoteApkVersion := "v1"

  /** A match of `/GitHub Actions workflow: (\d+)/` at position `i`: the
      greedy digit run after the prefix. */
  function MatchAt(s: string, i: nat): (r: Option<string>)
    ensures r.Some? ==> OccursAt(s, GenerateRoute.WorkflowLogPrefix, i) && r.value != [] && AllDigits(r.value)
  {
    if OccursAt(s, GenerateRoute.WorkflowLogPrefix, i) && LeadingDigits(s[i + |GenerateRoute.WorkflowLogPrefix|..]) != []
    then Some(LeadingDigits(s[i + |GenerateRoute.WorkflowLogPrefix|..]))
    else None
  }

  /** There is a match exactly where the prefix is followed by a digit, and
      its value is the whole digit run there: it stops at the end of the
      text or at a non-digit. */
  lemma MatchIsMaximalDigitRun(s: string, i: nat)
    ensures var p := i + |GenerateRoute.WorkflowLogPrefix|;
            MatchAt(s, i).Some? <==> OccursAt(s, GenerateRoute.WorkflowLogPrefix, i) && p < |s| && IsDigit(s[p])
    ensures var p := i + |GenerateRoute.WorkflowLogPrefix|;
            var r := MatchAt(s, i);
            r.Some? ==> OccursAt(s, r.value, p) && (p + |r.value| == |s| || !IsDigit(s[p + |r.value|]))
  {
    var p := i + |GenerateRoute.WorkflowLogPrefix|;
    if OccursAt(s, GenerateRoute.WorkflowLogPrefix, i) {
      var d := LeadingDigits(s[p..]);
      if d != [] {
        assert d[0] == s[p];
        assert s[p..][..|d|] == s[p..p + |d|];
        assert |d| < |s[p..]| ==> s[p..][|d|] == s[p + |d|];
      } else if p < |s| {
        assert s[p..][0] == s[p];
      }
    }
  }

  /** No position in `[i, k)` matches. */
  predicate NoMatchBetween(s: string, i: nat, k: nat) {
    forall j :: i <= j < k ==> MatchAt(s, j).None?
  }

  /** The leftmost match at or after `i`, the one `String.prototype.match`
      returns. */
  function FirstMatchFrom(s: string, i: nat): (r: Option<string>)
    ensures r.Some? ==> exists k :: i <= k <= |s| && MatchAt(s, k) == r && NoMatchBetween(s, i, k)
    ensures r.None? <==> NoMatchBetween(s, i, |s| + 1)
    decreases |s| + 1 - i
  {
    if i > |s| then None
    else if MatchAt(s, i).Some? then
      assert NoMatchBetween(s, i, i);
      MatchAt(s, i)
    else
      var r := FirstMatchFrom(s, i + 1);
      assert r.Some? ==> exists k :: i <= k <= |s| && MatchAt(s, k) == r && NoMatchBetween(s, i, k) by {
        if r.Some? {
          var k :| i + 1 <= k <= |s| && MatchAt(s, k) == r && NoMatchBetween(s, i + 1, k);
          assert NoMatchBetween(s, i, k);
        }
      }
      r
  }

  /** `build.log_build?.match(...)[1]`: the digits of the leftmost match in
      the log, if any. */
  function ExtractWorkflowId(log: Option<string>): (r: Option<string>)
    ensures r.Some? ==> log.Some? && r.value != [] && AllDigits(r.value)
    ensures log.None? ==> r.None?
  {
    if log.None? then None else FirstMatchFrom(log.value, 0)
  }

  /** The id taken from a log is the digit run of the leftmost match, and
      there is none exactly when no position matches. */
  lemma ExtractIsLeftmostMatch(log: string)
    ensures var r := ExtractWorkflowId(Some(log));
            && (r.None? <==> NoMatchBetween(log, 0, |log| + 1))
            && (r.Some? ==> exists k :: 0 <= k <= |log| && MatchAt(log, k) == r && NoMatchBetween(log, 0, k))
  {
  }

  /** The log line the generate route writes gives back the run id, and
      `parseInt` turns it into that id again. */
  lemma WorkflowLogRoundTrip(id: nat)
    ensures ExtractWorkflowId(Some(GenerateRoute.WorkflowLog(id))) == Some(NatToString(id))
    ensures ParseInt(NatToString(id)) == Some(id)
  {
    var s := GenerateRoute.WorkflowLog(id);
    assert s[|GenerateRoute.WorkflowLogPrefix|..] == NatToString(id);
    LeadingDigitsOfDigits(NatToString(id));
    assert MatchAt(s, 0) == Some(NatToString(id));
    ParseIntOfNatToString(id);
  }

  /** `calculateProgress(estado, metodo)`. */
  function CalculateProgress(estado: string, metodo: string): (p: nat)
    ensures p == 100 <==> estado == "completed"
    ensures p == 50 <==> estado == "building" && metodo == "local"
    ensures p == 30 <==> estado == "building" && metodo != "local"
    ensures p == 0 <==> estado != "completed" && estado != "building"
  {
    if estado == "pending" then 0
    else if estado == "building" then (if metodo == "local" then 50 else 30)
    else if estado == "completed" then 100
    else if estado == "failed" then 0
    else 0
  }

  /** A record the route polls: a GitHub build still running. */
  predicate Polled(row: BuildRow) {
    row.metodo == "github" && row.estado == "building"
  }

  /** `status.error || null` */
  function ErrorColumn(st: BuildStatus): Option<string> {
    if Truthy(st.error) then st.error else None
  }

  /** The update written on the build after a poll. */
  function PollUpdate(st: BuildStatus, now: int): (u: BuildUpdate)
    ensures !st.completed <==> u == NoChange
    ensures u.estado.Write? <==> st.completed
    ensures u.fechaFin.Write? <==> st.completed
    ensures u.errorMensaje.Write? <==> st.completed
    ensures u.apkUrl.Write? <==> st.completed && st.success && st.apkUrl.Some?
    ensures u.metodo.Keep? && u.logBuild.Keep? && u.tiempoBuild.Keep?
  {
    if !st.completed then NoChange
    else NoChange.(estado := Write(if st.success then "completed" else "failed"),
                   fechaFin := Write(Some(now)),
                   errorMensaje := Write(ErrorColumn(st)),
                   apkUrl := if st.success && st.apkUrl.Some? then Write(st.apkUrl) else Keep)
  }

  /** The stored build after a poll: unchanged until the run completes; then
      `completed` exactly on success, with the end time and the error, and
      the URL only on success with one. */
  function PolledRow(before: BuildRow, st: BuildStatus, now: int): (r: BuildRow)
    ensures !st.completed ==> r == before
    ensures st.completed ==> (r.estado == "completed" <==> st.success)
    ensures st.completed ==> (r.estado == "failed" <==> !st.success)
    ensures st.completed ==> r.fechaFin == Some(now) && r.errorMensaje == ErrorColumn(st)
    ensures r.apkUrl != before.apkUrl ==> st.success && r.apkUrl == st.apkUrl
    ensures st.completed && st.success && st.apkUrl.Some? ==> r.apkUrl == st.apkUrl
    ensures !(st.completed && st.success && st.apkUrl.Some?) ==> r.apkUrl == before.apkUrl
    ensures r.metodo == before.metodo && r.logBuild == before.logBuild && r.tiempoBuild == before.tiempoBuild
  {
    Apply(before, PollUpdate(st, now))
  }

  /** The route's own copy of the build after a poll (what it reports): the
      state, and the URL and error exactly as the poll returned them. */
  function PolledView(before: BuildRow, st: BuildStatus): (r: BuildRow)
    ensures !st.completed ==> r == before
    ensures st.completed ==> r.apkUrl == st.apkUrl && r.errorMensaje == st.error
    ensures r.fechaFin == before.fechaFin
  {
    if !st.completed then before
    else before.(estado := if st.success then "completed" else "failed", apkUrl := st.apkUrl,
                 errorMensaje := st.error)
  }

  /** The collectors after a poll: on success the build's collector gets
      version `v1` and the URL when there is one (an undefined URL is not
      written); an unknown collector id updates no row. */
  function PolledCollectors(cs: map<string, Cobrador>, cobradorId: string, st: BuildStatus): (r: map<string, Cobrador>)
    ensures r.Keys == cs.Keys
    ensures forall id :: id in cs && id != cobradorId ==> r[id] == cs[id]
    ensures !st.success ==> r == cs
    ensures st.success && cobradorId in cs ==>
              r[cobradorId].apkVersion == Some(RemoteApkVersion)
              && r[cobradorId].apkUrl == (if st.apkUrl.Some? then st.apkUrl else cs[cobradorId].apkUrl)
  {
    if st.success && cobradorId in cs then
      var c := cs[cobradorId];
      cs[cobradorId := c.(apkUrl := if st.apkUrl.Some? then st.apkUrl else c.apkUrl,
                          apkVersion := Some(RemoteApkVersion))]
    else cs
  }

  datatype StatusResponse =
    | BadRequest(error: string)
    | NotFound(error: string)
    | Report(buildId: string, cobradorId: string, estado: string, metodo: string, progress: nat,
             apkUrl: Option<string>, buildError: Option<string>, fechaFin: Option<int>,
             tiempoBuild: Option<int>, logs: Option<string>)

  function ReportOf(buildId: string, cobradorId: string, view: BuildRow): StatusResponse {
    Report(buildId, cobradorId, view.estado, view.metodo, CalculateProgress(view.estado, view.metodo),
           view.apkUrl, view.errorMensaje, view.fechaFin, view.tiempoBuild, view.logBuild)
  }

  /** What a poll of `before` yields as the run's status; `None` when the
      record is not polled or its log names no run. */
  function PollStatus(before: BuildRow, env: Env, runReply: Outcome<RunState>,
                      artifactsReply: Outcome<seq<Artifact>>): Option<BuildStatus>
  {
    if Polled(before) && ExtractWorkflowId(before.logBuild).Some?
    then Some(StatusOf(Truthy(env.githubToken), runReply, artifactsReply))
    else None
  }

  /** The route. A missing id and an unknown build are rejected without a
      change; a build that is not a running GitHub build, or whose log names
      no run, is reported as stored. */
  method Get(db: Db, buildId: Option<string>, env: Env, runReply: Outcome<RunState>,
             artifactsReply: Outcome<seq<Artifact>>, now: int)
    returns (resp: StatusResponse)
    requires DistinctRows(db.builds)
    modifies db, db.builds.Values
    ensures db.builds == old(db.builds) && db.metrics == old(db.metrics)
    ensures !Truthy(buildId) ==> resp == BadRequest(BuildIdRequiredMessage) && db.cobradores == old(db.cobradores)
    ensures Truthy(buildId) && buildId.value !in db.builds ==>
              resp == NotFound(BuildNotFoundMessage) && db.cobradores == old(db.cobradores)
    ensures forall id :: id in db.builds && (!Truthy(buildId) || id != buildId.value) ==>
              db.builds[id].Row() == old(db.builds[id].Row())
    ensures Truthy(buildId) && buildId.value in db.builds ==>
              var rec := db.builds[buildId.value];
              var before := old(rec.Row());
              match PollStatus(before, env, runReply, artifactsReply)
              case None =>
                rec.Row() == before && db.cobradores == old(db.cobradores)
                && resp == ReportOf(buildId.value, rec.cobradorId, before)
              case Some(st) =>
                rec.Row() == PolledRow(before, st, now)
                && db.cobradores == (if st.completed then PolledCollectors(old(db.cobradores), rec.cobradorId, st)
                                     else old(db.cobradores))
                && resp == ReportOf(buildId.value, rec.cobradorId, PolledView(before, st))
  {
    if !Truthy(buildId) {
      return BadRequest(BuildIdRequiredMessage);
    }
    var id := buildId.value;
    if id !in db.builds {
      return NotFound(BuildNotFoundMessage);
    }
    var build := db.builds[id];
    var view := Poll(db, build, env, runReply, artifactsReply, now);
    resp := ReportOf(id, build.cobradorId, view);
  }

  /** The polling step of the route on one build record: a running GitHub
      build whose log names a run is checked, and a completed run is
      recorded on the build and, on success, on its collector. Returns the
      row the route reports. */
  method Poll(db: Db, build: BuildRecord, env: Env, runReply: Outcome<RunState>,
              artifactsReply: Outcome<seq<Artifact>>, now: int)
    returns (view: BuildRow)
    modifies db, build
    ensures db.builds == old(db.builds) && db.metrics == old(db.metrics)
    ensures match PollStatus(old(build.Row()), env, runReply, artifactsReply)
            case None =>
              build.Row() == old(build.Row()) && db.cobradores == old(db.cobradores)
              && view == old(build.Row())
            case Some(st) =>
              build.Row() == PolledRow(old(build.Row()), st, now)
              && db.cobradores == (if st.completed then PolledCollectors(old(db.cobradores), build.cobradorId, st)
                                   else old(db.cobradores))
              && view == PolledView(old(build.Row()), st)
  {
    view := build.Row();
    if view.metodo == "github" && view.estado == "building" {
      var githubBuilder := new GitHubActionsBuilder(env);
      var workflowId := ExtractWorkflowId(view.logBuild);
      if workflowId.Some? {
        var status := githubBuilder.CheckStatus(workflowId.value, runReply, artifactsReply);
        if status.completed {
          Record(db, build, status, now);
          view := PolledView(view, status);
        }
      }
    }
  }

  /** Records a completed run: the build gets its outcome and, on success,
      the collector its APK. */
  method Record(db: Db, build: BuildRecord, status: BuildStatus, now: int)
    requires status.completed
    modifies db, build
    ensures db.builds == old(db.builds) && db.metrics == old(db.metrics)
    ensures build.Row() == PolledRow(old(build.Row()), status, now)
    ensures db.cobradores == PolledCollectors(old(db.cobradores), build.cobradorId, status)
  {
    build.Update(PollUpdate(status, now));
    if status.success {
      db.cobradores := PolledCollectors(db.cobradores, build.cobradorId, status);
    }
  }

  /** A record the generate route handed to GitHub is polled, with the run
      id it was given; while that run has not completed, polling it again
      and again leaves it as it is, reported at 30 percent. */
  lemma HandedOverRecordIsPolled(localMessage: string, run: Run, buildTime: int, endTime: int,
                                 st: BuildStatus, now: int)
    requires !st.completed
    ensures var row := GenerateRoute.FinalRow(Err(localMessage), Returned(run), buildTime, endTime);
            && Polled(row)
            && ExtractWorkflowId(row.logBuild) == Some(NatToString(run.id))
            && ParseInt(ExtractWorkflowId(row.logBuild).value) == Some(run.id)
            && PolledRow(row, st, now) == row
            && CalculateProgress(PolledRow(row, st, now).estado, row.metodo) == 30
  {
    WorkflowLogRoundTrip(run.id);
  }
}
