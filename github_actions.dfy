/** The GitHub Actions client: triggers the remote APK workflow and maps a
    workflow run's state to a build status. The HTTP client is an object
    that records the requests it is sent; what the remote side answers is
    given to each call. */
module GitHubActions {
  import opened Common

  const WorkflowFile := "build-apk.yml"
  const WorkflowRef := "main"
  const DefaultOwner := "tu-usuario"
  const DefaultRepo := "admin-web"
  const NotConfiguredTriggerMessage := "GitHub Actions no configurado. Establece GITHUB_TOKEN en .env"
  const NoRunMessage := "No se pudo obtener el workflow run"
  const NotConfiguredStatusMessage := "GitHub Actions no configurado"
  const UnknownErrorMessage := "Error desconocido"
  const WorkflowFailedPrefix := "Workflow falló: "
  const MockRunUrl := "https://github.com/mock/workflow/123"
  const MockApkUrl := "/storage/generated/mock/app.apk"
  const MockDelayMs := 10000

  /** A thrown value: an `Error` with its message, or anything else. */
  datatype Thrown = ErrorObject(message: string) | OtherValue

  /** The outcome of a call that may throw. */
  datatype Outcome<+T> = Returned(value: T) | Threw(thrown: Thrown)

  datatype Run = Run(id: nat, htmlUrl: string)

  /** A run as `getWorkflowRun` reports it; `conclusion` is null while the
      run has not finished. */
  datatype RunState = RunState(status: string, conclusion: Option<string>)

  datatype Artifact = Artifact(name: string, archiveDownloadUrl: Option<string>)

  /** The requests the client sends, in the order sent. */
  datatype Request =
    | WorkflowDispatch(owner: string, repo: string, workflowId: string, ref: string,
                       inputs: seq<(string, string)>)
    | ListWorkflowRuns(owner: string, repo: string, workflowId: string, perPage: nat)
    | GetWorkflowRun(owner: string, repo: string, runId: Option<nat>)
    | ListWorkflowRunArtifacts(owner: string, repo: string, runId: Option<nat>)

  /** The result of `checkStatus`. */
  datatype BuildStatus = BuildStatus(completed: bool, success: bool, apkUrl: Option<string>,
                                     error: Option<string>)

  /** The authenticated HTTP client. */
  class GitHubApi {
    var requests: seq<Request>

    constructor ()
      ensures requests == []
    {
      requests := [];
    }

    method Send<T>(req: Request, reply: Outcome<T>) returns (r: Outcome<T>)
      modifies this
      ensures requests == old(requests) + [req] && r == reply
    {
      requests := requests + [req];
      r := reply;
    }
  }

  /** The text of a caught value: its message, or the generic one. */
  function ErrorText(t: Thrown): string {
    if t.ErrorObject? then t.message else UnknownErrorMessage
  }

  /** `${conclusion}`: a missing conclusion prints as `null`. */
  function ConclusionText(c: Option<string>): string {
    if c.Some? then c.value else "null"
  }

  /** `artifacts.find(a => a.name.includes('.apk'))`. */
  function FirstApkArtifact(arts: seq<Artifact>): (r: Option<nat>)
    ensures r.Some? ==> r.value < |arts| && Contains(arts[r.value].name, ".apk")
    ensures r.Some? ==> forall j :: 0 <= j < r.value ==> !Contains(arts[j].name, ".apk")
    ensures r.None? ==> forall j :: 0 <= j < |arts| ==> !Contains(arts[j].name, ".apk")
  {
    if arts == [] then None
    else if Contains(arts[0].name, ".apk") then Some(0)
    else match FirstApkArtifact(arts[1..])
      case None => None
      case Some(k) => Some(k + 1)
  }

  /** `apkArtifact?.archive_download_url || undefined` */
  function ApkUrl(arts: seq<Artifact>): Option<string> {
    match FirstApkArtifact(arts)
    case None => None
    case Some(k) => if Truthy(arts[k].archiveDownloadUrl) then arts[k].archiveDownloadUrl else None
  }

  /** `checkStatus` as a total function of the client's configuration and
      the remote answers: the run (or what its request threw) and, for a
      successful run, its artifacts. */
  function StatusOf(configured: bool, run: Outcome<RunState>, artifacts: Outcome<seq<Artifact>>): (r: BuildStatus)
    ensures r.success ==> r.completed
    ensures r.apkUrl.Some? ==> r.success && r.apkUrl.value != ""
    ensures !configured ==> r == BuildStatus(false, false, None, Some(NotConfiguredStatusMessage))
    ensures r.completed <==> configured && run.Returned? && run.value.status == "completed"
                             && (run.value.conclusion == Some("success") ==> artifacts.Returned?)
    ensures r.error.None? <==> r.success || (configured && run.Returned? && run.value.status != "completed")
    ensures r.success <==> configured && run.Returned? && run.value.status == "completed"
                           && run.value.conclusion == Some("success") && artifacts.Returned?
    ensures r.success ==> r.apkUrl == ApkUrl(artifacts.value)
    ensures configured && run.Returned? && run.value.status == "completed"
            && run.value.conclusion != Some("success")
            ==> r.error == Some(WorkflowFailedPrefix + ConclusionText(run.value.conclusion))
    ensures configured && run.Threw? ==> r.error == Some(ErrorText(run.thrown))
    ensures configured && run.Returned? && run.value.status == "completed"
            && run.value.conclusion == Some("success") && artifacts.Threw?
            ==> r.error == Some(ErrorText(artifacts.thrown))
  {
    if !configured then BuildStatus(false, false, None, Some(NotConfiguredStatusMessage))
    else match run
      case Threw(t) => BuildStatus(false, false, None, Some(ErrorText(t)))
      case Returned(state) =>
        if state.status == "completed" then
          if state.conclusion == Some("success") then
            match artifacts
            case Threw(t) => BuildStatus(false, false, None, Some(ErrorText(t)))
            case Returned(arts) => BuildStatus(true, true, ApkUrl(arts), None)
          else BuildStatus(true, false, None, Some(WorkflowFailedPrefix + ConclusionText(state.conclusion)))
        else BuildStatus(false, false, None, None)
  }

  /** `GitHubActionsBuilder`: the client exists only when a token is set. */
  class GitHubActionsBuilder {
    const octokit: GitHubApi?
    const owner: string
    const repo: string

    constructor (env: Env)
      ensures (octokit != null) <==> Truthy(env.githubToken)
      ensures IsConfigured() <==> Truthy(env.githubToken)
      ensures octokit != null ==> fresh(octokit) && octokit.requests == []
      ensures owner == OrElse(env.githubOwner, DefaultOwner)
      ensures repo == OrElse(env.githubRepo, DefaultRepo)
    {
      if Truthy(env.githubToken) {
        octokit := new GitHubApi();
      } else {
        octokit := null;
      }
      owner := OrElse(env.githubOwner, DefaultOwner);
      repo := OrElse(env.githubRepo, DefaultRepo);
    }

    /** `isConfigured`: a client exists, which the constructor makes
        exactly when a token is set. */
    predicate IsConfigured()
      reads this
      ensures IsConfigured() <==> octokit != null
    {
      octokit != null
    }

    /** `triggerBuild`: dispatch the workflow with the collector's inputs,
        list the latest run, return its id and page. Without a client it
        throws before any request; a failed request is rethrown as it was
        thrown; an empty listing throws. */
    method TriggerBuild(cobradorId: string, nombre: string, token: string, credencialesJson: string,
                        dispatchReply: Outcome<()>, runsReply: Outcome<seq<Run>>)
      returns (r: Outcome<Run>)
      modifies octokit
      ensures octokit == null ==> r == Threw(ErrorObject(NotConfiguredTriggerMessage))
      ensures octokit != null ==>
                r == TriggerResult(dispatchReply, runsReply)
                && octokit.requests == old(octokit.requests) + TriggerRequests(owner, repo, cobradorId, nombre, token, credencialesJson, dispatchReply)
    {
      if octokit == null {
        return Threw(ErrorObject(NotConfiguredTriggerMessage));
      }
      var inputs := [("cobrador_id", cobradorId), ("nombre", nombre), ("token", token),
                     ("credenciales", credencialesJson)];
      var dispatched := octokit.Send(WorkflowDispatch(owner, repo, WorkflowFile, WorkflowRef, inputs), dispatchReply);
      if dispatched.Threw? {
        return Threw(dispatched.thrown);
      }
      var runs := octokit.Send(ListWorkflowRuns(owner, repo, WorkflowFile, 1), runsReply);
      if runs.Threw? {
        return Threw(runs.thrown);
      }
      if |runs.value| > 0 {
        return Returned(runs.value[0]);
      }
      r := Threw(ErrorObject(NoRunMessage));
    }

    /** `checkStatus(workflowId)`: fetch the run, and for a successful one its
        artifacts, then map them with `StatusOf`. */
    method CheckStatus(workflowId: string, runReply: Outcome<RunState>, artifactsReply: Outcome<seq<Artifact>>)
      returns (r: BuildStatus)
      modifies octokit
      ensures r == StatusOf(IsConfigured(), runReply, artifactsReply)
      ensures octokit != null ==> octokit.requests == old(octokit.requests) + StatusRequests(owner, repo, workflowId, runReply)
    {
      if octokit == null {
        return BuildStatus(false, false, None, Some(NotConfiguredStatusMessage));
      }
      var run := octokit.Send(GetWorkflowRun(owner, repo, ParseInt(workflowId)), runReply);
      if run.Threw? {
        return BuildStatus(false, false, None, Some(ErrorText(run.thrown)));
      }
      if run.value.status == "completed" {
        if run.value.conclusion == Some("success") {
          var artifacts := octokit.Send(ListWorkflowRunArtifacts(owner, repo, ParseInt(workflowId)), artifactsReply);
          if artifacts.Threw? {
            return BuildStatus(false, false, None, Some(ErrorText(artifacts.thrown)));
          }
          return BuildStatus(true, true, ApkUrl(artifacts.value), None);
        }
        return BuildStatus(true, false, None, Some(WorkflowFailedPrefix + ConclusionText(run.value.conclusion)));
      }
      r := BuildStatus(false, false, None, None);
    }
  }

  /** What `triggerBuild` yields on a configured client. */
  function TriggerResult(dispatchReply: Outcome<()>, runsReply: Outcome<seq<Run>>): (r: Outcome<Run>)
    ensures r.Returned? <==> dispatchReply.Returned? && runsReply.Returned? && |runsReply.value| > 0
    ensures r.Returned? ==> r.value == runsReply.value[0]
    ensures dispatchReply.Returned? && runsReply.Returned? && runsReply.value == []
            ==> r == Threw(ErrorObject(NoRunMessage))
    ensures dispatchReply.Threw? ==> r == Threw(dispatchReply.thrown)
    ensures dispatchReply.Returned? && runsReply.Threw? ==> r == Threw(runsReply.thrown)
  {
    match dispatchReply
    case Threw(t) => Threw(t)
    case Returned(_) =>
      match runsReply
      case Threw(t) => Threw(t)
      case Returned(runs) => if |runs| > 0 then Returned(runs[0]) else Threw(ErrorObject(NoRunMessage))
  }

  /** The requests `triggerBuild` sends: the dispatch, then (if it went
      through) a listing of one run of the same workflow. */
  function TriggerRequests(owner: string, repo: string, cobradorId: string, nombre: string, token: string,
                           credencialesJson: string, dispatchReply: Outcome<()>): (rs: seq<Request>)
    ensures 1 <= |rs| <= 2 && rs[0].WorkflowDispatch?
    ensures rs[0].inputs == [("cobrador_id", cobradorId), ("nombre", nombre), ("token", token),
                             ("credenciales", credencialesJson)]
    ensures |rs| == 2 <==> dispatchReply.Returned?
  {
    var dispatch := WorkflowDispatch(owner, repo, WorkflowFile, WorkflowRef,
                                     [("cobrador_id", cobradorId), ("nombre", nombre), ("token", token),
                                      ("credenciales", credencialesJson)]);
    if dispatchReply.Threw? then [dispatch]
    else [dispatch, ListWorkflowRuns(owner, repo, WorkflowFile, 1)]
  }

  /** The requests `checkStatus` sends: the run, then its artifacts when it
      finished successfully. */
  function StatusRequests(owner: string, repo: string, workflowId: string, runReply: Outcome<RunState>): (rs: seq<Request>)
    ensures 1 <= |rs| <= 2 && rs[0].GetWorkflowRun?
    ensures |rs| == 2 <==> (runReply.Returned? && runReply.value.status == "completed"
                            && runReply.value.conclusion == Some("success"))
  {
    var get := GetWorkflowRun(owner, repo, ParseInt(workflowId));
    if runReply.Returned? && runReply.value.status == "completed" && runReply.value.conclusion == Some("success")
    then [get, ListWorkflowRunArtifacts(owner, repo, ParseInt(workflowId))]
    else [get]
  }

  /** A successful run's status carries the download URL of its first
      `.apk` artifact, when that URL is not empty. */
  lemma SuccessCarriesFirstApkUrl(arts: seq<Artifact>, k: nat)
    requires k < |arts| && Contains(arts[k].name, ".apk") && Truthy(arts[k].archiveDownloadUrl)
    requires forall j :: 0 <= j < k ==> !Contains(arts[j].name, ".apk")
    ensures StatusOf(true, Returned(RunState("completed", Some("success"))), Returned(arts))
            == BuildStatus(true, true, arts[k].archiveDownloadUrl, None)
  {
    assert FirstApkArtifact(arts) == Some(k);
  }

  /** `GitHubActionsMock.triggerBuild`: the random id is a parameter. */
  function MockTriggerBuild(randomId: nat): (r: Run)
    requires randomId < 1000000
    ensures r.id == randomId && r.htmlUrl == MockRunUrl
  {
    Run(randomId, MockRunUrl)
  }

  /** `GitHubActionsMock.checkStatus`: completed, with the mock URL, once
      more than ten seconds have passed since the time the id is read as;
      an id that is no number never completes (NaN comparisons are false). */
  function MockCheckStatus(workflowId: string, now: int): (r: BuildStatus)
    ensures r.success == r.completed && r.error.None?
    ensures r.completed <==> ParseInt(workflowId).Some? && now - ParseInt(workflowId).value > MockDelayMs
    ensures r.completed ==> r.apkUrl == Some(MockApkUrl)
  {
    match ParseInt(workflowId)
    case Some(started) =>
      if now - started > MockDelayMs then BuildStatus(true, true, Some(MockApkUrl), None)
      else BuildStatus(false, false, None, None)
    case None => BuildStatus(false, false, None, None)
  }

  /** The mock completes exactly after its delay: at `started + 10000` not
      yet, one millisecond later yes. */
  lemma MockThreshold(started: nat)
    ensures !MockCheckStatus(NatToString(started), started + MockDelayMs).completed
    ensures MockCheckStatus(NatToString(started), started + MockDelayMs + 1).completed
  {
    ParseIntOfNatToString(started);
  }

  /** `GitHubActionsMock.isConfigured` */
  function MockIsConfigured(): (r: bool)
    ensures !r
  {
    false
  }
}
