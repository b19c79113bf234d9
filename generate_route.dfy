/** `POST /api/apk/generate`: validates the request, creates the collector
    and its build record, runs the local builder and, when that fails, hands
    the build to GitHub Actions. The build record moves through its states
    by successive updates. Random token, clock readings, database errors
    and remote answers are parameters. */
module GenerateRoute {
  import opened Common
  import opened Tables
  import opened Builder
  import opened GitHubActions

  const MissingDataMessage := "Faltan datos requeridos"
  const DuplicateDniMessage := "Ya existe un cobrador con ese DNI"
  const CobradorInsertMessage := "Error al crear cobrador"
  const BuildInsertMessage := "Error al iniciar build"
  const BothFailedMessage := "Ambos métodos de build fallaron"
  const FallbackMessage := "Build local falló, usando GitHub Actions"
  const WorkflowLogPrefix := "GitHub Actions workflow: "
  const DefaultZona := "Sin asignar"

  /** The request body; `None` is a missing field. */
  datatype GenerateBody = GenerateBody(
    nombre: Option<string>,
    dni: Option<string>,
    telefono: Option<string>,
    email: Option<string>)

  /** An error reported by the database for an insert. */
  datatype DbError = DbError(message: string, hint: Option<string>, code: string)

  datatype GenerateResponse =
    | BadRequest(error: string)
    | CobradorInsertFailed(details: DbError)
    | BuildInsertFailed
    | LocalBuilt(buildId: string, cobradorId: string, tiempo: int)
    | GitHubStarted(buildId: string, cobradorId: string, workflowId: nat)
    | BothFailed(local: string, github: string)

  /** The HTTP status of a response. */
  function StatusCode(r: GenerateResponse): (code: nat)
    ensures code == 200 <==> r.LocalBuilt? || r.GitHubStarted?
    ensures code == 400 <==> r.BadRequest?
    ensures code == 500 <==> r.CobradorInsertFailed? || r.BuildInsertFailed? || r.BothFailed?
  {
    match r
    case BadRequest(_) => 400
    case CobradorInsertFailed(_) => 500
    case BuildInsertFailed => 500
    case LocalBuilt(_, _, _) => 200
    case GitHubStarted(_, _, _) => 200
    case BothFailed(_, _) => 500
  }

  /** The collectors whose identity number is `dni`. */
  function DniMatches(cs: map<string, Cobrador>, dni: string): set<string> {
    set id | id in cs && cs[id].dni == dni
  }

  /** `.eq('dni', dni).single()` yields a row only when exactly one matches. */
  predicate DniTaken(cs: map<string, Cobrador>, dni: string) {
    |DniMatches(cs, dni)| == 1
  }

  /** The two early rejections, in order: missing fields, then a taken
      identity number. */
  function Validate(body: GenerateBody, cs: map<string, Cobrador>): (r: Option<string>)
    ensures r.None? <==> Truthy(body.nombre) && Truthy(body.dni) && Truthy(body.telefono)
                         && !DniTaken(cs, body.dni.value)
    ensures !(Truthy(body.nombre) && Truthy(body.dni) && Truthy(body.telefono)) ==> r == Some(MissingDataMessage)
  {
    if !Truthy(body.nombre) || !Truthy(body.dni) || !Truthy(body.telefono) then Some(MissingDataMessage)
    else if DniTaken(cs, body.dni.value) then Some(DuplicateDniMessage)
    else None
  }

  function NewCredenciales(token: string, nombre: string, dni: string, env: Env): Credenciales {
    Credenciales(token, nombre, dni, env.supabaseUrl, env.supabaseAnonKey, true, "1.0.0")
  }

  /** The inserted collector: active, in no zone yet, without an APK. */
  function NewCobrador(id: string, nombre: string, dni: string, telefono: string, email: Option<string>,
                       token: string, env: Env): (r: Cobrador)
    ensures r.id == id && r.nombre == nombre && r.dni == dni && r.telefono == telefono
    ensures r.tokenAcceso == token && r.estado == "activo" && r.zonaTrabajo == Some(DefaultZona)
    ensures r.apkUrl.None? && r.apkVersion.None? && r.ultimaConexion.None? && r.totalBuilds.None?
    ensures r.email == email
    ensures r.credenciales.token == token && r.credenciales.nombre == nombre && r.credenciales.dni == dni
    ensures r.credenciales.supabaseUrl == env.supabaseUrl && r.credenciales.supabaseKey == env.supabaseAnonKey
    ensures r.credenciales.autoLogin && r.credenciales.version == "1.0.0"
  {
    Cobrador(id, nombre, dni, telefono, email, token, NewCredenciales(token, nombre, dni, env),
             "activo", Some(DefaultZona), None, None, None, None)
  }

  /** What the route hands to `buildAPK`. An unset Supabase variable becomes
      the empty string. */
  function LocalRequest(cobradorId: string, nombre: string, dni: string, token: string, env: Env): BuildRequest {
    BuildRequest(cobradorId, nombre, token, Some(dni), OrElse(env.supabaseUrl, ""), OrElse(env.supabaseAnonKey, ""))
  }

  /** `GitHub Actions workflow: <id>`, the log line the status route reads
      the run id back from. */
  function WorkflowLog(id: nat): (r: string)
    ensures OccursAt(r, WorkflowLogPrefix, 0)
  {
    WorkflowLogPrefix + NatToString(id)
  }

  /** `githubError.message`: a thrown value that is no `Error` has none. */
  function ThrownMessage(t: Thrown): string {
    if t.ErrorObject? then t.message else "undefined"
  }

  /** The combined message when both methods fail; it holds both causes. */
  function CombinedError(local: string, github: string): (r: string)
    ensures OccursAt(r, local, 7) && EndsWith(r, github)
    ensures OccursAt(r, "Local: ", 0)
    ensures OccursAt(r, ", GitHub: ", 7 + |local|) && |r| == 7 + |local| + 10 + |github|
  {
    var r := "Local: " + local + ", GitHub: " + github;
    assert r[7..7 + |local|] == local;
    assert r[7 + |local|..7 + |local| + 10] == ", GitHub: ";
    assert r[|r| - |github|..] == github;
    r
  }

  /** What the fallback gets from `triggerBuild`. */
  function Remote(env: Env, dispatchReply: Outcome<()>, runsReply: Outcome<seq<Run>>): Outcome<Run> {
    if Truthy(env.githubToken) then TriggerResult(dispatchReply, runsReply)
    else Threw(ErrorObject(NotConfiguredTriggerMessage))
  }

  /** The build record once the route is done with it. */
  function FinalRow(local: Result<string>, remote: Outcome<Run>, buildTime: int, endTime: int): (r: BuildRow)
    ensures r.estado == "completed" <==> local.Ok?
    ensures r.estado == "building" <==> local.Err? && remote.Returned?
    ensures r.estado == "failed" <==> local.Err? && remote.Threw?
    ensures r.metodo == "github" <==> local.Err? && remote.Returned?
    ensures r.apkUrl.None?
    ensures r.errorMensaje.Some? <==> local.Err? && remote.Threw?
    ensures local.Err? && remote.Threw? ==>
              OccursAt(r.errorMensaje.value, local.message, 7)
              && EndsWith(r.errorMensaje.value, ThrownMessage(remote.thrown))
    ensures r.logBuild.Some? <==> local.Err? && remote.Returned?
    ensures r.fechaFin == Some(endTime)
  {
    match local
    case Ok(_) => BuildRow("completed", "local", None, None, None, Some(endTime), Some(buildTime))
    case Err(m) =>
      match remote
      case Returned(run) => BuildRow("building", "github", None, None, Some(WorkflowLog(run.id)), Some(endTime), None)
      case Threw(t) => BuildRow("failed", "local", None, Some(CombinedError(m, ThrownMessage(t))), None, Some(endTime), None)
  }

  /** The `(estado, metodo)` pairs the record goes through: after a local
      failure it is `failed` and then, with the fallback, `building` again. */
  function FinalHistory(local: Result<string>, remote: Outcome<Run>): (h: seq<(string, string)>)
    ensures |h| >= 3 && h[0] == ("pending", "local") && h[1] == ("building", "local")
    ensures local.Ok? <==> |h| == 3
    ensures local.Err? ==> |h| == 4 && h[2] == ("failed", "local")
    ensures h[|h| - 1] == (FinalRow(local, remote, 0, 0).estado, FinalRow(local, remote, 0, 0).metodo)
  {
    var start := [("pending", "local"), ("building", "local")];
    match local
    case Ok(_) => start + [("completed", "local")]
    case Err(_) =>
      start + [("failed", "local")]
      + (if remote.Returned? then [("building", "github")] else [("failed", "local")])
  }

  /** The answer once the record is settled: 200 with `metodo: local` or
      `metodo: github`, or 500 with both causes, which are the ones the
      record's combined error holds. */
  function Response(buildId: string, cobradorId: string, local: Result<string>, remote: Outcome<Run>,
                    buildTime: int): (r: GenerateResponse)
    ensures StatusCode(r) == 200 <==> local.Ok? || remote.Returned?
    ensures StatusCode(r) == 500 <==> local.Err? && remote.Threw?
    ensures local.Ok? ==> r == LocalBuilt(buildId, cobradorId, buildTime)
    ensures local.Err? && remote.Returned? ==> r == GitHubStarted(buildId, cobradorId, remote.value.id)
    ensures local.Err? && remote.Threw? ==> r == BothFailed(local.message, ThrownMessage(remote.thrown))
    ensures r.GitHubStarted? ==> FinalRow(local, remote, buildTime, 0).logBuild == Some(WorkflowLog(r.workflowId))
    ensures r.BothFailed? ==> FinalRow(local, remote, buildTime, 0).errorMensaje == Some(CombinedError(r.local, r.github))
  {
    match local
    case Ok(_) => LocalBuilt(buildId, cobradorId, buildTime)
    case Err(m) =>
      match remote
      case Returned(run) => GitHubStarted(buildId, cobradorId, run.id)
      case Threw(t) => BothFailed(m, ThrownMessage(t))
  }

  /** Steps 5 and 6 of the route on a fresh record: `building`, the local
      builder, then either `completed` with a success metric, or `failed`
      with a failure metric followed by exactly one `triggerBuild` and the
      record handed to GitHub (`building`, `github`, the workflow log line,
      no error) or failed with both causes. */
  method RunBuild(db: Db, rec: BuildRecord, builder: APKBuilder, gh: GitHubActionsBuilder, env: Env,
                  req: BuildRequest, credencialesJson: string, generatedAt: string,
                  startTime: int, endTime: int, dispatchReply: Outcome<()>, runsReply: Outcome<seq<Run>>)
    returns (resp: GenerateResponse)
    requires builder.Valid()
    requires rec.Row() == BuildRow("pending", "local", None, None, None, None, None)
    requires rec.history == [("pending", "local")]
    requires (gh.octokit != null) == Truthy(env.githubToken)
    modifies db, rec, builder.fs, gh.octokit
    ensures db.cobradores == old(db.cobradores) && db.builds == old(db.builds)
    ensures var local := Build(old(builder.fs.nodes), builder.cwd, req, env.nextAuthUrl, generatedAt, startTime);
            var remote := Remote(env, dispatchReply, runsReply);
            && builder.fs.nodes == local.nodes
            && rec.Row() == FinalRow(local.result, remote, endTime - startTime, endTime)
            && rec.history == FinalHistory(local.result, remote)
            && db.metrics == old(db.metrics) + [Metric("local", if local.result.Ok? then endTime - startTime else 0,
                                                       endTime, local.result.Ok?)]
            && resp == Response(rec.id, req.cobradorId, local.result, remote, endTime - startTime)
            && (gh.octokit != null ==>
                  gh.octokit.requests == old(gh.octokit.requests)
                    + (if local.result.Ok? then []
                       else TriggerRequests(gh.owner, gh.repo, req.cobradorId, req.nombre, req.token,
                                            credencialesJson, dispatchReply)))
  {
    rec.Update(NoChange.(estado := Write("building")));
    var result := builder.BuildAPK(req, env.nextAuthUrl, generatedAt, startTime);
    var buildTime := endTime - startTime;
    if result.Ok? {
      resp := LocalSucceeded(db, rec, req.cobradorId, result.value, buildTime, endTime);
      return;
    }
    resp := Fallback(db, rec, gh, env, req, result.message, credencialesJson, endTime, dispatchReply, runsReply);
  }

  /** Step 5 when the local builder returned `path`: the record is
      completed and a success metric is written. */
  method LocalSucceeded(db: Db, rec: BuildRecord, cobradorId: string, path: string,
                        buildTime: int, endTime: int)
    returns (resp: GenerateResponse)
    requires rec.Row() == BuildRow("building", "local", None, None, None, None, None)
    requires rec.history == [("pending", "local"), ("building", "local")]
    modifies db, rec
    ensures db.cobradores == old(db.cobradores) && db.builds == old(db.builds)
    ensures db.metrics == old(db.metrics) + [Metric("local", buildTime, endTime, true)]
    ensures forall remote: Outcome<Run> ::
              rec.Row() == FinalRow(Ok(path), remote, buildTime, endTime)
              && rec.history == FinalHistory(Ok(path), remote)
              && resp == Response(rec.id, cobradorId, Ok(path), remote, buildTime)
  {
    // `apkResult.path` of the returned string is undefined: apk_url is not
    // written, and the collector update has no column left to write.
    rec.Update(NoChange.(estado := Write("completed"), fechaFin := Write(Some(endTime)),
                         tiempoBuild := Write(Some(buildTime))));
    db.metrics := db.metrics + [Metric("local", buildTime, endTime, true)];
    resp := LocalBuilt(rec.id, cobradorId, buildTime);
  }

  /** Step 6, after the local builder failed with `localMessage`. */
  method Fallback(db: Db, rec: BuildRecord, gh: GitHubActionsBuilder, env: Env, req: BuildRequest,
                  localMessage: string, credencialesJson: string, endTime: int,
                  dispatchReply: Outcome<()>, runsReply: Outcome<seq<Run>>)
    returns (resp: GenerateResponse)
    requires rec.Row() == BuildRow("building", "local", None, None, None, None, None)
    requires rec.history == [("pending", "local"), ("building", "local")]
    requires (gh.octokit != null) == Truthy(env.githubToken)
    modifies db, rec, gh.octokit
    ensures db.cobradores == old(db.cobradores) && db.builds == old(db.builds)
    ensures var remote := Remote(env, dispatchReply, runsReply);
            && rec.Row() == FinalRow(Err(localMessage), remote, 0, endTime)
            && rec.history == FinalHistory(Err(localMessage), remote)
            && db.metrics == old(db.metrics) + [Metric("local", 0, endTime, false)]
            && resp == Response(rec.id, req.cobradorId, Err(localMessage), remote, 0)
            && (gh.octokit != null ==>
                  gh.octokit.requests == old(gh.octokit.requests)
                    + TriggerRequests(gh.owner, gh.repo, req.cobradorId, req.nombre, req.token,
                                      credencialesJson, dispatchReply))
  {
    rec.Update(NoChange.(estado := Write("failed"), errorMensaje := Write(Some(localMessage)),
                         fechaFin := Write(Some(endTime))));
    db.metrics := db.metrics + [Metric("local", 0, endTime, false)];
    var run := gh.TriggerBuild(req.cobradorId, req.nombre, req.token, credencialesJson, dispatchReply, runsReply);
    resp := RecordRemote(rec, req.cobradorId, localMessage, endTime, run);
  }

  /** The end of step 6: the record is handed to GitHub when the trigger
      returned a run, and failed with both causes when it threw. */
  method RecordRemote(rec: BuildRecord, cobradorId: string, localMessage: string, endTime: int,
                      run: Outcome<Run>)
    returns (resp: GenerateResponse)
    requires rec.Row() == BuildRow("failed", "local", None, Some(localMessage), None, Some(endTime), None)
    requires rec.history == [("pending", "local"), ("building", "local"), ("failed", "local")]
    modifies rec
    ensures rec.Row() == FinalRow(Err(localMessage), run, 0, endTime)
    ensures rec.history == FinalHistory(Err(localMessage), run)
    ensures resp == Response(rec.id, cobradorId, Err(localMessage), run, 0)
  {
    if run.Returned? {
      rec.Update(NoChange.(estado := Write("building"), metodo := Write("github"),
                           logBuild := Write(Some(WorkflowLog(run.value.id))), errorMensaje := Write(None)));
      return GitHubStarted(rec.id, cobradorId, run.value.id);
    }
    var githubMessage := ThrownMessage(run.thrown);
    rec.Update(NoChange.(estado := Write("failed"),
                         errorMensaje := Write(Some(CombinedError(localMessage, githubMessage)))));
    resp := BothFailed(localMessage, githubMessage);
  }

  /** The whole route. A rejected request changes nothing; a failed insert
      stops the route where it happened; otherwise the new collector and
      its build record are stored and the record ends as `RunBuild` leaves
      it. */
  method Post(db: Db, body: GenerateBody, env: Env, token: string, newCobradorId: string, newBuildId: string,
              cobradorInsertError: Option<DbError>, buildInsertError: Option<DbError>,
              builder: APKBuilder, credencialesJson: string, generatedAt: string,
              startTime: int, endTime: int, dispatchReply: Outcome<()>, runsReply: Outcome<seq<Run>>)
    returns (resp: GenerateResponse)
    requires builder.Valid()
    requires newCobradorId !in db.cobradores && newBuildId !in db.builds
    modifies db, builder.fs
    ensures Validate(body, old(db.cobradores)).Some? ==>
              resp == BadRequest(Validate(body, old(db.cobradores)).value)
              && db.cobradores == old(db.cobradores) && db.builds == old(db.builds)
              && db.metrics == old(db.metrics) && builder.fs.nodes == old(builder.fs.nodes)
    ensures Validate(body, old(db.cobradores)).None? && cobradorInsertError.Some? ==>
              resp == CobradorInsertFailed(cobradorInsertError.value)
              && db.cobradores == old(db.cobradores) && db.builds == old(db.builds)
              && db.metrics == old(db.metrics) && builder.fs.nodes == old(builder.fs.nodes)
    ensures Validate(body, old(db.cobradores)).None? && cobradorInsertError.None? ==>
              db.cobradores == old(db.cobradores)[newCobradorId :=
                NewCobrador(newCobradorId, body.nombre.value, body.dni.value, body.telefono.value, body.email, token, env)]
    ensures Validate(body, old(db.cobradores)).None? && cobradorInsertError.None? && buildInsertError.Some? ==>
              resp == BuildInsertFailed && db.builds == old(db.builds)
              && db.metrics == old(db.metrics) && builder.fs.nodes == old(builder.fs.nodes)
    ensures Validate(body, old(db.cobradores)).None? && cobradorInsertError.None? && buildInsertError.None? ==>
              var req := LocalRequest(newCobradorId, body.nombre.value, body.dni.value, token, env);
              var local := Build(old(builder.fs.nodes), builder.cwd, req, env.nextAuthUrl, generatedAt, startTime);
              var remote := Remote(env, dispatchReply, runsReply);
              && newBuildId in db.builds && fresh(db.builds[newBuildId])
              && db.builds == old(db.builds)[newBuildId := db.builds[newBuildId]]
              && db.builds[newBuildId].cobradorId == newCobradorId
              && db.builds[newBuildId].Row() == FinalRow(local.result, remote, endTime - startTime, endTime)
              && db.builds[newBuildId].history == FinalHistory(local.result, remote)
              && resp == Response(newBuildId, newCobradorId, local.result, remote, endTime - startTime)
              && builder.fs.nodes == local.nodes
              && db.metrics == old(db.metrics) + [Metric("local", if local.result.Ok? then endTime - startTime else 0,
                                                         endTime, local.result.Ok?)]
  {
    var invalid := Validate(body, db.cobradores);
    if invalid.Some? {
      return BadRequest(invalid.value);
    }
    var nombre, dni, telefono := body.nombre.value, body.dni.value, body.telefono.value;
    if cobradorInsertError.Some? {
      return CobradorInsertFailed(cobradorInsertError.value);
    }
    db.cobradores := db.cobradores[newCobradorId := NewCobrador(newCobradorId, nombre, dni, telefono, body.email, token, env)];
    if buildInsertError.Some? {
      return BuildInsertFailed;
    }
    var rec := new BuildRecord(newBuildId, newCobradorId, "pending", "local");
    db.builds := db.builds[newBuildId := rec];
    var gh := new GitHubActionsBuilder(env);
    resp := RunBuild(db, rec, builder, gh, env, LocalRequest(newCobradorId, nombre, dni, token, env),
                     credencialesJson, generatedAt, startTime, endTime, dispatchReply, runsReply);
  }
}
