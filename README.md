# APK provisioning pipeline of the admin web app, in Dafny

The admin web app registers debt collectors ("cobradores") and gives each one
a personalised Android APK that logs them in automatically. This project
models the parts of that pipeline that make decisions and proves properties
about them:

- **Credential embedder** (`config_modifier.dfy`, `archive.dfy`,
  `app_config.dfy`). An APK is an archive, modelled as a sequence of named
  entries. `modifyAPK` writes the configuration document into
  `assets/flutter_assets/assets/config/app_config.json`. It adds the entry
  when it is missing and updates it otherwise, then copies every entry into a
  fresh archive. When the entry was missing it is added once more; the
  library's `addFile` replaces the data of an existing entry, so it still
  appears once. `verifyAPKStructure` and `extractConfig` read the entry back.
  The JSON document is a fixed-order serialisation with a parser, and the
  round trip is proved both ways.
- **Local builder** (`builder.dfy`). `APKBuilder` works over a file-system
  object whose map from paths to nodes is updated in place. `buildAPK` checks
  the base APK, creates the output directory and copies the base APK to
  `temp.apk`. It embeds the credentials only when the structure check passes,
  then renames the copy to `APK_<sanitised name>_v1.apk`. `cleanup` deletes
  old `.apk` files collector directory by collector directory. `checkTools`
  tests for the keystore.
- **Signing builder** (`builder_full.dfy`). `APKBuilderFull` is modelled only
  for where it puts files and what its smaller configuration document holds.
- **GitHub Actions client** (`github_actions.dfy`). The Octokit client is a
  nullable object that records the requests sent to it. The remote answers
  are parameters. `triggerBuild` and `checkStatus` are methods proved against
  functions of those answers. The development mock is modelled too.
- **Generate route** (`generate_route.dfy`, `tables.dfy`). The database is an
  object holding the collector table, the build table (one updatable record
  object per build) and the metrics. The route validates the request, inserts
  the collector and its build record, runs the local builder, and falls back
  to GitHub. Each build record keeps a ghost history of its
  `(estado, metodo)` values.
- **Status route** (`status_route.dfy`). It reads the run id back from the
  build log, polls the run, and records the outcome on the build and on the
  collector. It then reports progress.
- **Download route** (`download_route.dfy`). GET resolves the APK's path and
  builds the download headers. POST picks the latest completed build.
- **Collector list, token validation and dashboard helpers**
  (`cobradores_route.dfy`, `validate_token.dfy`, `utils.dfy`).
- **Maintenance scripts** (`fix_typescript.dfy`, `apk_integrity.dfy`). These
  are the first-occurrence text patcher and the APK integrity report.

Several behaviours are modelled as the code has them:

- **The local-build result is never stored.** `buildAPK` returns a string,
  and the generate route stores its `.path` and `.version`, which are
  undefined. The database client drops undefined columns. So after a local
  success `apk_url` is written neither on the build nor on the collector.
  `DownloadRoute.LocallyBuiltRecordIsUnavailable` proves the consequence: a
  download by build id answers "APK no disponible".
- **`failed` is not final.** After a local failure the route writes `failed`,
  then moves the record back to `building` with method `github` when the
  trigger succeeds.
- **A failed local attempt's metric records a build time of 0.** The code
  computes `Date.now() - Date.now()`.
- **The not-configured message is the code's own.** When GitHub is not
  configured, the combined error holds that message, `GitHub Actions no
  configurado. Establece GITHUB_TOKEN en .env`.

Remote answers, clock readings, random values, generated tokens and database
write failures are parameters. Identifiers of new rows are parameters too.

## Model

| member | source | states |
|---|---|---|
| Common.ParseInt | admin-web/lib/github/actions.ts:154 | for texts of decimal digits and texts not starting with whitespace, a sign or a digit: a number exactly when the text starts with a decimal digit (whitespace, signs and `0x` are under Left out) |
| Common.ParseIntOfNatToString | admin-web/lib/github/actions.ts:92 | reading back a printed run id gives the id |
| Archive.Lookup | admin-web/lib/apk/config-modifier.ts:42 | `getEntry` finds data exactly when some entry has that name, and the data is that entry's |
| Archive.Put | admin-web/lib/apk/config-modifier.ts:43-50 | create-or-replace keeps the names (appending a new one at the end) and keeps names unique |
| Archive.LookupPut | admin-web/lib/apk/config-modifier.ts:46-49 | after writing an entry, it reads back as the data written |
| Archive.LookupPutOther | admin-web/lib/apk/config-modifier.ts:57-65 | writing one entry leaves every other entry's data as it was |
| Archive.OthersPut | admin-web/lib/apk/config-modifier.ts:57-65 | writing one entry keeps the other entries, their data and their order |
| Archive.PutFresh | admin-web/lib/apk/config-modifier.ts:46 | a missing entry is appended at the end |
| Archive.PutSame | admin-web/lib/apk/config-modifier.ts:68-70 | writing the data an entry already holds changes nothing |
| Archive.PutTwice | admin-web/lib/apk/config-modifier.ts:68-70 | adding the configuration entry a second time changes nothing |
| Archive.ZipArchive.Open | admin-web/lib/apk/config-modifier.ts:23 | an opened archive holds the file's entries |
| Archive.ZipArchive.Empty | admin-web/lib/apk/config-modifier.ts:53 | a new archive holds no entries |
| Archive.ZipArchive.AddFile | admin-web/lib/apk/config-modifier.ts:46 | `addFile` creates or replaces the entry in place |
| Archive.ZipArchive.UpdateFile | admin-web/lib/apk/config-modifier.ts:49 | `updateFile` replaces an existing entry and ignores a missing one |
| AppConfigCodec.Serialize | admin-web/lib/apk/config-modifier.ts:46 | the text opens with the `cobrador_token` member and closes with `}` |
| AppConfigCodec.Parse | admin-web/lib/apk/config-modifier.ts:122 | only a text opening with the `cobrador_token` member is accepted (its full converse is `SerializeParse`) |
| AppConfigCodec.ParseSerialize | admin-web/lib/apk/config-modifier.ts:46 | parsing the serialised document gives the document back |
| AppConfigCodec.SerializeParse | admin-web/lib/apk/config-modifier.ts:121-122 | text the parser accepts is exactly the serialisation of what it returns |
| AppConfigCodec.FromToBytes | admin-web/lib/apk/config-modifier.ts:121 | reading the bytes of a text as text gives the text back |
| AppConfigCodec.DecodeEncode | admin-web/lib/apk/config-modifier.ts:122 | decoding the stored bytes gives the document that was encoded |
| ConfigModifier.VerifyAPKStructure | admin-web/lib/apk/config-modifier.ts:86-107 | true exactly when the file is a readable archive with an entry at the configuration path; never fails |
| ConfigModifier.ExtractConfig | admin-web/lib/apk/config-modifier.ts:112-128 | a document is returned only when the structure check passes, and it is what the entry's text parses to; conversely, an archive whose configuration entry parses in the embedded layout yields exactly that document |
| ConfigModifier.ModifyAPK | admin-web/lib/apk/config-modifier.ts:9-81 | succeeds exactly on a readable archive, with the create-or-replace result; otherwise fails with `Error modificando APK: ` and the cause |
| ConfigModifier.CopyEntries | admin-web/lib/apk/config-modifier.ts:53-65 | the copy loop rebuilds the archive entry for entry, in order |
| ConfigModifier.CopyEntry | admin-web/lib/apk/config-modifier.ts:57-64 | one iteration appends the entry, with the new document for the configuration entry, which already held it |
| ConfigModifier.ModifyCreatesOrReplaces | admin-web/lib/apk/config-modifier.ts:42-70 | after modifying, the structure check passes, the names are the old ones (plus the entry at the end if it was missing), and other entries are untouched |
| ConfigModifier.ExtractAfterModify | admin-web/lib/apk/config-modifier.ts:29-39 | the embedded document reads back with the five credentials, auto-login on and version 1.0.0 |
| ConfigModifier.ExtractWithoutEntry | admin-web/lib/apk/config-modifier.ts:115-119 | without the entry nothing is extracted |
| Builder.StripWhitespace | admin-web/lib/apk/builder.ts:36 | the first pass leaves no whitespace |
| Builder.KeepAlnum | admin-web/lib/apk/builder.ts:36 | the second pass leaves only ASCII letters and digits |
| Builder.SanitizeIsKeepAlnum | admin-web/lib/apk/builder.ts:36 | the two passes equal the second pass alone |
| Builder.KeepAlnumOfAlnum | admin-web/lib/apk/builder.ts:36 | a name of letters and digits passes unchanged |
| Builder.SanitizeProperties | admin-web/lib/apk/builder.ts:36 | the sanitised name is alphanumeric, idempotent, and the identity on alphanumeric names |
| Builder.ArtifactNameIsNotTemp | admin-web/lib/apk/builder.ts:37-43 | the final name never collides with `temp.apk` |
| Builder.FileSystem.constructor | admin-web/lib/apk/builder.ts:10-13 | the file system starts with the given nodes |
| Builder.FileSystem.Mkdirp | admin-web/lib/apk/builder.ts:32 | `mkdir -p` fails exactly when a file is in the way, and otherwise creates the missing directories |
| Builder.FileSystem.CopyFile | admin-web/lib/apk/builder.ts:44 | `copyFile` fails on a missing or non-file source or a missing parent, and otherwise writes the source's content |
| Builder.FileSystem.WriteFile | admin-web/lib/apk/config-modifier.ts:73 | `writeZip` replaces the file's content |
| Builder.FileSystem.Rename | admin-web/lib/apk/builder.ts:68 | `rename` moves the node, or fails and changes nothing |
| Builder.FileSystem.Unlink | admin-web/lib/apk/builder.ts:113 | `unlink` removes a file and fails on a directory |
| Builder.FileSystem.Readdir | admin-web/lib/apk/builder.ts:98 | `readdir` succeeds exactly on a directory and lists each child once |
| Builder.RenderArtifactPath | admin-web/lib/apk/builder.ts:73 | the returned path reads `storage/generated/<id>/APK_<name>_v1.apk` |
| Builder.APKBuilder.constructor | admin-web/lib/apk/builder.ts:10-13 | the base APK, output directory and keystore paths sit under the working directory |
| Builder.Build | admin-web/lib/apk/builder.ts:15-79 | without the base APK it fails with its message and changes nothing; afterwards the first failing `mkdir`, `copyFile` or `rename` passes on its own error, with the disk as that call left it; it succeeds exactly when the rename goes through, and a success returns the artifact's relative path |
| Builder.APKBuilder.BuildAPK | admin-web/lib/apk/builder.ts:15-79 | the result and the new file system are those of the `Build` specification on the old file system |
| Builder.APKBuilder.CopyEmbedRename | admin-web/lib/apk/builder.ts:40-73 | copy, embed and rename leave the disk and result that `CopyAndRename` describes |
| Builder.APKBuilder.Embed | admin-web/lib/apk/builder.ts:47-65 | the copy is replaced by the embedded archive exactly when the structure check passes |
| Builder.APKBuilder.RenameArtifact | admin-web/lib/apk/builder.ts:67-73 | `temp.apk` becomes the artifact, or the rename error is returned and nothing changes |
| Builder.APKBuilder.Cleanup | admin-web/lib/apk/builder.ts:93-122 | without an output directory it fails and deletes nothing; otherwise it deletes exactly the stale `.apk` files and returns their count, or fails having deleted only stale ones |
| Builder.APKBuilder.SweepCollector | admin-web/lib/apk/builder.ts:100-119 | one outer iteration deletes exactly that collector's stale files |
| Builder.APKBuilder.SweepDir | admin-web/lib/apk/builder.ts:105-117 | the inner loop deletes exactly the directory's stale `.apk` files |
| Builder.APKBuilder.SweepFile | admin-web/lib/apk/builder.ts:107-116 | one file is removed exactly when it ends in `.apk` and is older than the limit |
| Builder.APKBuilder.CheckTools | admin-web/lib/apk/builder.ts:82-90 | true exactly when the keystore exists |
| Builder.BuildNeedsBaseApk | admin-web/lib/apk/builder.ts:26-28 | without the base APK the build fails with its message and changes nothing |
| Builder.TempDiffersFromBase | admin-web/lib/apk/builder.ts:43-44 | the temporary copy never overwrites the base APK |
| Builder.BuildSucceeds | admin-web/lib/apk/builder.ts:26-73 | the build returns the artifact's relative path whenever the base APK is a file, no file stands on the output directory's path, and no directory takes the names `temp.apk` or the artifact's |
| Builder.BuildSuccess | admin-web/lib/apk/builder.ts:36-73 | a successful build returns the artifact path; the artifact holds the final content; the temporary copy is gone |
| Builder.BuildEmbedsCredentials | admin-web/lib/apk/builder.ts:50-65 | the artifact carries the credentials (identity number defaulting to `N/A`) when the structure check passed, and is the base APK's bytes otherwise |
| Builder.BuildTouchesOnlyItsPaths | admin-web/lib/apk/builder.ts:31-68 | a build changes no existing path other than the temporary copy and the artifact |
| Builder.Stale | admin-web/lib/apk/builder.ts:93-122 | the paths a sweep deletes are existing files older than the limit |
| Builder.StaleAreAgedApks | admin-web/lib/apk/builder.ts:100-116 | a stale path is an `.apk` file directly inside a collector's directory of the output directory, older than the limit |
| Builder.CleanupIdempotent | admin-web/lib/apk/builder.ts:93-122 | after a complete sweep nothing is stale any more |
| Builder.CleanupSecondRunDeletesNothing | admin-web/lib/apk/builder.ts:93-122 | after a sweep the blocking directories are the same and nothing is stale, so a second `cleanup` that follows a successful one deletes 0 files |
| BuilderFull.FullConfigAgreesWithEmbedded | admin-web/lib/apk/builder.ts:146-154 | the signing builder embeds the same token, name, keys, auto-login and version, but a raw identity number |
| BuilderFull.FullConfigEntryIsElsewhere | admin-web/lib/apk/builder.ts:144 | its configuration entry is not the one the app and `extractConfig` read |
| BuilderFull.FullPathsOf | admin-web/lib/apk/builder.ts:136-165 | the temporary folder, unsigned and signed files all sit in the collector's directory; the signed one has the plain builder's name |
| BuilderFull.CleanupSparesSigned | admin-web/lib/apk/builder.ts:169-171 | removing the temporary folder and the unsigned file never removes the signed APK |
| BuilderFull.ReturnedPathMatchesPlainBuilder | admin-web/lib/apk/builder.ts:173 | the returned relative path is the plain builder's |
| GitHubActions.GitHubApi.constructor | admin-web/lib/github/actions.ts:11-13 | a new client has sent nothing |
| GitHubActions.GitHubApi.Send | admin-web/lib/github/actions.ts:33-55 | each request is recorded, and its answer is the remote's |
| GitHubActions.FirstApkArtifact | admin-web/lib/github/actions.ts:104 | `find` gives the first artifact whose name contains `.apk`, or none |
| GitHubActions.StatusOf | admin-web/lib/github/actions.ts:73-133 | unconfigured and in-progress cases; completed exactly on a finished run; success exactly for a finished successful run whose artifacts were listed, with the URL of the first `.apk` artifact (when non-empty); a finished unsuccessful run reports `Workflow falló: ` and its conclusion; a thrown run or artifacts request reports the thrown message |
| GitHubActions.GitHubActionsBuilder.constructor | admin-web/lib/github/actions.ts:8-18 | a client exists exactly when a token is set; owner and repository fall back to their defaults |
| GitHubActions.GitHubActionsBuilder.IsConfigured | admin-web/lib/github/actions.ts:136-138 | true exactly when a client exists; the constructor's contract makes that exactly when a token was set |
| GitHubActions.GitHubActionsBuilder.TriggerBuild | admin-web/lib/github/actions.ts:20-71 | throws before any request without a client; otherwise yields `TriggerResult` and sends exactly `TriggerRequests` |
| GitHubActions.GitHubActionsBuilder.CheckStatus | admin-web/lib/github/actions.ts:73-133 | yields `StatusOf` and sends exactly `StatusRequests` |
| GitHubActions.TriggerResult | admin-web/lib/github/actions.ts:31-70 | a run is returned exactly when both requests succeed and one run is listed, and it is the first; an empty listing throws `No se pudo obtener el workflow run`; a failed dispatch or listing request rethrows its own error unchanged |
| GitHubActions.TriggerRequests | admin-web/lib/github/actions.ts:33-55 | the dispatch carries the four inputs; the listing follows only a successful dispatch |
| GitHubActions.StatusRequests | admin-web/lib/github/actions.ts:89-102 | artifacts are requested exactly for a run that finished successfully |
| GitHubActions.SuccessCarriesFirstApkUrl | admin-web/lib/github/actions.ts:104-110 | a successful run reports the first `.apk` artifact's URL |
| GitHubActions.MockTriggerBuild | admin-web/lib/github/actions.ts:143-149 | the mock run has the drawn id and the fixed URL |
| GitHubActions.MockCheckStatus | admin-web/lib/github/actions.ts:151-168 | the mock completes successfully exactly when more than 10 s passed since the time in the id |
| GitHubActions.MockThreshold | admin-web/lib/github/actions.ts:156 | at exactly 10 s the mock is not done; one millisecond later it is |
| GitHubActions.MockIsConfigured | admin-web/lib/github/actions.ts:170-172 | the mock reports itself unconfigured |
| Tables.Apply | admin-web/app/api/apk/generate/route.ts:113-121 | for each of the seven columns: a written column takes the update's value, a kept column keeps the row's value |
| Tables.BuildRecord.constructor | admin-web/app/api/apk/generate/route.ts:73-81 | a new build record is `pending`/`local` with nothing else set |
| Tables.BuildRecord.Update | admin-web/app/api/apk/generate/route.ts:95-98 | an update changes the row as `Apply` says and records the new state |
| Tables.Db.constructor | admin-web/app/api/apk/generate/route.ts:18 | the database holds the given tables |
| GenerateRoute.StatusCode | admin-web/app/api/apk/generate/route.ts:144-228 | 200 exactly for a local or GitHub start; 400 exactly for a rejected request; 500 exactly for a failed collector insert, a failed build insert or both build methods failing |
| GenerateRoute.NewCobrador | admin-web/app/api/apk/generate/route.ts:47-58 | the inserted collector keeps the request's name, number, phone and email, holds the token, carries embedded credentials with the token, name, number, Supabase URL and key, `auto_login` true and version `1.0.0`, is `activo` in zone `Sin asignar`, and has no APK, version, connection or build count |
| GenerateRoute.Validate | admin-web/app/api/apk/generate/route.ts:12-31 | the request passes exactly when name, identity number and phone are set and the number is not taken |
| GenerateRoute.WorkflowLog | admin-web/app/api/apk/generate/route.ts:197 | the log line starts with `GitHub Actions workflow: ` |
| GenerateRoute.CombinedError | admin-web/app/api/apk/generate/route.ts:218 | the combined message is `Local: `, the local cause, `, GitHub: ` and the GitHub cause, in that order and nothing else |
| GenerateRoute.FinalRow | admin-web/app/api/apk/generate/route.ts:112-220 | the final state is `completed`, `building` with `github`, or `failed` exactly per the outcomes, with the matching log and error, and no URL |
| GenerateRoute.FinalHistory | admin-web/app/api/apk/generate/route.ts:77-217 | the record goes pending, building, then completed; or failed, then building/github or failed |
| GenerateRoute.RunBuild | admin-web/app/api/apk/generate/route.ts:93-230 | the file system, record, metrics, response and GitHub requests are those of the build and trigger outcomes |
| GenerateRoute.LocalSucceeded | admin-web/app/api/apk/generate/route.ts:112-150 | a local success completes the record with end and build time, no URL, and a success metric |
| GenerateRoute.Fallback | admin-web/app/api/apk/generate/route.ts:155-230 | after a local failure: a failure metric, exactly one trigger, then the hand-over or the combined failure |
| GenerateRoute.RecordRemote | admin-web/app/api/apk/generate/route.ts:190-228 | a returned run hands the record to GitHub with its log line; a thrown trigger fails it with both causes |
| GenerateRoute.Response | admin-web/app/api/apk/generate/route.ts:144-228 | 200 exactly when the local build or the GitHub trigger succeeded; 500 exactly when both failed; a local success answers with the build, collector and build time; a GitHub start with the run id, the same id the record's log line carries; a double failure with the local and GitHub messages, the same two causes the record's combined error holds |
| GenerateRoute.Post | admin-web/app/api/apk/generate/route.ts:6-238 | a rejected request or failed insert stops with nothing further changed; otherwise the collector and a fresh record are stored, the record ends as `FinalRow` says, the file system is the local build's, exactly one metric row is appended with `exitoso` the local build's success, and the answer is `Response` |
| StatusRoute.MatchAt | admin-web/app/api/apk/status/route.ts:48 | a match is the prefix followed by a non-empty digit run |
| StatusRoute.MatchIsMaximalDigitRun | admin-web/app/api/apk/status/route.ts:48 | a match exists exactly where the prefix is followed by a digit; its value is the maximal digit run after the prefix, as the greedy `(\d+)` takes it |
| StatusRoute.FirstMatchFrom | admin-web/app/api/apk/status/route.ts:48 | the leftmost match at or after the position, with no match before it; none exactly when no position matches |
| StatusRoute.ExtractWorkflowId | admin-web/app/api/apk/status/route.ts:48-50 | a run id is found only in a log, and it is a non-empty digit run |
| StatusRoute.ExtractIsLeftmostMatch | admin-web/app/api/apk/status/route.ts:48-50 | the id is the digits of the leftmost match in the log, and there is none exactly when no position matches |
| StatusRoute.WorkflowLogRoundTrip | admin-web/app/api/apk/status/route.ts:48-51 | the log line the generate route writes gives back its run id |
| StatusRoute.CalculateProgress | admin-web/app/api/apk/status/route.ts:123-132 | 100 exactly when completed; 50 for a local build, 30 for a remote one; 0 otherwise |
| StatusRoute.PollUpdate | admin-web/app/api/apk/status/route.ts:53-63 | nothing is written until the run completes; then state, end time and error are written, the URL only on a successful poll that carries one, and never the method, log or build time |
| StatusRoute.PolledRow | admin-web/app/api/apk/status/route.ts:53-68 | unchanged until the run completes; then completed exactly on success, with end time and error; a successful poll carrying a URL stores it, and otherwise the URL is kept |
| StatusRoute.PolledView | admin-web/app/api/apk/status/route.ts:81-84 | the reported copy takes the poll's URL and error as they are, and keeps the stored end time |
| StatusRoute.PolledCollectors | admin-web/app/api/apk/status/route.ts:70-79 | on success the collector gets version `v1` and the URL when there is one; nobody else changes |
| StatusRoute.Get | admin-web/app/api/apk/status/route.ts:5-121 | 400 and 404 change nothing; only a running GitHub build with a run id is polled, and only its record and collector change |
| StatusRoute.Poll | admin-web/app/api/apk/status/route.ts:43-84 | only a running GitHub build whose log names a run is polled; the build, collectors and reported row follow the poll |
| StatusRoute.Record | admin-web/app/api/apk/status/route.ts:53-79 | a completed run is written on the build and, on success, on its collector |
| StatusRoute.HandedOverRecordIsPolled | admin-web/app/api/apk/status/route.ts:43-51 | a record handed to GitHub is polled with its run id, and stays as it is at 30 percent while the run is not done |
| DownloadRoute.DownloadName | admin-web/app/api/apk/download/route.ts:37-61 | starts with `APK_` followed by the name with its whitespace removed (no whitespace from the name remains), then `_`, the collector's `apk_version` or `v1`, and `.apk` |
| DownloadRoute.Headers | admin-web/app/api/apk/download/route.ts:105-112 | six headers with distinct names; the disposition carries the file name, and the length reads back as the file size |
| DownloadRoute.ResolvePath | admin-web/app/api/apk/download/route.ts:72 | an absolute path is kept; a relative one is joined to the working directory |
| DownloadRoute.ResolveArtifactPath | admin-web/app/api/apk/download/route.ts:72 | the path the builder returns resolves to the file it wrote |
| DownloadRoute.DownloadNameMatchesArtifact | admin-web/app/api/apk/download/route.ts:36 | for a name of letters, digits and whitespace the download name is the artifact's name |
| DownloadRoute.DownloadNameDiffersOnPunctuation | admin-web/app/api/apk/download/route.ts:36 | a name with punctuation gets a download name different from the artifact's |
| DownloadRoute.Locate | admin-web/app/api/apk/download/route.ts:19-62 | the collector id takes precedence; an unknown id is a 404; a collector gives its `apk_url` and its download name; a build gives its own `apk_url`, named after its linked collector's download name, or `app.apk` without a collector |
| DownloadRoute.Download | admin-web/app/api/apk/download/route.ts:12-112 | 400 without ids; only 400 or 404 failures; a failed lookup answers 404 with its message, a record without APK path 404 `APK no disponible`; with a path, a stream exactly when the resolved file exists (404 `Archivo APK no encontrado en el servidor` otherwise), carrying the APK content type, the `attachment; filename="…"` disposition with the located name and the file's size as length |
| DownloadRoute.CollectorIdTakesPrecedence | admin-web/app/api/apk/download/route.ts:22-39 | with both ids given, the build id plays no part |
| DownloadRoute.LocallyBuiltRecordIsUnavailable | admin-web/app/api/apk/download/route.ts:65-69 | a record the local builder completed cannot be downloaded by build id |
| DownloadRoute.Get | admin-web/app/api/apk/download/route.ts:5-125 | the GET route answers as `Download` |
| DownloadRoute.Candidates | admin-web/app/api/apk/download/route.ts:154-162 | a build is a candidate exactly when it is completed and belongs to the collector, or, without a collector id, is the build with the id |
| DownloadRoute.LatestExists | admin-web/app/api/apk/download/route.ts:161-164 | some candidate is ranked first by the descending end-time order |
| DownloadRoute.InfoName | admin-web/app/api/apk/download/route.ts:189 | the name is `APK_undefined_v1.apk` without a collector, the download name otherwise |
| DownloadRoute.InfoOf | admin-web/app/api/apk/download/route.ts:173-201 | the file is reported present exactly when the URL is set and resolves to an existing file, with its size; the creation date is `fecha_fin`, method and build time are copied, and the collector summary holds its name, number and version exactly when a collector is linked |
| DownloadRoute.Post | admin-web/app/api/apk/download/route.ts:128-208 | 400 without ids; 404 exactly when no candidate; otherwise a latest candidate described by `InfoOf` |
| DownloadRoute.UnfinishedEndTimeRanksFirst | admin-web/app/api/apk/download/route.ts:162 | a completed build without an end time is chosen before any other |
| CobradoresRoute.DeterminarEstado | admin-web/app/api/cobradores/route.ts:47-63 | `sin_apk` exactly without version or URL; `online` exactly with an APK and a connection less than an hour ago |
| CobradoresRoute.FloorDiv | admin-web/app/api/cobradores/route.ts:73-75 | `Math.floor` of a quotient by a positive divisor |
| CobradoresRoute.FormatearFecha | admin-web/app/api/cobradores/route.ts:66-82 | `Nunca` without a date; minutes under an hour, hours under a day, days under 30 days; the locale date otherwise |
| CobradoresRoute.OnlineIffMinutesLabel | admin-web/app/api/cobradores/route.ts:52-77 | a collector with an APK is online exactly when its label counts minutes |
| CobradoresRoute.Format | admin-web/app/api/cobradores/route.ts:20-33 | the zone defaults to `Sin asignar`, the build count to 0, and the daily goal is 5000 |
| CobradoresRoute.List | admin-web/app/api/cobradores/route.ts:4-44 | a query error gives 500; otherwise every row is formatted, in order, with its draw of today's collections in 0..4999 |
| CobradoresRoute.Delete | admin-web/app/api/cobradores/route.ts:85-113 | without an id, 400 and nothing deleted; otherwise the collector and its builds go |
| ValidateToken.TokenHolders | admin-web/app/api/auth/validate-token/route.ts:19-23 | the collectors whose token matches |
| ValidateToken.ActiveHolders | admin-web/app/api/auth/validate-token/route.ts:97-102 | the matching collectors that are active |
| ValidateToken.PostOutcome | admin-web/app/api/auth/validate-token/route.ts:9-77 | token required exactly without a token; not found exactly unless one collector holds it; with one holder, accepted or disabled; disabled only for an inactive single holder, with its name, number and state; accepted only for a single holder whose `estado` is `activo`, with its id, name, number, phone and state |
| ValidateToken.Post | admin-web/app/api/auth/validate-token/route.ts:4-79 | answers `PostOutcome` (400 exactly without a token); an accepted collector gets its connection time, and nothing else changes |
| ValidateToken.Get | admin-web/app/api/auth/validate-token/route.ts:82-127 | 400 without a token; found exactly when one active collector holds it |
| ValidateToken.DisabledIsNotFoundByGet | admin-web/app/api/auth/validate-token/route.ts:97-109 | a single inactive holder is reported disabled by POST and is not found by GET |
| ValidateToken.ActiveSingleHolderAgrees | admin-web/app/api/auth/validate-token/route.ts:19-68 | a single active holder is accepted by POST with its fields, and is the single active match, which GET's contract turns into `Active` |
| ValidateToken.NewCollectorIsAccepted | admin-web/app/api/apk/generate/route.ts:47-58 | a collector just inserted with a token nobody else holds is accepted by POST and is GET's single active match |
| Utils.GetStatusColor | admin-web/lib/utils.ts:26-35 | the five keys map to their classes and anything else to the grey default |
| Utils.GetStatusLabel | admin-web/lib/utils.ts:37-46 | the five keys map to their labels and anything else to itself |
| Utils.ProximoHasDefaultColor | admin-web/lib/utils.ts:32-34 | `proximo` is drawn like an unknown status |
| Utils.DefaultColorOnlyForProximoOrUnknown | admin-web/lib/utils.ts:27-34 | the grey default appears exactly for `proximo` and unknown statuses |
| Utils.LabelIsStatusIffUnknown | admin-web/lib/utils.ts:38-45 | a status is shown as itself exactly when it is unknown |
| FixTypescript.ReplaceFirst | admin-web/fix-typescript-errors.js:143 | without an occurrence the text is unchanged; otherwise only the first occurrence is replaced |
| FixTypescript.ReplaceFirstUndone | admin-web/fix-typescript-errors.js:143 | replacing back restores the text when `to` cannot start earlier |
| FixTypescript.PatchWithoutMatchIsIdentity | admin-web/fix-typescript-errors.js:141-151 | when no replacement applies the text is unchanged, so not writing loses nothing |
| FixTypescript.FixedFiles | admin-web/fix-typescript-errors.js:136-155 | only the named file changes, to the patched text |
| FixTypescript.FixedAllTouchesOnlyListed | admin-web/fix-typescript-errors.js:157-163 | no file is created or deleted, and unlisted files keep their text |
| FixTypescript.Disk.FixFile | admin-web/fix-typescript-errors.js:136-155 | a missing file is skipped; the file is written exactly when some replacement applied |
| FixTypescript.Disk.FixAll | admin-web/fix-typescript-errors.js:160-163 | every listed file is attempted, whatever happened before |
| ApkIntegrity.Missing | admin-web/test-apk-integrity.js:34-46 | never longer than the wanted list (its contents and order are stated by the three lemmas below) |
| ApkIntegrity.MissingAppend | admin-web/test-apk-integrity.js:40-46 | the missing list of a concatenation is the missing list of each part, in order |
| ApkIntegrity.MissingSingle | admin-web/test-apk-integrity.js:40-46 | a single name is reported exactly when no entry has it |
| ApkIntegrity.MissingIff | admin-web/test-apk-integrity.js:40-46 | a name is missing exactly when it is critical and no entry has it |
| ApkIntegrity.NoneMissingIffAllPresent | admin-web/test-apk-integrity.js:48-52 | nothing is missing exactly when every critical name is present |
| ApkIntegrity.MissingFiles | admin-web/test-apk-integrity.js:40-46 | the push loop yields exactly the missing critical names, in list order |
| ApkIntegrity.TokenOf | admin-web/test-apk-integrity.js:59 | `Presente` exactly when the token is non-empty |
| ApkIntegrity.TestSingleAPK | admin-web/test-apk-integrity.js:17-69 | a missing path is reported before opening; an unreadable file is an error; otherwise the entry count, missing list, validity and token |
| ApkIntegrity.CriticalNamesKept | admin-web/test-apk-integrity.js:40-46 | embedding the configuration changes no critical file's presence |
| ApkIntegrity.GeneratedApkReport | admin-web/test-apk-integrity.js:34-59 | a generated APK keeps the base's critical entries and reports the embedded token |

## Left out

- Byte layout of ZIP files, compression and the ZIP library's internals: an archive is a list of named entries.
- JSON formatting (indentation), escapes beyond `"` and `\`, and UTF-8: text is stored one code point per unit.
- I/O failures other than the file-system checks modelled, `writeZip` failures, and the outer `catch` blocks that answer 500.
- Database errors other than the insert errors and the delete failure passed in, and the ordering of the collector view.
- `sleep`, the time-outs, logging and `console` output.
- `Date`/ISO and locale formatting: times are epoch milliseconds, and `toLocaleDateString` is left as a `LocaleDate` value.
- Randomness and token generation (`crypto.randomUUID`, `Math.random`): these are parameters.
- Signing with `apksigner`, `addFolderToZip` and the shell command: the signing builder is modelled only for its paths and document.
- The status route's POST (log listing) and the `build_logs` table.
- `path.join` normalisation (`..`, repeated `/`): the download route joins with one `/`.
- Streaming the file body in the download route.
- FixTypescript.ReplaceFirst: the `$`-patterns of JavaScript replacement strings are not expanded; the listed replacements use only `${`, which is not one of them.
- FixTypescript.Disk.FixAll: the fix list's texts are a parameter, not the script's eight entries; write failures are not modelled.
- Utils.GetStatusLabel: keys inherited from JavaScript's object prototype (such as `constructor`) are not modelled.
- Utils.GetStatusColor: keys inherited from JavaScript's object prototype are not modelled.
- StatusRoute.CalculateProgress: keys inherited from JavaScript's object prototype are not modelled.
- StatusRoute.Get: requires that distinct build ids name distinct record objects, which the database guarantees.
- StatusRoute.Get: the catch around the poll is not modelled, because the poll catches its own errors.
- GenerateRoute.Post: an unset Supabase variable is passed to the builder as the empty string.
- GenerateRoute.Fallback: the failed local attempt's build time is 0, as computed by `Date.now() - Date.now()`.
- GitHubActions.GitHubActionsBuilder.CheckStatus: `parseInt`'s handling of leading whitespace and signs is not modelled.
- ConfigModifier.ExtractConfig: the parser accepts only the compact nine-member layout the model's serialiser writes (the source indents it), with its keys in that order; a configuration entry that is valid JSON of another shape (fewer or other keys, another order, whitespace) yields `None` here, where `JSON.parse` returns the object.
- Common.ParseInt: JavaScript's `parseInt` skips leading whitespace, accepts a `+` or `-` sign and reads a `0x` prefix as hexadecimal; the model reads only leading decimal digits, so `" 5"`, `"-5"` and `"+5"` give no number and `"0x1F"` gives 0. Run ids and mock ids the routes produce are printed non-negative integers, for which the two agree.
- GitHubActions.MockCheckStatus: for the same reason, an id with leading whitespace, a sign or a `0x` prefix never completes in the model, while the mock reads a number from it.
- Builder.APKBuilder.Cleanup: `daysOld` is an integer and has no default; the code takes any number (fractional days included) and defaults to 30 days.
- ValidateToken.Post: the ignored `ultima_conexion` update failure is a parameter.
- ApkIntegrity.TestSingleAPK: a configuration entry that is valid JSON of another shape counts as unreadable; the file size line is not modelled.
- CobradoresRoute.DeterminarEstado: an unparsable connection date is not modelled.
